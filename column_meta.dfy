/**
 * The per-table summary that `extract_column_data` builds from a table's
 * columns: a record per column, the positions of `_hash` columns, the
 * required, unique and primary column lists, a foreign-key map and the
 * identity columns.
 *
 * The ORM column object is replaced by the plain record `Column`; its
 * `str(column.type)` is `typeStr` and the `_colspec` of each of its foreign
 * keys is an entry of `fkColspecs`.
 */
module ColumnMeta {
  import opened Wrappers
  import opened PyStr
  import opened PyDict

  /** The Python classes a column can be given: the `HashColumn` marker, `str`, or a `types_map` value. */
  datatype PyType = HashColumn | StrType | OtherType(name: string)

  datatype Column = Column(
    name: string,
    typeStr: string,
    nullable: Option<bool>,
    unique: Option<bool>,
    primary: bool,
    fkColspecs: seq<string>)

  /** The record `columns_data` holds per column name. */
  datatype ColumnInfo = ColumnInfo(
    pyType: PyType,
    len: Option<int>,
    nullable: Option<bool>,
    unique: Option<bool>,
    primary: bool,
    foreignKeys: seq<string>,
    dbType: string)

  /** The exceptions the extraction can raise. */
  datatype Error =
    | BadLength(text: string)      // ValueError from int() on the text between the parentheses
    | BadColspec(colspec: string)  // IndexError: a foreign-key colspec without a '.'
    | MissingTable(table: string)  // KeyError: no such table in the database metadata

  datatype Result<T> = Ok(value: T) | Err(error: Error)

  datatype TableDetails = TableDetails(
    uniqueColumns: seq<string>,
    requiredColumns: seq<string>,
    columnsData: Dict<ColumnInfo>,
    primaryKeys: seq<string>,
    columnsNames: seq<string>,
    hashedIndexes: seq<nat>,
    foreignKeys: Dict<(string, string)>,
    identity: seq<string>)

  const HashMarker: string := "_hash"

  // ---------------------------------------------------------------------
  // One column

  /** The column name contains `_hash` anywhere. */
  predicate IsHashed(c: Column)
  {
    Contains(c.name, HashMarker)
  }

  /** The key the column is stored under: for a hashed column, the text before the first `_hash`. */
  function DerivedName(c: Column): string
  {
    if IsHashed(c) then SplitHead(c.name, HashMarker) else c.name
  }

  /** `HashColumn` for a hashed column, else the `types_map` entry for the type name, falling back to `str`. */
  function TypeOf(c: Column, typesMap: map<string, PyType>): PyType
  {
    if IsHashed(c) then HashColumn
    else
      var key := SplitHead(c.typeStr, "(");
      if key in typesMap then typesMap[key] else StrType
  }

  /** The `len` of a column: `int()` of the text after the first `(` up to the next `)`. */
  function LengthOf(typeStr: string): Result<Option<int>>
  {
    match SplitPart(typeStr, "(", 1)
    case None => Ok(None)
    case Some(rest) =>
      var text := SplitHead(rest, ")");
      match ParseInt(text)
      case None => Err(BadLength(text))
      case Some(n) => Ok(Some(n))
  }

  /** The `columns_data` entry one iteration of the column loop writes. */
  function ColumnEntry(c: Column, typesMap: map<string, PyType>): Result<(string, ColumnInfo)>
  {
    match LengthOf(c.typeStr)
    case Err(e) => Err(e)
    case Ok(len) =>
      Ok((DerivedName(c), ColumnInfo(TypeOf(c, typesMap), len, c.nullable, c.unique, c.primary, c.fkColspecs, c.typeStr)))
  }

  // ---------------------------------------------------------------------
  // The column loop

  /** The results of a loop body run over a sequence: every value in order, or the first error. */
  function Collect<T>(rs: seq<Result<T>>): (r: Result<seq<T>>)
    ensures r.Ok? ==> |r.value| == |rs| && forall i :: 0 <= i < |rs| ==> rs[i] == Ok(r.value[i])
  {
    if rs == [] then Ok([])
    else
      var n := |rs| - 1;
      match Collect(rs[..n])
      case Err(e) => Err(e)
      case Ok(vs) =>
        match rs[n]
        case Err(e) => Err(e)
        case Ok(v) => Ok(vs + [v])
  }

  function EntryResults(cols: seq<Column>, typesMap: map<string, PyType>): (rs: seq<Result<(string, ColumnInfo)>>)
    ensures |rs| == |cols| && forall i :: 0 <= i < |cols| ==> rs[i] == ColumnEntry(cols[i], typesMap)
  {
    seq(|cols|, i requires 0 <= i < |cols| => ColumnEntry(cols[i], typesMap))
  }

  /** The entries of all columns in order, or the error of the first column that fails. */
  function Entries(cols: seq<Column>, typesMap: map<string, PyType>): Result<seq<(string, ColumnInfo)>>
  {
    Collect(EntryResults(cols, typesMap))
  }

  /** The positions of the hashed columns, in the order the loop appends them. */
  function HashedPositions(cols: seq<Column>): (r: seq<nat>)
    ensures forall k :: 0 <= k < |r| ==> r[k] < |cols|
    ensures forall k, l :: 0 <= k < l < |r| ==> r[k] < r[l]
  {
    if cols == [] then []
    else HashedPositions(cols[..|cols| - 1]) + if IsHashed(cols[|cols| - 1]) then [|cols| - 1] else []
  }

  // ---------------------------------------------------------------------
  // The list comprehensions

  datatype ColumnList = Required | Unique | Primary

  /** `nullable is False or primary`, `unique is True`, `primary is True`. */
  predicate Selects(l: ColumnList, info: ColumnInfo)
  {
    match l
    case Required => info.nullable == Some(false) || info.primary
    case Unique => info.unique == Some(true)
    case Primary => info.primary
  }

  /** `[key for key, value in columns_data.items() if ...]`. */
  function Select(l: ColumnList, names: seq<string>, data: map<string, ColumnInfo>): (r: seq<string>)
    requires forall k :: k in names ==> k in data
    ensures forall k :: k in r <==> k in names && Selects(l, data[k])
  {
    if names == [] then []
    else (if Selects(l, data[names[0]]) then [names[0]] else []) + Select(l, names[1..], data)
  }

  // ---------------------------------------------------------------------
  // The foreign-key loop

  /** The pairs (column name, colspec) the nested foreign-key loop visits, in order. */
  function FkPairs(names: seq<string>, data: map<string, ColumnInfo>): (r: seq<(string, string)>)
    requires forall k :: k in names ==> k in data
  {
    if names == [] then []
    else
      var n := |names| - 1;
      FkPairs(names[..n], data) + Tagged(names[n], data[names[n]].foreignKeys)
  }

  function Tagged(column: string, specs: seq<string>): (r: seq<(string, string)>)
    ensures |r| == |specs| && forall i :: 0 <= i < |specs| ==> r[i] == (column, specs[i])
  {
    seq(|specs|, i requires 0 <= i < |specs| => (column, specs[i]))
  }

  /** The `foreign_keys` entry for one pair: table part of the colspec to (column, text after the first `.`). */
  function FkEntry(p: (string, string)): Result<(string, (string, string))>
  {
    match SplitPart(p.1, ".", 1)
    case None => Err(BadColspec(p.1))
    case Some(second) => Ok((SplitHead(p.1, "."), (p.0, second)))
  }

  function FkResults(ps: seq<(string, string)>): (rs: seq<Result<(string, (string, string))>>)
    ensures |rs| == |ps| && forall i :: 0 <= i < |ps| ==> rs[i] == FkEntry(ps[i])
  {
    seq(|ps|, i requires 0 <= i < |ps| => FkEntry(ps[i]))
  }

  function FkEntries(ps: seq<(string, string)>): Result<seq<(string, (string, string))>>
  {
    Collect(FkResults(ps))
  }

  // ---------------------------------------------------------------------
  // The whole summary

  /** What `extract_column_data` returns for a table with columns `cols`, or the exception it raises. */
  function ColumnSummary(cols: seq<Column>, typesMap: map<string, PyType>): Result<TableDetails>
  {
    match Entries(cols, typesMap)
    case Err(e) => Err(e)
    case Ok(es) =>
      var data := FromPairs(es);
      match FkEntries(FkPairs(data.keys, data.items))
      case Err(e) => Err(e)
      case Ok(fes) =>
        var primary := Select(Primary, data.keys, data.items);
        var unique := Select(Unique, data.keys, data.items);
        Ok(TableDetails(
          unique,
          Select(Required, data.keys, data.items),
          data,
          primary,
          data.keys,
          HashedPositions(cols),
          FromPairs(fes),
          if primary != [] then primary else unique))
  }

  // ---------------------------------------------------------------------
  // What the summary says about the columns

  /** The parts a successful summary is made of. */
  lemma SummaryOk(cols: seq<Column>, typesMap: map<string, PyType>)
    requires ColumnSummary(cols, typesMap).Ok?
    ensures Entries(cols, typesMap).Ok?
    ensures var data := FromPairs(Entries(cols, typesMap).value);
            var d := ColumnSummary(cols, typesMap).value;
            && FkEntries(FkPairs(data.keys, data.items)).Ok?
            && d.columnsData == data
            && d.columnsNames == data.keys
            && d.hashedIndexes == HashedPositions(cols)
            && d.foreignKeys == FromPairs(FkEntries(FkPairs(data.keys, data.items)).value)
            && d.requiredColumns == Select(Required, data.keys, data.items)
            && d.uniqueColumns == Select(Unique, data.keys, data.items)
            && d.primaryKeys == Select(Primary, data.keys, data.items)
            && d.identity == if d.primaryKeys != [] then d.primaryKeys else d.uniqueColumns
  {
  }

  lemma {:induction false} HashedPositionsExact(cols: seq<Column>)
    ensures forall i: nat :: i in HashedPositions(cols) <==> i < |cols| && IsHashed(cols[i])
  {
    if cols != [] {
      var n := |cols| - 1;
      HashedPositionsExact(cols[..n]);
      forall i: nat | i < n ensures cols[..n][i] == cols[i] { }
    }
  }

  /** `hashed_indexes` lists, in increasing order, exactly the positions of the columns whose name contains `_hash`. */
  lemma HashedIndexesExact(cols: seq<Column>, typesMap: map<string, PyType>)
    requires ColumnSummary(cols, typesMap).Ok?
    ensures var h := ColumnSummary(cols, typesMap).value.hashedIndexes;
            && (forall k, l :: 0 <= k < l < |h| ==> h[k] < h[l])
            && forall i: nat :: i in h <==> i < |cols| && Contains(cols[i].name, "_hash")
  {
    SummaryOk(cols, typesMap);
    HashedPositionsExact(cols);
  }

  /** A hashed column is keyed by the text before the first `_hash` in its name; any other column by its name. */
  lemma DerivedNameSpec(c: Column)
    ensures Find(c.name, "_hash").Some? ==> DerivedName(c) == c.name[..Find(c.name, "_hash").value]
    ensures Find(c.name, "_hash").None? ==> DerivedName(c) == c.name
  {
    SplitHeadAtFind(c.name, HashMarker);
  }

  /**
   * A hashed column gets `HashColumn`; any other column the `types_map` entry
   * for its type string up to the first `(`, or `str` when there is none.
   */
  lemma TypeOfSpec(c: Column, typesMap: map<string, PyType>)
    ensures Contains(c.name, "_hash") ==> TypeOf(c, typesMap) == HashColumn
    ensures !Contains(c.name, "_hash") ==>
              var key := if Find(c.typeStr, "(").Some? then c.typeStr[..Find(c.typeStr, "(").value] else c.typeStr;
              TypeOf(c, typesMap) == if key in typesMap then typesMap[key] else StrType
  {
    SplitHeadAtFind(c.typeStr, "(");
  }

  /** The first position at or after `from` that holds `(` or `)`, or the end of `t`. */
  function NextParen(t: string, from: nat): (q: nat)
    requires from <= |t|
    ensures from <= q <= |t|
    ensures forall i :: from <= i < q ==> t[i] != '(' && t[i] != ')'
    ensures q == |t| || t[q] == '(' || t[q] == ')'
    decreases |t| - from
  {
    if from == |t| || t[from] == '(' || t[from] == ')' then from else NextParen(t, from + 1)
  }

  /**
   * Without a `(` the length is None. Otherwise it is `int()` of the text
   * from just after the first `(` up to the next `(` or `)`, or the end; text
   * that `int()` rejects raises ValueError.
   */
  lemma LengthText(t: string)
    ensures Find(t, "(").None? ==> LengthOf(t) == Ok(None)
    ensures Find(t, "(").Some? ==>
              var p := Find(t, "(").value;
              var text := t[p + 1..NextParen(t, p + 1)];
              LengthOf(t) == if ParseInt(text).Some? then Ok(Some(ParseInt(text).value)) else Err(BadLength(text))
  {
    if Find(t, "(").Some? {
      ParenText(t);
    }
  }

  /** The text `split("(")[1].split(")")[0]` picks out, located in `t`. */
  lemma ParenText(t: string)
    requires Find(t, "(").Some?
    ensures var p := Find(t, "(").value;
            && p < |t|
            && SplitPart(t, "(", 1) == Some(SplitHead(t[p + 1..], "("))
            && SplitHead(SplitHead(t[p + 1..], "("), ")") == t[p + 1..NextParen(t, p + 1)]
  {
    var p := Find(t, "(").value;
    assert p < |t| && SplitPart(t, "(", 1) == Some(SplitHead(t[p + 1..], "(")) by {
      assert OccursAt(t, "(", p);
      OccursAtChar(t, '(', p);
    }
    var u := t[p + 1..];
    var b := SplitHead(SplitHead(u, "("), ")");
    StopAtParen(u);
    SliceToParen(t, p + 1, b);
  }

  /** A prefix of `t[from..]` free of parentheses and ending at one (or at the end) is `t[from..NextParen(t, from)]`. */
  lemma SliceToParen(t: string, from: nat, b: string)
    requires from <= |t| && |b| <= |t| - from && b == t[from..][..|b|]
    requires forall i :: 0 <= i < |b| ==> b[i] != '(' && b[i] != ')'
    requires |b| == |t| - from || t[from..][|b|] == '(' || t[from..][|b|] == ')'
    ensures b == t[from..NextParen(t, from)]
  {
    assert t[from..from + |b|] == t[from..][..|b|];
    assert from + |b| < |t| ==> t[from + |b|] == t[from..][|b|];
    NextParenAt(t, from, b);
  }

  /** A stretch of `t` free of parentheses and ending at one (or at the end) reaches the next parenthesis. */
  lemma NextParenAt(t: string, from: nat, b: string)
    requires from + |b| <= |t| && b == t[from..from + |b|]
    requires forall i :: 0 <= i < |b| ==> b[i] != '(' && b[i] != ')'
    requires from + |b| == |t| || t[from + |b|] == '(' || t[from + |b|] == ')'
    ensures NextParen(t, from) == from + |b|
    decreases |b|
  {
    if b != [] {
      assert t[from] == b[0];
      NextParenAt(t, from + 1, b[1..]);
    }
  }

  /** The text before the first `(` and then before the first `)` is the longest prefix without either. */
  lemma StopAtParen(u: string)
    ensures var b := SplitHead(SplitHead(u, "("), ")");
            && b == u[..|b|]
            && (forall i :: 0 <= i < |b| ==> b[i] != '(' && b[i] != ')')
            && (|b| == |u| || u[|b|] == '(' || u[|b|] == ')')
  {
    var a := SplitHead(u, "(");
    var b := SplitHead(a, ")");
    forall i | 0 <= i < |a| ensures u[i] != '(' {
      OccursAtChar(u, '(', i);
    }
    forall i | 0 <= i < |b| ensures a[i] != ')' {
      OccursAtChar(a, ')', i);
    }
    if |a| < |u| {
      OccursAtChar(u, '(', |a|);
    }
    if |b| < |a| {
      OccursAtChar(a, ')', |b|);
    }
  }

  /** A type string with a parenthesised text free of parentheses has `int()` of that text as its length. */
  lemma LengthOfParts(pre: string, text: string, post: string)
    requires '(' !in pre && '(' !in text && ')' !in text
    ensures LengthOf(pre + "(" + text + ")" + post) ==
              if ParseInt(text).Some? then Ok(Some(ParseInt(text).value)) else Err(BadLength(text))
  {
    var t := pre + "(" + text + ")" + post;
    assert Find(t, "(") == Some(|pre|) by {
      assert t[..|pre|] == pre && t[|pre|] == '(';
      FindChar(t, '(', |pre|);
    }
    assert t[|pre| + 1..NextParen(t, |pre| + 1)] == text by {
      assert t[|pre| + 1..|pre| + 1 + |text|] == text && t[|pre| + 1 + |text|] == ')';
      NextParenAt(t, |pre| + 1, text);
    }
    LengthText(t);
  }

  /** A scale after the precision, as in `NUMERIC(10, 2)`, makes the length text `10, 2`, which `int()` rejects. */
  lemma NumericWithScaleFails()
    ensures LengthOf("NUMERIC(10, 2)") == Err(BadLength("10, 2"))
  {
    assert "NUMERIC(10, 2)" == "NUMERIC" + "(" + "10, 2" + ")" + "";
    LengthOfParts("NUMERIC", "10, 2", "");
    CommaRejected();
  }

  lemma CommaRejected()
    ensures ParseInt("10, 2") == None
  {
    var text := "10, 2";
    assert StripLeft(text) == text && StripRight(text) == text;
    assert text[2] == ',';
  }

  /** `VARCHAR(64)` has length 64. */
  lemma VarcharLength()
    ensures LengthOf("VARCHAR(64)") == Ok(Some(64))
  {
    assert "VARCHAR(64)" == "VARCHAR" + "(" + "64" + ")" + "";
    LengthOfParts("VARCHAR", "64", "");
    assert ParseInt("64") == Some(64) by {
      assert IntToDecimal(64) == "64" by {
        TwoDigits(6, 4);
        assert DigitChar(6) == '6' && DigitChar(4) == '4';
      }
      ParseIntRoundTrip(64);
    }
  }

  lemma TwoDigits(a: nat, b: nat)
    requires 1 <= a < 10 && b < 10
    ensures NatToDecimal(10 * a + b) == [DigitChar(a), DigitChar(b)]
  {
    assert (10 * a + b) / 10 == a && (10 * a + b) % 10 == b;
  }

  /** The list of pairs (key, entry) of the column loop, keyed by derived name. */
  function DerivedNames(cols: seq<Column>): (r: seq<string>)
    ensures |r| == |cols| && forall i :: 0 <= i < |cols| ==> r[i] == DerivedName(cols[i])
  {
    seq(|cols|, i requires 0 <= i < |cols| => DerivedName(cols[i]))
  }

  lemma EntriesKeys(cols: seq<Column>, typesMap: map<string, PyType>)
    requires Entries(cols, typesMap).Ok?
    ensures KeysOf(Entries(cols, typesMap).value) == DerivedNames(cols)
  {
    var es := Entries(cols, typesMap).value;
    forall i | 0 <= i < |cols| ensures es[i].0 == DerivedName(cols[i]) {
      assert EntryResults(cols, typesMap)[i] == Ok(es[i]);
    }
  }

  /**
   * `columns_names` lists every derived name once, in the order of its first
   * column; they are exactly the keys of `columns_data`.
   */
  lemma ColumnsNamesInOrder(cols: seq<Column>, typesMap: map<string, PyType>)
    requires ColumnSummary(cols, typesMap).Ok?
    ensures var d := ColumnSummary(cols, typesMap).value;
            && d.columnsNames == d.columnsData.keys
            && Distinct(d.columnsNames)
            && (forall k :: k in d.columnsNames <==> k in d.columnsData.items)
            && (forall k :: k in d.columnsNames <==> k in DerivedNames(cols))
            && InOrderWithin(d.columnsNames, DerivedNames(cols))
  {
    SummaryOk(cols, typesMap);
    var es := Entries(cols, typesMap).value;
    EntriesKeys(cols, typesMap);
    FromPairsDomain(es);
    FromPairsOrder(es);
  }

  /**
   * When several columns derive the same name (`pw` and `pw_hash`), the entry
   * in `columns_data` is that of the last of them; every column's entry holds
   * its type, length and flags.
   */
  lemma ColumnsDataLastWins(cols: seq<Column>, typesMap: map<string, PyType>)
    requires ColumnSummary(cols, typesMap).Ok?
    ensures forall i :: 0 <= i < |cols| ==> LengthOf(cols[i].typeStr).Ok?
    ensures var data := ColumnSummary(cols, typesMap).value.columnsData.items;
            forall i :: 0 <= i < |cols| && (forall j :: i < j < |cols| ==> DerivedName(cols[j]) != DerivedName(cols[i])) ==>
              && DerivedName(cols[i]) in data
              && data[DerivedName(cols[i])] == ColumnInfo(TypeOf(cols[i], typesMap), LengthOf(cols[i].typeStr).value,
                   cols[i].nullable, cols[i].unique, cols[i].primary, cols[i].fkColspecs, cols[i].typeStr)
  {
    SummaryOk(cols, typesMap);
    EntriesLastWins(cols, typesMap, Entries(cols, typesMap).value);
  }

  lemma EntriesLastWins(cols: seq<Column>, typesMap: map<string, PyType>, es: seq<(string, ColumnInfo)>)
    requires Entries(cols, typesMap) == Ok(es)
    ensures forall i :: 0 <= i < |cols| ==> LengthOf(cols[i].typeStr).Ok?
    ensures var data := FromPairs(es).items;
            forall i :: 0 <= i < |cols| && (forall j :: i < j < |cols| ==> DerivedName(cols[j]) != DerivedName(cols[i])) ==>
              && DerivedName(cols[i]) in data
              && data[DerivedName(cols[i])] == ColumnInfo(TypeOf(cols[i], typesMap), LengthOf(cols[i].typeStr).value,
                   cols[i].nullable, cols[i].unique, cols[i].primary, cols[i].fkColspecs, cols[i].typeStr)
  {
    forall i | 0 <= i < |cols| ensures ColumnEntry(cols[i], typesMap) == Ok(es[i]) {
      assert EntryResults(cols, typesMap)[i] == Ok(es[i]);
    }
    forall i | 0 <= i < |cols| && (forall j :: i < j < |cols| ==> DerivedName(cols[j]) != DerivedName(cols[i]))
      ensures es[i].0 in FromPairs(es).items && FromPairs(es).items[es[i].0] == es[i].1
    {
      FromPairsLastWinsAt(es, i);
    }
  }

  lemma {:induction false} SelectInOrder(l: ColumnList, names: seq<string>, data: map<string, ColumnInfo>)
    requires forall k :: k in names ==> k in data
    requires Distinct(names)
    ensures Distinct(Select(l, names, data)) && InOrderWithin(Select(l, names, data), names)
  {
    if names != [] {
      var rest := Select(l, names[1..], data);
      SelectInOrder(l, names[1..], data);
      if Selects(l, data[names[0]]) {
        InOrderCons(rest, names);
      } else {
        InOrderWithinTail(rest, names);
      }
    }
  }

  /**
   * `required_columns`, `unique_columns` and `primary_keys` keep the order of
   * `columns_names` and hold exactly the names whose entry has `nullable is
   * False` or `primary`, `unique is True`, and `primary` respectively.
   */
  lemma ColumnListsSpec(cols: seq<Column>, typesMap: map<string, PyType>)
    requires ColumnSummary(cols, typesMap).Ok?
    ensures var d := ColumnSummary(cols, typesMap).value;
            var data := d.columnsData.items;
            && (forall k :: k in d.columnsNames ==> k in data)
            && Distinct(d.requiredColumns) && InOrderWithin(d.requiredColumns, d.columnsNames)
            && Distinct(d.uniqueColumns) && InOrderWithin(d.uniqueColumns, d.columnsNames)
            && Distinct(d.primaryKeys) && InOrderWithin(d.primaryKeys, d.columnsNames)
            && (forall k :: k in d.requiredColumns <==> k in d.columnsNames && (data[k].nullable == Some(false) || data[k].primary))
            && (forall k :: k in d.uniqueColumns <==> k in d.columnsNames && data[k].unique == Some(true))
            && (forall k :: k in d.primaryKeys <==> k in d.columnsNames && data[k].primary)
  {
    var d := ColumnSummary(cols, typesMap).value;
    var names, data := d.columnsNames, d.columnsData.items;
    assert && Distinct(names) && (forall k :: k in names ==> k in data)
           && d.requiredColumns == Select(Required, names, data)
           && d.uniqueColumns == Select(Unique, names, data)
           && d.primaryKeys == Select(Primary, names, data) by {
      SummaryOk(cols, typesMap);
    }
    SelectInOrder(Required, names, data);
    SelectInOrder(Unique, names, data);
    SelectInOrder(Primary, names, data);
  }

  /**
   * `identity` is `primary_keys` when some column is primary, else
   * `unique_columns`; it is empty exactly when no column is primary or unique.
   */
  lemma IdentityChoice(cols: seq<Column>, typesMap: map<string, PyType>)
    requires ColumnSummary(cols, typesMap).Ok?
    ensures var d := ColumnSummary(cols, typesMap).value;
            var data := d.columnsData.items;
            && (forall k :: k in d.columnsNames ==> k in data)
            && ((exists k :: k in d.columnsNames && data[k].primary) ==> d.identity == d.primaryKeys)
            && (!(exists k :: k in d.columnsNames && data[k].primary) ==> d.identity == d.uniqueColumns)
            && (d.identity != [] <==> exists k :: k in d.columnsNames && (data[k].primary || data[k].unique == Some(true)))
  {
    ColumnListsSpec(cols, typesMap);
    SummaryOk(cols, typesMap);
    var d := ColumnSummary(cols, typesMap).value;
    if d.primaryKeys != [] {
      assert d.primaryKeys[0] in d.primaryKeys;
    }
    if d.uniqueColumns != [] {
      assert d.uniqueColumns[0] in d.uniqueColumns;
    }
  }

  /** The pairs the foreign-key loop visits are the (column, colspec) pairs of the entries in `columns_data`. */
  lemma {:induction false} FkPairsMembers(names: seq<string>, data: map<string, ColumnInfo>)
    requires forall k :: k in names ==> k in data
    ensures forall p: (string, string) :: p in FkPairs(names, data) <==> p.0 in names && p.1 in data[p.0].foreignKeys
  {
    if names != [] {
      var n := |names| - 1;
      FkPairsMembers(names[..n], data);
      assert names == names[..n] + [names[n]];
      forall p: (string, string) | p.0 in names && p.1 in data[p.0].foreignKeys ensures p in FkPairs(names, data) {
        if p.0 != names[n] {
          assert p.0 in names[..n];
        } else {
          var j :| 0 <= j < |data[p.0].foreignKeys| && data[p.0].foreignKeys[j] == p.1;
          assert Tagged(names[n], data[names[n]].foreignKeys)[j] == p;
        }
      }
    }
  }

  /**
   * Every colspec of a kept column has a `.`; `foreign_keys` maps the text
   * before the first `.` of each to (column name, text between the first and
   * second `.`), and where several colspecs name the same table the last one
   * visited wins.
   */
  lemma ForeignKeysSpec(cols: seq<Column>, typesMap: map<string, PyType>)
    requires ColumnSummary(cols, typesMap).Ok?
    ensures var d := ColumnSummary(cols, typesMap).value;
            var data := d.columnsData.items;
            && (forall k :: k in d.columnsNames ==> k in data)
            && var ps := FkPairs(d.columnsNames, data);
            && (forall p: (string, string) :: p in ps <==> p.0 in d.columnsNames && p.1 in data[p.0].foreignKeys)
            && (forall i :: 0 <= i < |ps| ==> SplitPart(ps[i].1, ".", 1).Some?)
            && (forall t :: t in d.foreignKeys.items <==> exists i :: 0 <= i < |ps| && SplitHead(ps[i].1, ".") == t)
            && (forall i :: 0 <= i < |ps| && (forall j :: i < j < |ps| ==> SplitHead(ps[j].1, ".") != SplitHead(ps[i].1, ".")) ==>
                  && SplitHead(ps[i].1, ".") in d.foreignKeys.items
                  && d.foreignKeys.items[SplitHead(ps[i].1, ".")] == (ps[i].0, SplitPart(ps[i].1, ".", 1).value))
  {
    SummaryOk(cols, typesMap);
    var d := ColumnSummary(cols, typesMap).value;
    FkPairsMembers(d.columnsNames, d.columnsData.items);
    var ps := FkPairs(d.columnsNames, d.columnsData.items);
    FkTableLastWins(ps, FkEntries(ps).value);
  }

  lemma FkTableLastWins(ps: seq<(string, string)>, fes: seq<(string, (string, string))>)
    requires FkEntries(ps) == Ok(fes)
    ensures forall i :: 0 <= i < |ps| ==> SplitPart(ps[i].1, ".", 1).Some?
    ensures var fk := FromPairs(fes).items;
            && (forall t :: t in fk <==> exists i :: 0 <= i < |ps| && SplitHead(ps[i].1, ".") == t)
            && (forall i :: 0 <= i < |ps| && (forall j :: i < j < |ps| ==> SplitHead(ps[j].1, ".") != SplitHead(ps[i].1, ".")) ==>
                  && SplitHead(ps[i].1, ".") in fk
                  && fk[SplitHead(ps[i].1, ".")] == (ps[i].0, SplitPart(ps[i].1, ".", 1).value))
  {
    FkEntriesAt(ps, fes);
    FkTableDomain(ps, fes);
    forall i | 0 <= i < |ps| && (forall j :: i < j < |ps| ==> SplitHead(ps[j].1, ".") != SplitHead(ps[i].1, "."))
      ensures fes[i].0 in FromPairs(fes).items && FromPairs(fes).items[fes[i].0] == fes[i].1
    {
      FromPairsLastWinsAt(fes, i);
    }
  }

  lemma FkTableDomain(ps: seq<(string, string)>, fes: seq<(string, (string, string))>)
    requires FkEntries(ps) == Ok(fes)
    ensures forall t :: t in FromPairs(fes).items <==> exists i :: 0 <= i < |ps| && SplitHead(ps[i].1, ".") == t
  {
    FkEntryKeys(ps, fes);
    FromPairsDomain(fes);
  }

  /** The keys of the foreign-key entries are the referenced tables. */
  lemma FkEntryKeys(ps: seq<(string, string)>, fes: seq<(string, (string, string))>)
    requires FkEntries(ps) == Ok(fes)
    ensures forall t :: t in KeysOf(fes) <==> exists i :: 0 <= i < |ps| && SplitHead(ps[i].1, ".") == t
  {
    FkEntriesAt(ps, fes);
    forall t | t in KeysOf(fes) ensures exists i :: 0 <= i < |ps| && SplitHead(ps[i].1, ".") == t {
      var i :| 0 <= i < |fes| && KeysOf(fes)[i] == t;
    }
  }

  lemma FkEntriesAt(ps: seq<(string, string)>, fes: seq<(string, (string, string))>)
    requires FkEntries(ps) == Ok(fes)
    ensures |fes| == |ps|
    ensures forall i :: 0 <= i < |ps| ==>
              SplitPart(ps[i].1, ".", 1).Some? && fes[i] == (SplitHead(ps[i].1, "."), (ps[i].0, SplitPart(ps[i].1, ".", 1).value))
  {
    forall i | 0 <= i < |ps|
      ensures SplitPart(ps[i].1, ".", 1).Some? && fes[i] == (SplitHead(ps[i].1, "."), (ps[i].0, SplitPart(ps[i].1, ".", 1).value))
    {
      assert FkResults(ps)[i] == Ok(fes[i]);
      FkEntryCases(ps[i]);
    }
  }

  /** Every entry of `columns_data` is the one some column with that derived name wrote. */
  lemma ColumnsDataFromColumns(cols: seq<Column>, typesMap: map<string, PyType>)
    requires ColumnSummary(cols, typesMap).Ok?
    ensures var data := ColumnSummary(cols, typesMap).value.columnsData.items;
            forall k :: k in data ==> exists i :: 0 <= i < |cols| && DerivedName(cols[i]) == k && ColumnEntry(cols[i], typesMap) == Ok((k, data[k]))
  {
    SummaryOk(cols, typesMap);
    EntriesValues(cols, typesMap, Entries(cols, typesMap).value);
  }

  lemma EntriesValues(cols: seq<Column>, typesMap: map<string, PyType>, es: seq<(string, ColumnInfo)>)
    requires Entries(cols, typesMap) == Ok(es)
    ensures var data := FromPairs(es).items;
            forall k :: k in data ==> exists i :: 0 <= i < |cols| && DerivedName(cols[i]) == k && ColumnEntry(cols[i], typesMap) == Ok((k, data[k]))
  {
    forall k | k in FromPairs(es).items
      ensures exists i :: 0 <= i < |cols| && DerivedName(cols[i]) == k && ColumnEntry(cols[i], typesMap) == Ok((k, FromPairs(es).items[k]))
    {
      EntryValueOf(cols, typesMap, es, k);
    }
  }

  lemma EntryValueOf(cols: seq<Column>, typesMap: map<string, PyType>, es: seq<(string, ColumnInfo)>, k: string)
    requires Entries(cols, typesMap) == Ok(es) && k in FromPairs(es).items
    ensures exists i :: 0 <= i < |cols| && DerivedName(cols[i]) == k && ColumnEntry(cols[i], typesMap) == Ok((k, FromPairs(es).items[k]))
  {
    FromPairsValueOf(es, k);
    var i :| 0 <= i < |es| && es[i] == (k, FromPairs(es).items[k]);
    assert EntryResults(cols, typesMap)[i] == Ok(es[i]);
  }

  // ---------------------------------------------------------------------
  // Which exception is raised

  /** A loop over results stops at the first error. */
  lemma {:induction false} CollectFirstError<T>(rs: seq<Result<T>>, i: nat)
    requires i < |rs| && rs[i].Err?
    requires forall j :: 0 <= j < i ==> rs[j].Ok?
    ensures Collect(rs) == Err(rs[i].error)
  {
    var n := |rs| - 1;
    if i < n {
      assert rs[..n][i] == rs[i];
      forall j | 0 <= j < i ensures rs[..n][j].Ok? {
        assert rs[..n][j] == rs[j];
      }
      CollectFirstError(rs[..n], i);
    } else if Collect(rs[..n]).Err? {
      CollectAllOk(rs[..n]);
    }
  }

  /** A loop over results completes exactly when no step fails. */
  lemma {:induction false} CollectAllOk<T>(rs: seq<Result<T>>)
    ensures Collect(rs).Ok? <==> forall j :: 0 <= j < |rs| ==> rs[j].Ok?
  {
    if rs != [] {
      var n := |rs| - 1;
      CollectAllOk(rs[..n]);
      if forall j :: 0 <= j < |rs| ==> rs[j].Ok? {
        forall j | 0 <= j < n ensures rs[..n][j].Ok? {
          assert rs[..n][j] == rs[j];
        }
      }
    }
  }

  /** A failing loop over results fails with the error of one of its steps. */
  lemma {:induction false} CollectErrorFrom<T>(rs: seq<Result<T>>)
    requires Collect(rs).Err?
    ensures exists j :: 0 <= j < |rs| && rs[j] == Err(Collect(rs).error)
  {
    var n := |rs| - 1;
    if Collect(rs[..n]).Err? {
      CollectErrorFrom(rs[..n]);
      var j :| 0 <= j < n && rs[..n][j] == Err(Collect(rs[..n]).error);
      assert rs[j] == rs[..n][j];
    } else {
      assert rs[n] == Err(Collect(rs).error);
    }
  }

  /** The column loop raises the ValueError of the first column whose length text `int()` rejects. */
  lemma SummaryFirstBadLength(cols: seq<Column>, typesMap: map<string, PyType>, i: nat)
    requires i < |cols| && LengthOf(cols[i].typeStr).Err?
    requires forall j :: 0 <= j < i ==> LengthOf(cols[j].typeStr).Ok?
    ensures LengthOf(cols[i].typeStr).error.BadLength?
    ensures ColumnSummary(cols, typesMap) == Err(LengthOf(cols[i].typeStr).error)
  {
    var rs := EntryResults(cols, typesMap);
    assert rs[i] == Err(LengthOf(cols[i].typeStr).error);
    CollectFirstError(rs, i);
  }

  /**
   * When every length parses, the summary fails only with the IndexError of
   * a colspec without a `.` that belongs to one of the columns, and it
   * succeeds when every colspec of every column has one.
   */
  lemma SummaryColspecOutcome(cols: seq<Column>, typesMap: map<string, PyType>)
    requires forall i :: 0 <= i < |cols| ==> LengthOf(cols[i].typeStr).Ok?
    ensures (forall i, s :: 0 <= i < |cols| && s in cols[i].fkColspecs ==> Contains(s, ".")) ==> ColumnSummary(cols, typesMap).Ok?
    ensures ColumnSummary(cols, typesMap).Err? ==>
              var e := ColumnSummary(cols, typesMap).error;
              && e.BadColspec?
              && !Contains(e.colspec, ".")
              && exists i :: 0 <= i < |cols| && e.colspec in cols[i].fkColspecs
  {
    CollectAllOk(EntryResults(cols, typesMap));
    var es := Entries(cols, typesMap).value;
    var data := FromPairs(es);
    if FkEntries(FkPairs(data.keys, data.items)).Err? {
      FkErrorSource(cols, typesMap, es);
    }
  }

  lemma FkErrorSource(cols: seq<Column>, typesMap: map<string, PyType>, es: seq<(string, ColumnInfo)>)
    requires Entries(cols, typesMap) == Ok(es)
    requires var data := FromPairs(es); FkEntries(FkPairs(data.keys, data.items)).Err?
    ensures var data := FromPairs(es);
            var e := FkEntries(FkPairs(data.keys, data.items)).error;
            && e.BadColspec?
            && !Contains(e.colspec, ".")
            && exists i :: 0 <= i < |cols| && e.colspec in cols[i].fkColspecs
  {
    var data := FromPairs(es);
    var ps := FkPairs(data.keys, data.items);
    FkErrorPair(ps);
    var j :| 0 <= j < |ps| && ps[j].1 == FkEntries(ps).error.colspec;
    var k := ps[j].0;
    assert k in data.items && ps[j].1 in data.items[k].foreignKeys by {
      FkPairsMembers(data.keys, data.items);
      assert ps[j] in ps;
    }
    assert exists i :: 0 <= i < |cols| && ColumnEntry(cols[i], typesMap) == Ok((k, data.items[k])) by {
      EntriesValues(cols, typesMap, es);
    }
    var i :| 0 <= i < |cols| && ColumnEntry(cols[i], typesMap) == Ok((k, data.items[k]));
    EntryColspecs(cols[i], typesMap, k, data.items[k]);
  }

  lemma EntryColspecs(c: Column, typesMap: map<string, PyType>, k: string, info: ColumnInfo)
    requires ColumnEntry(c, typesMap) == Ok((k, info))
    ensures info.foreignKeys == c.fkColspecs
  {
  }

  /** A failing foreign-key loop fails on a visited colspec without a `.`. */
  lemma FkErrorPair(ps: seq<(string, string)>)
    requires FkEntries(ps).Err?
    ensures var e := FkEntries(ps).error;
            e.BadColspec? && !Contains(e.colspec, ".") && exists j :: 0 <= j < |ps| && ps[j].1 == e.colspec
  {
    CollectErrorFrom(FkResults(ps));
    var j :| 0 <= j < |ps| && FkResults(ps)[j] == Err(FkEntries(ps).error);
    FkEntryCases(ps[j]);
    SplitHasSecondPart(ps[j].1, ".");
  }

  lemma CollectStep<T>(rs: seq<Result<T>>, r: Result<T>, vs: seq<T>, v: T)
    requires Collect(rs) == Ok(vs) && r == Ok(v)
    ensures Collect(rs + [r]) == Ok(vs + [v])
  {
    assert (rs + [r])[..|rs|] == rs;
  }

  lemma {:induction false} FkPairsAppend(a: seq<string>, b: seq<string>, data: map<string, ColumnInfo>)
    requires forall k :: k in a + b ==> k in data
    ensures FkPairs(a + b, data) == FkPairs(a, data) + FkPairs(b, data)
  {
    if b == [] {
      assert a + b == a;
    } else {
      var n := |b| - 1;
      assert (a + b)[..|a + b| - 1] == a + b[..n];
      FkPairsAppend(a, b[..n], data);
    }
  }

  lemma FkPairsStep(names: seq<string>, data: map<string, ColumnInfo>, i: nat)
    requires forall k :: k in names ==> k in data
    requires i < |names|
    ensures FkPairs(names[..i + 1], data) == FkPairs(names[..i], data) + Tagged(names[i], data[names[i]].foreignKeys)
  {
    assert names[..i + 1][..i] == names[..i];
  }

  lemma TaggedStep(column: string, specs: seq<string>, j: nat)
    requires j < |specs|
    ensures Tagged(column, specs[..j + 1]) == Tagged(column, specs[..j]) + [(column, specs[j])]
  {
  }

  lemma TaggedPrefix(column: string, specs: seq<string>, j: nat)
    requires j < |specs|
    ensures Tagged(column, specs)[..j] == Tagged(column, specs[..j])
  {
  }

  // ---------------------------------------------------------------------
  // The extraction as the source runs it

  /** `extract_column_data` for a table with columns `columns`: the column loop, the comprehensions and the foreign-key loop. */
  method ExtractColumnData(columns: seq<Column>, typesMap: map<string, PyType>) returns (r: Result<TableDetails>)
    ensures r == ColumnSummary(columns, typesMap)
  {
    var scanned := ScanColumns(columns, typesMap);
    if scanned.Err? {
      return Err(scanned.error);
    }
    var (columnsData, hashedIndexes) := scanned.value;
    var names := columnsData.keys;
    var data := columnsData.items;
    var required := Select(Required, names, data);
    var uniqueKeys := Select(Unique, names, data);
    var foreignKeys := CollectForeignKeys(names, data);
    if foreignKeys.Err? {
      return Err(foreignKeys.error);
    }
    var primaryKeys := Select(Primary, names, data);
    r := Ok(TableDetails(
      uniqueKeys,
      required,
      columnsData,
      primaryKeys,
      names,
      hashedIndexes,
      foreignKeys.value,
      if primaryKeys != [] then primaryKeys else uniqueKeys));
  }

  /** The column loop of `extract_column_data`: fills `columns_data` and `hashed_indexes`. */
  method ScanColumns(columns: seq<Column>, typesMap: map<string, PyType>) returns (r: Result<(Dict<ColumnInfo>, seq<nat>)>)
    ensures r.Ok? <==> Entries(columns, typesMap).Ok?
    ensures r.Ok? ==> r.value == (FromPairs(Entries(columns, typesMap).value), HashedPositions(columns))
    ensures r.Err? ==> Entries(columns, typesMap) == Err(r.error)
  {
    var columnsData: Dict<ColumnInfo> := Empty();
    var hashedIndexes: seq<nat> := [];
    ghost var entries: seq<(string, ColumnInfo)> := [];
    for num := 0 to |columns|
      invariant Entries(columns[..num], typesMap) == Ok(entries)
      invariant columnsData == FromPairs(entries)
      invariant hashedIndexes == HashedPositions(columns[..num])
    {
      if Contains(columns[num].name, HashMarker) {
        hashedIndexes := hashedIndexes + [num];
      }
      var entry := ColumnEntryOf(columns[num], typesMap);
      if entry.Err? {
        EntriesStop(columns, typesMap, num);
        return Err(entry.error);
      }
      ScanStep(columns, typesMap, num, entries, entry.value);
      columnsData := Put(columnsData, entry.value.0, entry.value.1);
      entries := entries + [entry.value];
    }
    assert columns[..|columns|] == columns;
    r := Ok((columnsData, hashedIndexes));
  }

  /** One iteration of the column loop: the key and the `columns_data` entry of `column`, or the ValueError of its length. */
  method ColumnEntryOf(column: Column, typesMap: map<string, PyType>) returns (r: Result<(string, ColumnInfo)>)
    ensures r == ColumnEntry(column, typesMap)
  {
    var name: string;
    var type_: PyType;
    if Contains(column.name, HashMarker) {
      name := SplitHead(column.name, HashMarker);
      type_ := HashColumn;
    } else {
      name := column.name;
      var key := SplitHead(column.typeStr, "(");
      if key in typesMap {
        type_ := typesMap[key];
      } else {
        type_ := StrType;
      }
    }
    var len_: Option<int>;
    var rest := SplitPart(column.typeStr, "(", 1);
    if rest.Some? {
      var text := SplitHead(rest.value, ")");
      var n := ParseInt(text);
      if n.None? {
        return Err(BadLength(text));
      }
      len_ := Some(n.value);
    } else {
      len_ := None;
    }
    r := Ok((name, ColumnInfo(type_, len_, column.nullable, column.unique, column.primary, column.fkColspecs, column.typeStr)));
  }

  /** What one more completed iteration of the column loop adds. */
  lemma ScanStep(cols: seq<Column>, typesMap: map<string, PyType>, num: nat, es: seq<(string, ColumnInfo)>, e: (string, ColumnInfo))
    requires num < |cols|
    requires Entries(cols[..num], typesMap) == Ok(es) && ColumnEntry(cols[num], typesMap) == Ok(e)
    ensures Entries(cols[..num + 1], typesMap) == Ok(es + [e])
    ensures FromPairs(es + [e]) == Put(FromPairs(es), e.0, e.1)
    ensures HashedPositions(cols[..num + 1]) == HashedPositions(cols[..num]) + if IsHashed(cols[num]) then [num] else []
  {
    assert cols[..num + 1][..num] == cols[..num];
    EntriesStep(cols, typesMap, num, es, e);
    FromPairsStep(es, e.0, e.1);
  }

  lemma EntriesStep(cols: seq<Column>, typesMap: map<string, PyType>, num: nat, es: seq<(string, ColumnInfo)>, e: (string, ColumnInfo))
    requires num < |cols|
    requires Entries(cols[..num], typesMap) == Ok(es) && ColumnEntry(cols[num], typesMap) == Ok(e)
    ensures Entries(cols[..num + 1], typesMap) == Ok(es + [e])
  {
    assert EntryResults(cols[..num + 1], typesMap) == EntryResults(cols[..num], typesMap) + [ColumnEntry(cols[num], typesMap)];
    CollectStep(EntryResults(cols[..num], typesMap), ColumnEntry(cols[num], typesMap), es, e);
  }

  /** A loop over results that completed its first `n` steps stops with the error of step `n`. */
  lemma CollectStop<T>(rs: seq<Result<T>>, n: nat)
    requires n < |rs| && Collect(rs[..n]).Ok? && rs[n].Err?
    ensures Collect(rs) == Err(rs[n].error)
  {
    forall j | 0 <= j < n ensures rs[j].Ok? {
      assert rs[..n][j] == Ok(Collect(rs[..n]).value[j]);
    }
    CollectFirstError(rs, n);
  }

  lemma EntriesStop(cols: seq<Column>, typesMap: map<string, PyType>, num: nat)
    requires num < |cols|
    requires Entries(cols[..num], typesMap).Ok? && ColumnEntry(cols[num], typesMap).Err?
    ensures Entries(cols, typesMap) == Err(ColumnEntry(cols[num], typesMap).error)
  {
    assert EntryResults(cols[..num], typesMap) == EntryResults(cols, typesMap)[..num];
    CollectStop(EntryResults(cols, typesMap), num);
  }

  lemma FkEntriesStop(ps: seq<(string, string)>, n: nat)
    requires n < |ps|
    requires FkEntries(ps[..n]).Ok? && FkEntry(ps[n]).Err?
    ensures FkEntries(ps) == Err(FkEntry(ps[n]).error)
  {
    assert FkResults(ps[..n]) == FkResults(ps)[..n];
    CollectStop(FkResults(ps), n);
  }

  /** The nested foreign-key loop of `extract_column_data`: fills `foreign_keys`. */
  method CollectForeignKeys(names: seq<string>, data: map<string, ColumnInfo>) returns (r: Result<Dict<(string, string)>>)
    requires forall k :: k in names ==> k in data
    ensures r.Ok? <==> FkEntries(FkPairs(names, data)).Ok?
    ensures r.Ok? ==> r.value == FromPairs(FkEntries(FkPairs(names, data)).value)
    ensures r.Err? ==> FkEntries(FkPairs(names, data)) == Err(r.error)
  {
    var foreignKeys: Dict<(string, string)> := Empty();
    ghost var fkEntries: seq<(string, (string, string))> := [];
    for i := 0 to |names|
      invariant FkEntries(FkPairs(names[..i], data)) == Ok(fkEntries)
      invariant foreignKeys == FromPairs(fkEntries)
    {
      var columnName := names[i];
      FkScanStep(names, data, i, fkEntries);
      var added := AddForeignKeys(columnName, data[columnName].foreignKeys, foreignKeys);
      if added.Err? {
        return Err(added.error);
      }
      foreignKeys := added.value;
      fkEntries := fkEntries + FkEntries(Tagged(columnName, data[columnName].foreignKeys)).value;
    }
    assert names[..|names|] == names;
    r := Ok(foreignKeys);
  }

  /** What the foreign keys of the column at `i` add to the outer loop, or the error that ends it. */
  lemma FkScanStep(names: seq<string>, data: map<string, ColumnInfo>, i: nat, fes: seq<(string, (string, string))>)
    requires i < |names| && (forall k :: k in names ==> k in data) && FkEntries(FkPairs(names[..i], data)) == Ok(fes)
    ensures var tagged := FkEntries(Tagged(names[i], data[names[i]].foreignKeys));
            && (tagged.Ok? ==>
                  && FkEntries(FkPairs(names[..i + 1], data)) == Ok(fes + tagged.value)
                  && FromPairs(fes + tagged.value) == PutAll(FromPairs(fes), tagged.value))
            && (tagged.Err? ==> FkEntries(FkPairs(names, data)) == Err(tagged.error))
  {
    var tagged := Tagged(names[i], data[names[i]].foreignKeys);
    FkPairsStep(names, data, i);
    FkEntriesConcat(FkPairs(names[..i], data), tagged);
    if FkEntries(tagged).Err? {
      FkPairsAppend(names[..i + 1], names[i + 1..], data);
      assert names[..i + 1] + names[i + 1..] == names;
      FkEntriesConcat(FkPairs(names[..i + 1], data), FkPairs(names[i + 1..], data));
    } else {
      FromPairsConcat(fes, FkEntries(tagged).value);
    }
  }

  /** The inner loop over one column's foreign keys. */
  method AddForeignKeys(columnName: string, specs: seq<string>, foreignKeys: Dict<(string, string)>)
    returns (r: Result<Dict<(string, string)>>)
    ensures r.Ok? <==> FkEntries(Tagged(columnName, specs)).Ok?
    ensures r.Ok? ==> r.value == PutAll(foreignKeys, FkEntries(Tagged(columnName, specs)).value)
    ensures r.Err? ==> FkEntries(Tagged(columnName, specs)) == Err(r.error)
  {
    var current := foreignKeys;
    ghost var added: seq<(string, (string, string))> := [];
    for j := 0 to |specs|
      invariant FkEntries(Tagged(columnName, specs[..j])) == Ok(added)
      invariant current == PutAll(foreignKeys, added)
    {
      var spec := specs[j];
      var second := SplitPart(spec, ".", 1);
      FkEntryCases((columnName, spec));
      TaggedPrefix(columnName, specs, j);
      if second.None? {
        FkEntriesStop(Tagged(columnName, specs), j);
        return Err(BadColspec(spec));
      }
      var table := SplitHead(spec, ".");
      TaggedStep(columnName, specs, j);
      FkEntriesStep(Tagged(columnName, specs[..j]), (columnName, spec), added, (table, (columnName, second.value)));
      PutAllStep(foreignKeys, added, table, (columnName, second.value));
      current := Put(current, table, (columnName, second.value));
      added := added + [(table, (columnName, second.value))];
    }
    assert specs[..|specs|] == specs;
    r := Ok(current);
  }

  /** Running the loop over `a + b` is running it over `a`, then over `b`. */
  lemma {:induction false} CollectConcat<T>(a: seq<Result<T>>, b: seq<Result<T>>)
    ensures Collect(a + b) ==
      match Collect(a)
      case Err(e) => Err(e)
      case Ok(va) =>
        match Collect(b)
        case Err(e) => Err(e)
        case Ok(vb) => Ok(va + vb)
  {
    if b == [] {
      assert a + b == a;
      if Collect(a).Ok? {
        assert Collect(a).value + [] == Collect(a).value;
      }
    } else {
      var n := |b| - 1;
      assert (a + b)[..|a + b| - 1] == a + b[..n];
      CollectConcat(a, b[..n]);
      if Collect(a).Ok? && Collect(b[..n]).Ok? && b[n].Ok? {
        assert Collect(a).value + Collect(b[..n]).value + [b[n].value] == Collect(a).value + (Collect(b[..n]).value + [b[n].value]);
      }
    }
  }

  lemma FkEntriesConcat(a: seq<(string, string)>, b: seq<(string, string)>)
    ensures FkEntries(a + b) ==
      match FkEntries(a)
      case Err(e) => Err(e)
      case Ok(va) =>
        match FkEntries(b)
        case Err(e) => Err(e)
        case Ok(vb) => Ok(va + vb)
  {
    assert FkResults(a + b) == FkResults(a) + FkResults(b);
    CollectConcat(FkResults(a), FkResults(b));
  }

  lemma FkEntryCases(p: (string, string))
    ensures SplitPart(p.1, ".", 1).None? ==> FkEntry(p) == Err(BadColspec(p.1))
    ensures SplitPart(p.1, ".", 1).Some? ==> FkEntry(p) == Ok((SplitHead(p.1, "."), (p.0, SplitPart(p.1, ".", 1).value)))
  {
  }

  lemma FkEntriesStep(ps: seq<(string, string)>, p: (string, string), es: seq<(string, (string, string))>, e: (string, (string, string)))
    requires FkEntries(ps) == Ok(es) && FkEntry(p) == Ok(e)
    ensures FkEntries(ps + [p]) == Ok(es + [e])
  {
    assert FkResults(ps + [p]) == FkResults(ps) + [FkEntry(p)];
    CollectStep(FkResults(ps), FkEntry(p), es, e);
  }
}
