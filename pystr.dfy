/**
 * The few operations on Python `str` that the metadata extraction relies on:
 * the substring test `sub in s`, `s.split(sep)[k]` and `int(s)`.
 */
module PyStr {
  import opened Wrappers

  /** `sub` occurs in `s` starting at position `i`. */
  predicate OccursAt(s: string, sub: string, i: nat)
  {
    i + |sub| <= |s| && s[i..i + |sub|] == sub
  }

  /** The first position at or after `start` where `sub` occurs in `s`. */
  function FindFrom(s: string, sub: string, start: nat): (r: Option<nat>)
    requires start <= |s|
    ensures r.Some? ==> start <= r.value && OccursAt(s, sub, r.value)
    ensures forall i :: start <= i <= |s| && (r.None? || i < r.value) ==> !OccursAt(s, sub, i)
    decreases |s| - start
  {
    if OccursAt(s, sub, start) then Some(start)
    else if start == |s| then None
    else FindFrom(s, sub, start + 1)
  }

  /** Python's `s.find(sub)`: the first position where `sub` occurs, or None for -1. */
  function Find(s: string, sub: string): (r: Option<nat>)
    ensures r.Some? ==> OccursAt(s, sub, r.value)
    ensures forall i :: 0 <= i <= |s| && (r.None? || i < r.value) ==> !OccursAt(s, sub, i)
  {
    FindFrom(s, sub, 0)
  }

  /** For a one-character `sub`, occurring at `i` is having that character at `i`. */
  lemma OccursAtChar(s: string, c: char, i: nat)
    ensures OccursAt(s, [c], i) <==> i < |s| && s[i] == c
  {
    if i < |s| {
      assert s[i..i + 1] == [s[i]];
    }
  }

  /** Python's `sub in s`. */
  predicate Contains(s: string, sub: string)
  {
    Find(s, sub).Some?
  }

  /**
   * Python's `s.split(sep)[k]`; None where that index raises IndexError.
   * An empty separator raises ValueError in Python and is excluded here.
   */
  function SplitPart(s: string, sep: string, k: nat): (r: Option<string>)
    requires sep != []
    decreases k
  {
    match Find(s, sep)
    case None => if k == 0 then Some(s) else None
    case Some(p) => if k == 0 then Some(s[..p]) else SplitPart(s[p + |sep|..], sep, k - 1)
  }

  /** Python's `s.split(sep)[0]`, which always exists: the text before the first `sep`. */
  function SplitHead(s: string, sep: string): (r: string)
    requires sep != []
    ensures |r| <= |s| && r == s[..|r|]
    ensures forall i :: 0 <= i < |r| ==> !OccursAt(s, sep, i)
    ensures |r| == |s| || OccursAt(s, sep, |r|)
  {
    SplitPart(s, sep, 0).value
  }

  /** `s.split(sep)[0]` ends where `s.find(sep)` finds the separator. */
  lemma SplitHeadAtFind(s: string, sep: string)
    requires sep != []
    ensures Find(s, sep).None? ==> SplitHead(s, sep) == s
    ensures Find(s, sep).Some? ==> SplitHead(s, sep) == s[..Find(s, sep).value]
  {
  }

  /** The first occurrence of a single character is the first position holding it. */
  lemma FindChar(s: string, c: char, i: nat)
    requires i < |s| && s[i] == c && c !in s[..i]
    ensures Find(s, [c]) == Some(i)
  {
    OccursAtChar(s, c, i);
    forall j | 0 <= j < i ensures !OccursAt(s, [c], j) {
      OccursAtChar(s, c, j);
      assert s[j] == s[..i][j];
    }
  }

  /** `len(s.split(sep)) > 1` exactly when `sep in s`. */
  lemma {:induction false} SplitHasSecondPart(s: string, sep: string)
    requires sep != []
    ensures SplitPart(s, sep, 1).Some? <==> Contains(s, sep)
    ensures Contains(s, sep) ==> SplitPart(s, sep, 1) == Some(SplitHead(s[Find(s, sep).value + |sep|..], sep))
  {
  }

  // ---------------------------------------------------------------------
  // int(s) for base 10

  /**
   * The characters `int()` strips: those Python's `str.isspace()` accepts,
   * except the separators U+001C..U+001F, which are below U+007F but are not
   * ASCII whitespace.
   */
  predicate IsSpace(c: char)
  {
    || c == ' '
    || '\t' <= c <= '\r'            // tab, line feed, vertical tab, form feed, carriage return
    || c == '\U{85}' || c == '\U{A0}' || c == '\U{1680}'
    || '\U{2000}' <= c <= '\U{200A}'
    || c == '\U{2028}' || c == '\U{2029}' || c == '\U{202F}' || c == '\U{205F}' || c == '\U{3000}'
  }

  predicate IsDigit(c: char)
  {
    '0' <= c <= '9'
  }

  function StripLeft(s: string): (r: string)
    ensures |r| <= |s| && r == s[|s| - |r|..]
    ensures r == [] || !IsSpace(r[0])
  {
    if s != [] && IsSpace(s[0]) then StripLeft(s[1..]) else s
  }

  function StripRight(s: string): (r: string)
    ensures |r| <= |s| && r == s[..|r|]
    ensures r == [] || !IsSpace(r[|r| - 1])
  {
    if s != [] && IsSpace(s[|s| - 1]) then StripRight(s[..|s| - 1]) else s
  }

  /** Python's `s.strip()`. */
  function Strip(s: string): string
  {
    StripRight(StripLeft(s))
  }

  /**
   * The digit part of an integer literal as `int()` reads it: digits, where a
   * single `_` may stand between two digits.
   */
  predicate WellFormedDigits(t: string)
  {
    && t != []
    && IsDigit(t[0])
    && IsDigit(t[|t| - 1])
    && (forall i :: 0 <= i < |t| ==> IsDigit(t[i]) || t[i] == '_')
    && (forall i :: 0 <= i < |t| - 1 && t[i] == '_' ==> t[i + 1] != '_')
  }

  function WithoutUnderscores(t: string): (r: string)
  {
    if t == [] then []
    else (if t[0] == '_' then [] else [t[0]]) + WithoutUnderscores(t[1..])
  }

  function DigitValue(c: char): nat
    requires IsDigit(c)
  {
    (c - '0') as nat
  }

  /** The value of a string of decimal digits, most significant first. */
  function DigitsValue(d: string): nat
    requires forall i :: 0 <= i < |d| ==> IsDigit(d[i])
  {
    if d == [] then 0 else DigitsValue(d[..|d| - 1]) * 10 + DigitValue(d[|d| - 1])
  }

  lemma {:induction false} WithoutUnderscoresDigits(t: string)
    requires forall i :: 0 <= i < |t| ==> IsDigit(t[i]) || t[i] == '_'
    ensures forall i :: 0 <= i < |WithoutUnderscores(t)| ==> IsDigit(WithoutUnderscores(t)[i])
  {
    if t != [] {
      WithoutUnderscoresDigits(t[1..]);
    }
  }

  function ParseUnsigned(t: string): Option<nat>
  {
    if WellFormedDigits(t) then
      WithoutUnderscoresDigits(t);
      Some(DigitsValue(WithoutUnderscores(t)))
    else None
  }

  /** Python's `int(s)`; None where it raises ValueError. */
  function ParseInt(s: string): Option<int>
  {
    ParseLiteral(Strip(s))
  }

  /** An optional sign followed by the digit part. */
  function ParseLiteral(t: string): Option<int>
  {
    if t != [] && (t[0] == '+' || t[0] == '-') then
      match ParseUnsigned(t[1..])
      case None => None
      case Some(n) => Some(if t[0] == '-' then -(n as int) else n as int)
    else
      ParseUnsigned(t)
  }

  // ---------------------------------------------------------------------
  // str(n), the partner of int(s)

  function DigitChar(d: nat): (c: char)
    requires d < 10
    ensures IsDigit(c) && DigitValue(c) == d
  {
    ('0' as int + d) as char
  }

  function NatToDecimal(n: nat): (r: string)
    ensures r != [] && forall i :: 0 <= i < |r| ==> IsDigit(r[i])
  {
    if n < 10 then [DigitChar(n)] else NatToDecimal(n / 10) + [DigitChar(n % 10)]
  }

  /** Python's `str(n)` for an integer. */
  function IntToDecimal(n: int): string
  {
    if n < 0 then "-" + NatToDecimal(-n) else NatToDecimal(n)
  }

  lemma {:induction false} DigitsValueOfDecimal(n: nat)
    ensures DigitsValue(NatToDecimal(n)) == n
  {
    var r := NatToDecimal(n);
    if n >= 10 {
      DigitsValueOfDecimal(n / 10);
      assert r[..|r| - 1] == NatToDecimal(n / 10);
    }
  }

  lemma {:induction false} WithoutUnderscoresOfDigits(t: string)
    requires forall i :: 0 <= i < |t| ==> IsDigit(t[i])
    ensures WithoutUnderscores(t) == t
  {
    if t != [] {
      WithoutUnderscoresOfDigits(t[1..]);
    }
  }

  lemma ParseUnsignedOfDecimal(n: nat)
    ensures ParseUnsigned(NatToDecimal(n)) == Some(n)
  {
    var r := NatToDecimal(n);
    WithoutUnderscoresOfDigits(r);
    DigitsValueOfDecimal(n);
  }

  /** `int(str(n)) == n` for every integer `n`. */
  lemma {:induction false} ParseIntRoundTrip(n: int)
    ensures ParseInt(IntToDecimal(n)) == Some(n)
  {
    StripDecimal(n);
    ParseLiteralOfDecimal(n);
  }

  lemma {:induction false} ParseLiteralOfDecimal(n: int)
    ensures ParseLiteral(IntToDecimal(n)) == Some(n)
  {
    var s := IntToDecimal(n);
    if n < 0 {
      assert s[1..] == NatToDecimal(-n);
      ParseUnsignedOfDecimal(-n);
    } else {
      ParseUnsignedOfDecimal(n);
    }
  }

  /** `str(n)` has no surrounding whitespace. */
  lemma {:induction false} StripDecimal(n: int)
    ensures Strip(IntToDecimal(n)) == IntToDecimal(n)
  {
    var s := IntToDecimal(n);
    assert !IsSpace(s[0]) && !IsSpace(s[|s| - 1]);
    assert StripLeft(s) == s;
    assert StripRight(s) == s;
  }

  /** `int()` ignores whitespace around the literal. */
  lemma ParseIntIgnoresPadding(s: string, c: char)
    requires IsSpace(c)
    ensures ParseInt([c] + s) == ParseInt(s) && ParseInt(s + [c]) == ParseInt(s)
  {
    assert ([c] + s)[1..] == s;
    assert Strip([c] + s) == Strip(s);
    StripAppendSpace(s, c);
    SameStripSameInt([c] + s, s);
    SameStripSameInt(s + [c], s);
  }

  lemma SameStripSameInt(x: string, y: string)
    requires Strip(x) == Strip(y)
    ensures ParseInt(x) == ParseInt(y)
  {
  }

  lemma StripAppendSpace(s: string, c: char)
    requires IsSpace(c)
    ensures Strip(s + [c]) == Strip(s)
  {
    StripLeftAppend(s, c);
    if StripLeft(s) != [] {
      assert (StripLeft(s) + [c])[..|StripLeft(s)|] == StripLeft(s);
    }
  }

  lemma StripLeftAppend(s: string, c: char)
    requires IsSpace(c)
    ensures StripLeft(s + [c]) == if StripLeft(s) == [] then [] else StripLeft(s) + [c]
  {
    StripLeftConcat(s, [c]);
    StripLeftSpace(c);
  }

  lemma StripLeftSpace(c: char)
    requires IsSpace(c)
    ensures StripLeft([c]) == []
  {
    var t := [c];
    assert t[0] == c && t[1..] == [];
  }

  lemma {:induction false} StripLeftConcat(a: string, b: string)
    ensures StripLeft(a + b) == if StripLeft(a) == [] then StripLeft(b) else StripLeft(a) + b
  {
    if a == [] {
      assert a + b == b;
    } else if IsSpace(a[0]) {
      assert (a + b)[1..] == a[1..] + b;
      StripLeftConcat(a[1..], b);
    } else {
      assert (a + b)[0] == a[0];
    }
  }


  /**
   * A leading character that is neither whitespace, a sign nor a digit makes
   * `int()` raise; U+001C..U+001F are such characters.
   */
  lemma ParseIntRejectsLeadingJunk(s: string, c: char)
    requires !IsSpace(c) && !IsDigit(c) && c != '+' && c != '-'
    ensures ParseInt([c] + s) == None
  {
    assert StripLeft([c] + s) == [c] + s;
    StripRightKeepsHead([c] + s);
  }

  lemma {:induction false} StripRightKeepsHead(t: string)
    requires t != [] && !IsSpace(t[0])
    ensures StripRight(t) != [] && StripRight(t)[0] == t[0]
  {
    if |t| > 1 && IsSpace(t[|t| - 1]) {
      StripRightKeepsHead(t[..|t| - 1]);
    }
  }

  lemma SeparatorNotStripped()
    ensures ParseInt("\U{1C}5") == None
  {
    ParseIntRejectsLeadingJunk("5", '\U{1C}');
    assert "\U{1C}5" == ['\U{1C}'] + "5";
  }
}
