/**
 * The metadata pass of the admin panel: `extract_models_metadata`, which
 * registers every model under its table name, annotates each with the
 * summary of its table, and drops the models that have no identity column.
 */
module ModelRegistry {
  import opened Wrappers
  import opened PyDict
  import opened ColumnMeta

  /** A model class as the pass sees it: the class (by name) and its `__tablename__`. */
  datatype DbModel = DbModel(className: string, tablename: string)

  /** A `cfg.models` entry: `{"model": model}`, updated with the table details once they are known. */
  datatype ModelEntry = ModelEntry(model: DbModel, details: Option<TableDetails>)

  /** The pairs of `{model.__tablename__: {"model": model} for model in db_models}`, in order. */
  function ModelPairs(ms: seq<DbModel>): (r: seq<(string, ModelEntry)>)
    ensures |r| == |ms| && forall i :: 0 <= i < |ms| ==> r[i] == (ms[i].tablename, ModelEntry(ms[i], None))
  {
    seq(|ms|, i requires 0 <= i < |ms| => (ms[i].tablename, ModelEntry(ms[i], None)))
  }

  function Tablenames(ms: seq<DbModel>): (r: seq<string>)
    ensures |r| == |ms| && forall i :: 0 <= i < |ms| ==> r[i] == ms[i].tablename
  {
    seq(|ms|, i requires 0 <= i < |ms| => ms[i].tablename)
  }

  /** `cfg.models` right after the dict comprehension. */
  function InitialModels(ms: seq<DbModel>): (d: Dict<ModelEntry>)
    ensures Valid(d)
  {
    FromPairs(ModelPairs(ms))
  }

  /**
   * `extract_column_data(model_id)`: the summary of the table that
   * `get_table_name` (the parameter `tableName`) names, or the KeyError of a
   * table the database does not have.
   */
  function DetailsFor(id: string, tables: map<string, seq<Column>>, tableName: string -> string, typesMap: map<string, PyType>): Result<TableDetails>
  {
    var name := tableName(id);
    if name in tables then ColumnSummary(tables[name], typesMap) else Err(MissingTable(name))
  }

  /** What `extract_column_data` gives for each of `keys`, in order. */
  function ExtractionResults(keys: seq<string>, tables: map<string, seq<Column>>, tableName: string -> string, typesMap: map<string, PyType>): (rs: seq<Result<TableDetails>>)
    ensures |rs| == |keys| && forall i :: 0 <= i < |keys| ==> rs[i] == DetailsFor(keys[i], tables, tableName, typesMap)
  {
    seq(|keys|, i requires 0 <= i < |keys| => DetailsFor(keys[i], tables, tableName, typesMap))
  }

  /** The state of the first loop: `cfg.models`, `models_to_remove`, and the exception that stopped it. */
  datatype Pass = Pass(models: Dict<ModelEntry>, toRemove: seq<string>, failure: Option<Error>)

  /**
   * The first loop after it has handled the first `n` keys of `cfg.models`,
   * where `rs[i]` is what `extract_column_data` gives for the key at `i`.
   */
  function Annotate(init: Dict<ModelEntry>, n: nat, rs: seq<Result<TableDetails>>): (p: Pass)
    requires Listed(init) && n <= |init.keys| == |rs|
    ensures p.models.keys == init.keys && p.models.items.Keys == init.items.Keys
  {
    if n == 0 then Pass(init, [], None)
    else
      var p := Annotate(init, n - 1, rs);
      if p.failure.Some? then p
      else Step(p, init.keys[n - 1], rs[n - 1])
  }

  /** What the lemmas about the first loop assume: distinct keys, each mapped, and one result per key. */
  ghost predicate Inputs(init: Dict<ModelEntry>, rs: seq<Result<TableDetails>>)
  {
    Listed(init) && Distinct(init.keys) && |init.keys| == |rs|
  }

  /** One pass of the first loop's body: the key `id`, whose table details (or exception) are `r`. */
  function Step(p: Pass, id: string, r: Result<TableDetails>): (q: Pass)
    requires id in p.models.items
    ensures q.models.keys == p.models.keys && q.models.items.Keys == p.models.items.Keys
  {
    match r
    case Err(e) => Pass(p.models, p.toRemove, Some(e))
    case Ok(d) =>
      if d.identity == [] then Pass(p.models, p.toRemove + [id], None)
      else Pass(Put(p.models, id, ModelEntry(p.models.items[id].model, Some(d))), p.toRemove, None)
  }

  /**
   * `cfg.models` when `extract_models_metadata(db, db_models)` returns or
   * raises, and the exception it raises, if any.
   */
  function MetadataPass(ms: seq<DbModel>, tables: map<string, seq<Column>>, tableName: string -> string, typesMap: map<string, PyType>): (Dict<ModelEntry>, Option<Error>)
  {
    var init := InitialModels(ms);
    Outcome(init, ExtractionResults(init.keys, tables, tableName, typesMap))
  }

  /** A registry to run the pass over, with one extraction result per registered key. */
  ghost predicate Ready(init: Dict<ModelEntry>, rs: seq<Result<TableDetails>>)
  {
    Valid(init) && |init.keys| == |rs|
  }

  /**
   * Both loops of the pass over the registry `init`, where `rs[i]` is what
   * `extract_column_data` gives for the key at `i`: `cfg.models` afterwards,
   * and the exception, if any.
   */
  function Outcome(init: Dict<ModelEntry>, rs: seq<Result<TableDetails>>): (Dict<ModelEntry>, Option<Error>)
    requires Ready(init, rs)
  {
    var p := Annotate(init, |rs|, rs);
    if p.failure.Some? then (p.models, p.failure)
    else
      RemovalsReady(init, rs);
      (RemoveAll(p.models, p.toRemove), None)
  }

  /** The global `cfg`: the registered models and the tables of `cfg.app.db`. */
  class AdminConfig {
    var models: Dict<ModelEntry>
    var tables: map<string, seq<Column>>

    constructor ()
      ensures models == Empty() && tables == map[]
    {
      models := Empty();
      tables := map[];
    }

    /**
     * `extract_models_metadata`: on return `cfg.models` and the exception
     * are those of `MetadataPass`; an exception leaves `cfg.models` as the
     * first loop had left it.
     */
    method ExtractModelsMetadata(db: map<string, seq<Column>>, dbModels: seq<DbModel>, tableName: string -> string, typesMap: map<string, PyType>)
      returns (failure: Option<Error>)
      modifies this
      ensures tables == db
      ensures (models, failure) == MetadataPass(dbModels, db, tableName, typesMap)
    {
      models := InitialModels(dbModels);
      tables := db;
      ghost var init := models;
      var toRemove;
      toRemove, failure := AnnotateModels(tableName, typesMap);
      if failure.None? {
        RemovalsReady(init, ExtractionResults(init.keys, db, tableName, typesMap));
        RemoveModels(toRemove);
      }
    }

    /**
     * The first loop of `extract_models_metadata`: every key of `cfg.models`
     * in order, until an extraction raises.
     */
    method AnnotateModels(tableName: string -> string, typesMap: map<string, PyType>) returns (toRemove: seq<string>, failure: Option<Error>)
      requires Listed(models) && Distinct(models.keys)
      modifies this
      ensures tables == old(tables)
      ensures Annotate(old(models), |old(models).keys|, ExtractionResults(old(models).keys, tables, tableName, typesMap)) == Pass(models, toRemove, failure)
    {
      ghost var init := models;
      var keys := models.keys;
      ghost var rs := ExtractionResults(keys, old(tables), tableName, typesMap);
      toRemove := [];
      var i := 0;
      while i < |keys|
        invariant i <= |keys|
        invariant keys == init.keys
        invariant |rs| == |keys|
        invariant Listed(init)
        invariant tables == old(tables)
        invariant Annotate(init, i, rs) == Pass(models, toRemove, None)
      {
        AnnotateNext(init, i, rs);
        toRemove, failure := AnnotateKey(rs, keys, i, toRemove, tableName, typesMap);
        if failure.Some? {
          AnnotateStops(init, i + 1, |keys|, rs);
          return;
        }
        i := i + 1;
      }
      failure := None;
    }

    /** The first loop's body for the key at position `i`. */
    method AnnotateKey(ghost rs: seq<Result<TableDetails>>, keys: seq<string>, i: nat, toRemove: seq<string>, tableName: string -> string, typesMap: map<string, PyType>)
      returns (toRemove': seq<string>, failure: Option<Error>)
      requires i < |keys| && keys[i] in models.items
      requires rs == ExtractionResults(keys, tables, tableName, typesMap)
      modifies this
      ensures tables == old(tables)
      ensures Pass(models, toRemove', failure) == Step(Pass(old(models), toRemove, None), keys[i], rs[i])
    {
      var r := DetailsOf(keys[i], tableName, typesMap);
      toRemove', failure := AnnotateOne(keys[i], r, toRemove);
    }

    /** The first loop's body for the key `id`, whose table details (or exception) are `r`. */
    method AnnotateOne(id: string, r: Result<TableDetails>, toRemove: seq<string>) returns (toRemove': seq<string>, failure: Option<Error>)
      requires id in models.items
      modifies this
      ensures tables == old(tables)
      ensures Pass(models, toRemove', failure) == Step(Pass(old(models), toRemove, None), id, r)
    {
      toRemove' := toRemove;
      failure := None;
      match r
      case Err(e) =>
        failure := Some(e);
      case Ok(d) =>
        if d.identity == [] {
          toRemove' := toRemove + [id];
        } else {
          models := Put(models, id, ModelEntry(models.items[id].model, Some(d)));
        }
    }

    /** `extract_column_data(model_id)` on the tables of `cfg.app.db`. */
    method DetailsOf(id: string, tableName: string -> string, typesMap: map<string, PyType>) returns (r: Result<TableDetails>)
      ensures r == DetailsFor(id, tables, tableName, typesMap)
    {
      var name := tableName(id);
      if name !in tables {
        return Err(MissingTable(name));
      }
      r := ExtractColumnData(tables[name], typesMap);
    }

    /** The second loop: `del cfg.models[model_id]` for each model to remove, in order. */
    method RemoveModels(toRemove: seq<string>)
      requires Valid(models)
      requires forall k :: k in toRemove ==> k in models.items
      requires Distinct(toRemove)
      modifies this
      ensures tables == old(tables)
      ensures models == RemoveAll(old(models), toRemove)
    {
      var j := 0;
      while j < |toRemove|
        invariant j <= |toRemove| && tables == old(tables)
        invariant models == RemoveAll(old(models), toRemove[..j])
      {
        RemoveAllStep(old(models), toRemove, j);
        models := Remove(models, toRemove[j]);
        j := j + 1;
      }
      assert toRemove[..j] == toRemove;
    }
  }

  /** Handling the key at `n` is one more `Step`. */
  lemma AnnotateNext(init: Dict<ModelEntry>, n: nat, rs: seq<Result<TableDetails>>)
    requires Listed(init) && n < |init.keys| == |rs|
    requires Annotate(init, n, rs).failure.None?
    ensures init.keys[n] in Annotate(init, n, rs).models.items
    ensures Annotate(init, n + 1, rs) == Step(Annotate(init, n, rs), init.keys[n], rs[n])
  {
  }

  /** Once the first loop has raised, the later keys change nothing. */
  lemma AnnotateStops(init: Dict<ModelEntry>, n: nat, m: nat, rs: seq<Result<TableDetails>>)
    requires Listed(init) && n <= m <= |init.keys| == |rs|
    requires Annotate(init, n, rs).failure.Some?
    ensures Annotate(init, m, rs) == Annotate(init, n, rs)
    decreases m
  {
    if n < m {
      AnnotateStops(init, n, m - 1, rs);
    }
  }

  lemma RemoveAllStep<V>(d: Dict<V>, ks: seq<string>, j: nat)
    requires Valid(d) && (forall k :: k in ks ==> k in d.items) && Distinct(ks) && j < |ks|
    ensures ks[j] in RemoveAll(d, ks[..j]).items
    ensures RemoveAll(d, ks[..j + 1]) == Remove(RemoveAll(d, ks[..j]), ks[j])
  {
    assert ks[j] !in ks[..j];
    assert ks[..j + 1][..j] == ks[..j];
  }

  /** What one pass of the loop body does to the state. */
  lemma StepFacts(p: Pass, id: string, r: Result<TableDetails>)
    requires id in p.models.items
    ensures var q := Step(p, id, r);
            && q.failure == (if r.Err? then Some(r.error) else None)
            && q.toRemove == (if r.Ok? && r.value.identity == [] then p.toRemove + [id] else p.toRemove)
            && (forall k :: k in p.models.items ==> k in q.models.items && q.models.items[k].model == p.models.items[k].model)
            && (forall k :: k in p.models.items && k != id ==> q.models.items[k] == p.models.items[k])
            && (r.Ok? && r.value.identity != [] ==> q.models.items[id].details == Some(r.value))
  {
  }

  // ---------------------------------------------------------------------
  // What the first loop leaves behind

  /** The first exception among the first `n` extraction results, if any. */
  function FirstError(rs: seq<Result<TableDetails>>, n: nat): (e: Option<Error>)
    requires n <= |rs|
    ensures e.None? <==> forall j :: 0 <= j < n ==> rs[j].Ok?
    ensures e.Some? ==> exists j :: 0 <= j < n && rs[j] == Err(e.value) && forall l :: 0 <= l < j ==> rs[l].Ok?
  {
    if n == 0 then None
    else if FirstError(rs, n - 1).Some? then FirstError(rs, n - 1)
    else if rs[n - 1].Err? then Some(rs[n - 1].error)
    else None
  }

  /** The first loop raises exactly the first exception among the extraction results. */
  lemma {:induction false} AnnotateFailure(init: Dict<ModelEntry>, n: nat, rs: seq<Result<TableDetails>>)
    requires Inputs(init, rs) && n <= |rs|
    ensures Annotate(init, n, rs).failure == FirstError(rs, n)
  {
    if n > 0 {
      AnnotateFailure(init, n - 1, rs);
      if Annotate(init, n - 1, rs).failure.None? {
        StepFacts(Annotate(init, n - 1, rs), init.keys[n - 1], rs[n - 1]);
      }
    }
  }

  /** Every entry of `d` keeps the model of `init`. */
  ghost predicate KeptModels(init: Dict<ModelEntry>, d: Dict<ModelEntry>)
  {
    forall k :: k in init.items ==> k in d.items && d.items[k].model == init.items[k].model
  }

  lemma KeptModelsStep(init: Dict<ModelEntry>, p: Pass, id: string, r: Result<TableDetails>)
    requires id in p.models.items
    requires KeptModels(init, p.models)
    ensures KeptModels(init, Step(p, id, r).models)
  {
    StepFacts(p, id, r);
  }

  /** Every entry keeps its model. */
  lemma {:induction false} AnnotateKeepsModels(init: Dict<ModelEntry>, n: nat, rs: seq<Result<TableDetails>>)
    requires Inputs(init, rs) && n <= |rs|
    ensures KeptModels(init, Annotate(init, n, rs).models)
  {
    if n > 0 {
      AnnotateKeepsModels(init, n - 1, rs);
      var p := Annotate(init, n - 1, rs);
      if p.failure.None? {
        KeptModelsStep(init, p, init.keys[n - 1], rs[n - 1]);
      }
    }
  }

  /** The keys from position `n` on have the entry they have in `init`. */
  ghost predicate Untouched(init: Dict<ModelEntry>, d: Dict<ModelEntry>, n: nat)
    requires Listed(init) && n <= |init.keys|
  {
    forall j :: n <= j < |init.keys| ==> init.keys[j] in d.items && d.items[init.keys[j]] == init.items[init.keys[j]]
  }

  lemma UntouchedStep(init: Dict<ModelEntry>, p: Pass, n: nat, r: Result<TableDetails>)
    requires Listed(init) && Distinct(init.keys) && n < |init.keys|
    requires Untouched(init, p.models, n)
    ensures init.keys[n] in p.models.items
    ensures Untouched(init, Step(p, init.keys[n], r).models, n + 1)
  {
    StepFacts(p, init.keys[n], r);
  }

  /** The keys the first loop has not reached keep their entry. */
  lemma {:induction false} AnnotateUntouched(init: Dict<ModelEntry>, n: nat, rs: seq<Result<TableDetails>>)
    requires Inputs(init, rs) && n <= |rs|
    ensures Untouched(init, Annotate(init, n, rs).models, n)
  {
    if n > 0 {
      AnnotateUntouched(init, n - 1, rs);
      var p := Annotate(init, n - 1, rs);
      if p.failure.None? {
        UntouchedStep(init, p, n - 1, rs[n - 1]);
      }
    }
  }

  /** The keys among the first `n` whose table has no identity column, in order. */
  function Removed(keys: seq<string>, rs: seq<Result<TableDetails>>, n: nat): (r: seq<string>)
    requires n <= |keys| == |rs|
    ensures |r| <= n
  {
    if n == 0 then []
    else Removed(keys, rs, n - 1) + (if rs[n - 1].Ok? && rs[n - 1].value.identity == [] then [keys[n - 1]] else [])
  }

  /**
   * Among distinct keys, `Removed` lists each key of an identity-less table
   * once, and nothing else.
   */
  lemma {:induction false} RemovedSpec(keys: seq<string>, rs: seq<Result<TableDetails>>, n: nat)
    requires n <= |keys| == |rs| && Distinct(keys)
    ensures Distinct(Removed(keys, rs, n))
    ensures forall k :: k in Removed(keys, rs, n) ==> k in keys[..n]
    ensures forall j :: 0 <= j < n ==> (keys[j] in Removed(keys, rs, n) <==> rs[j].Ok? && rs[j].value.identity == [])
  {
    if n > 0 {
      RemovedSpec(keys, rs, n - 1);
      var front := Removed(keys, rs, n - 1);
      assert keys[n - 1] !in keys[..n - 1];
      assert keys[n - 1] !in front;
      assert forall k :: k in keys[..n - 1] ==> k in keys[..n];
      forall j | 0 <= j < n - 1 ensures keys[j] != keys[n - 1] {
      }
    }
  }

  /** While nothing raises, the first loop's `models_to_remove` is `Removed`. */
  lemma {:induction false} AnnotateRemoved(init: Dict<ModelEntry>, n: nat, rs: seq<Result<TableDetails>>)
    requires Inputs(init, rs) && n <= |rs|
    requires forall j :: 0 <= j < n ==> rs[j].Ok?
    ensures Annotate(init, n, rs).failure.None?
    ensures Annotate(init, n, rs).toRemove == Removed(init.keys, rs, n)
  {
    if n > 0 {
      AnnotateRemoved(init, n - 1, rs);
      AnnotateNext(init, n - 1, rs);
      StepFacts(Annotate(init, n - 1, rs), init.keys[n - 1], rs[n - 1]);
    }
  }

  /** Each of the first `n` keys whose table has an identity carries its table details in `d`. */
  ghost predicate Detailed(init: Dict<ModelEntry>, d: Dict<ModelEntry>, n: nat, rs: seq<Result<TableDetails>>)
    requires n <= |init.keys| == |rs|
  {
    forall j :: 0 <= j < n && rs[j].Ok? && rs[j].value.identity != [] ==>
      init.keys[j] in d.items && d.items[init.keys[j]].details == Some(rs[j].value)
  }

  lemma DetailedStep(init: Dict<ModelEntry>, p: Pass, n: nat, rs: seq<Result<TableDetails>>)
    requires Listed(init) && Distinct(init.keys) && n < |init.keys| == |rs|
    requires init.keys[n] in p.models.items
    requires Detailed(init, p.models, n, rs)
    ensures Detailed(init, Step(p, init.keys[n], rs[n]).models, n + 1, rs)
  {
    StepFacts(p, init.keys[n], rs[n]);
  }

  /** While nothing raises, each handled key whose table has an identity carries its table details. */
  lemma {:induction false} AnnotateDetails(init: Dict<ModelEntry>, n: nat, rs: seq<Result<TableDetails>>)
    requires Inputs(init, rs) && n <= |rs|
    requires forall j :: 0 <= j < n ==> rs[j].Ok?
    ensures Detailed(init, Annotate(init, n, rs).models, n, rs)
  {
    if n > 0 {
      AnnotateDetails(init, n - 1, rs);
      AnnotateRemoved(init, n - 1, rs);
      AnnotateNext(init, n - 1, rs);
      DetailedStep(init, Annotate(init, n - 1, rs), n - 1, rs);
    }
  }

  /** After a first loop that raised nothing, the second loop's deletions are all allowed. */
  lemma RemovalsReady(init: Dict<ModelEntry>, rs: seq<Result<TableDetails>>)
    requires Ready(init, rs) && Annotate(init, |rs|, rs).failure.None?
    ensures var p := Annotate(init, |rs|, rs);
            && Valid(p.models)
            && (forall k :: k in p.toRemove ==> k in p.models.items)
            && Distinct(p.toRemove)
  {
    assert Annotate(init, |rs|, rs).toRemove == Removed(init.keys, rs, |rs|) by {
      AnnotateFailure(init, |rs|, rs);
      AnnotateRemoved(init, |rs|, rs);
    }
    RemovedSpec(init.keys, rs, |rs|);
    assert init.keys[..|rs|] == init.keys;
  }

  // ---------------------------------------------------------------------
  // What `extract_models_metadata` leaves in `cfg.models`

  /**
   * The dict comprehension registers each table name once, in the order of
   * its first model, under the last model that names it.
   */
  lemma InitialModelsSpec(ms: seq<DbModel>)
    ensures var d := InitialModels(ms);
            && (forall k :: k in d.items <==> k in Tablenames(ms))
            && InOrderWithin(d.keys, Tablenames(ms))
            && (forall i :: 0 <= i < |ms| && (forall j :: i < j < |ms| ==> ms[j].tablename != ms[i].tablename) ==>
                  ms[i].tablename in d.items && d.items[ms[i].tablename] == ModelEntry(ms[i], None))
  {
    var kvs := ModelPairs(ms);
    assert KeysOf(kvs) == Tablenames(ms);
    FromPairsDomain(kvs);
    FromPairsOrder(kvs);
    forall i | 0 <= i < |ms| && (forall j :: i < j < |ms| ==> ms[j].tablename != ms[i].tablename)
      ensures ms[i].tablename in InitialModels(ms).items && InitialModels(ms).items[ms[i].tablename] == ModelEntry(ms[i], None)
    {
      FromPairsLastWinsAt(kvs, i);
    }
  }

  /**
   * The pass raises exactly when extracting the table of some registered
   * model raises, and then with the exception of the first such model.
   */
  lemma OutcomeFailure(init: Dict<ModelEntry>, rs: seq<Result<TableDetails>>)
    requires Ready(init, rs)
    ensures var out := Outcome(init, rs);
            && (out.1.None? <==> forall j :: 0 <= j < |rs| ==> rs[j].Ok?)
            && (out.1.Some? ==> exists j :: 0 <= j < |rs| && rs[j] == Err(out.1.value) && forall l :: 0 <= l < j ==> rs[l].Ok?)
  {
    AnnotateFailure(init, |rs|, rs);
  }

  /**
   * When the pass raises, `cfg.models` still lists every table name with its
   * model, no model from the first one whose extraction raised onwards has
   * been annotated, and every model before it whose table has an identity
   * already carries its table details.
   */
  lemma OutcomeFailureState(init: Dict<ModelEntry>, rs: seq<Result<TableDetails>>)
    requires Ready(init, rs)
    ensures var out := Outcome(init, rs);
            out.1.Some? ==>
              && out.0.keys == init.keys
              && (forall k :: k in init.items ==> k in out.0.items && out.0.items[k].model == init.items[k].model)
              && (forall j, l :: 0 <= j < l < |rs| && rs[j].Err? ==>
                   init.keys[l] in out.0.items && out.0.items[init.keys[l]] == init.items[init.keys[l]])
              && forall j :: 0 <= j < |rs| && rs[j].Err? && (forall l :: 0 <= l < j ==> rs[l].Ok?) ==>
                   Detailed(init, out.0, j, rs) && Untouched(init, out.0, j)
  {
    var p := Annotate(init, |rs|, rs);
    if p.failure.Some? {
      assert Outcome(init, rs) == (p.models, p.failure);
      FailureState(init, rs);
    }
  }

  /** `OutcomeFailureState` for the first loop alone. */
  lemma FailureState(init: Dict<ModelEntry>, rs: seq<Result<TableDetails>>)
    requires Inputs(init, rs) && Annotate(init, |rs|, rs).failure.Some?
    ensures var d := Annotate(init, |rs|, rs).models;
            && d.keys == init.keys
            && KeptModels(init, d)
            && (forall j, l :: 0 <= j < l < |rs| && rs[j].Err? ==>
                 init.keys[l] in d.items && d.items[init.keys[l]] == init.items[init.keys[l]])
            && forall j :: 0 <= j < |rs| && rs[j].Err? && (forall l :: 0 <= l < j ==> rs[l].Ok?) ==>
                 Detailed(init, d, j, rs) && Untouched(init, d, j)
  {
    var d := Annotate(init, |rs|, rs).models;
    assert KeptModels(init, d) by {
      AnnotateKeepsModels(init, |rs|, rs);
    }
    assert exists j0 :: 0 <= j0 < |rs| && rs[j0].Err? && forall l :: 0 <= l < j0 ==> rs[l].Ok? by {
      AnnotateFailure(init, |rs|, rs);
    }
    var j0 :| 0 <= j0 < |rs| && rs[j0].Err? && forall l :: 0 <= l < j0 ==> rs[l].Ok?;
    assert Untouched(init, d, j0) && Detailed(init, d, j0, rs) by {
      FailureAt(init, rs, j0);
    }
    forall j, l | 0 <= j < l < |rs| && rs[j].Err?
      ensures init.keys[l] in d.items && d.items[init.keys[l]] == init.items[init.keys[l]]
    {
      assert j0 <= j;
    }
    forall j | 0 <= j < |rs| && rs[j].Err? && (forall l :: 0 <= l < j ==> rs[l].Ok?)
      ensures Detailed(init, d, j, rs) && Untouched(init, d, j)
    {
      assert j == j0;
    }
  }



  /**
   * When the key at `j` is the first to raise, it and the keys after it keep
   * their entry, and the keys before it with an identity carry their details.
   */
  lemma FailureAt(init: Dict<ModelEntry>, rs: seq<Result<TableDetails>>, j: nat)
    requires Inputs(init, rs) && j < |rs|
    requires rs[j].Err? && forall l :: 0 <= l < j ==> rs[l].Ok?
    ensures Untouched(init, Annotate(init, |init.keys|, rs).models, j)
    ensures Detailed(init, Annotate(init, |init.keys|, rs).models, j, rs)
  {
    assert Annotate(init, |init.keys|, rs).models == Annotate(init, j, rs).models by {
      StoppedAt(init, rs, j);
    }
    AnnotateDetails(init, j, rs);
    AnnotateUntouched(init, j, rs);
  }

  /** The first loop stops at the first key whose extraction raises, leaving `cfg.models` as it was before that key. */
  lemma StoppedAt(init: Dict<ModelEntry>, rs: seq<Result<TableDetails>>, j: nat)
    requires Inputs(init, rs) && j < |rs|
    requires rs[j].Err? && forall l :: 0 <= l < j ==> rs[l].Ok?
    ensures Annotate(init, |init.keys|, rs).models == Annotate(init, j, rs).models
  {
    var p, q := Annotate(init, j, rs), Annotate(init, j + 1, rs);
    assert q.failure.Some? && q.models == p.models by {
      AnnotateFailure(init, j, rs);
      AnnotateNext(init, j, rs);
    }
    StoppedModels(init, j + 1, rs);
  }

  /** Once the first loop has raised, `cfg.models` stays as it is up to the end of the loop. */
  lemma StoppedModels(init: Dict<ModelEntry>, n: nat, rs: seq<Result<TableDetails>>)
    requires Listed(init) && n <= |init.keys| == |rs|
    requires Annotate(init, n, rs).failure.Some?
    ensures Annotate(init, |init.keys|, rs).models == Annotate(init, n, rs).models
  {
    AnnotateStops(init, n, |init.keys|, rs);
  }

  /** A pass over the registered models in which no extraction raises. */
  ghost predicate Clean(init: Dict<ModelEntry>, rs: seq<Result<TableDetails>>)
  {
    Valid(init) && |init.keys| == |rs| && forall j :: 0 <= j < |rs| ==> rs[j].Ok?
  }

  /**
   * When every extraction succeeds, the pass raises nothing, and
   * `cfg.models` keeps, in their order, exactly the models whose table has
   * an identity, each with its model and its table details.
   */
  lemma OutcomeSuccess(init: Dict<ModelEntry>, rs: seq<Result<TableDetails>>)
    requires Clean(init, rs)
    ensures var out := Outcome(init, rs);
            && out.1 == None
            && Valid(out.0)
            && InOrderWithin(out.0.keys, init.keys)
            && (forall j :: 0 <= j < |rs| ==> (init.keys[j] in out.0.items <==> rs[j].value.identity != []))
            && (forall j :: 0 <= j < |rs| && init.keys[j] in out.0.items ==>
                  out.0.items[init.keys[j]] == ModelEntry(init.items[init.keys[j]].model, Some(rs[j].value)))
  {
    SuccessFirstLoop(init, rs);
    RemovalsReady(init, rs);
  }

  /** The first loop when nothing raises: what it annotates and what it marks for removal. */
  lemma SuccessFirstLoop(init: Dict<ModelEntry>, rs: seq<Result<TableDetails>>)
    requires Inputs(init, rs) && forall j :: 0 <= j < |rs| ==> rs[j].Ok?
    ensures var p := Annotate(init, |rs|, rs);
            && p.failure.None?
            && (forall j :: 0 <= j < |rs| ==> (init.keys[j] in p.toRemove <==> rs[j].value.identity == []))
            && KeptModels(init, p.models)
            && Detailed(init, p.models, |rs|, rs)
  {
    AnnotateRemoved(init, |rs|, rs);
    RemovedSpec(init.keys, rs, |rs|);
    AnnotateKeepsModels(init, |rs|, rs);
    AnnotateDetails(init, |rs|, rs);
  }
}
