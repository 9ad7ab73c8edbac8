/**
 * Python's insertion-ordered `dict` with string keys: the order in which keys
 * were first inserted, and the current value of each key.
 */
module PyDict {

  datatype Dict<V> = Dict(keys: seq<string>, items: map<string, V>)

  /** No key is listed twice, and the listed keys are exactly the mapped ones. */
  ghost predicate Valid<V>(d: Dict<V>)
  {
    && Distinct(d.keys)
    && (forall k :: k in d.items <==> k in d.keys)
  }

  /** Every listed key is mapped: the half of `Valid` that lookups by position need. */
  ghost predicate Listed<V>(d: Dict<V>)
  {
    forall i :: 0 <= i < |d.keys| ==> d.keys[i] in d.items
  }

  function Empty<V>(): (d: Dict<V>)
    ensures Valid(d) && d.items == map[]
  {
    Dict([], map[])
  }

  /** `d[k] = v`: a new key goes last, an existing key keeps its place and gets the new value. */
  function Put<V>(d: Dict<V>, k: string, v: V): (r: Dict<V>)
    ensures Valid(d) ==> Valid(r)
    ensures r.items.Keys == d.items.Keys + {k}
    ensures IsPrefix(d.keys, r.keys)
  {
    Dict(if k in d.items then d.keys else d.keys + [k], d.items[k := v])
  }

  /** After `d[k] = v`, `k` maps to `v` and every other key keeps its value; a new key is appended to the order. */
  lemma PutSpec<V>(d: Dict<V>, k: string, v: V)
    ensures var r := Put(d, k, v);
            && k in r.items && r.items[k] == v
            && (forall x :: x in d.items && x != k ==> x in r.items && r.items[x] == d.items[x])
            && (k in d.items ==> r.keys == d.keys)
            && (k !in d.items ==> r.keys == d.keys + [k])
  {
  }

  /** `del d[k]`, which raises KeyError for a missing key; the other keys keep their order. */
  function Remove<V>(d: Dict<V>, k: string): (r: Dict<V>)
    requires Valid(d) && k in d.items
    ensures Valid(r)
    ensures r.items.Keys == d.items.Keys - {k}
    ensures forall x :: x in r.items ==> r.items[x] == d.items[x]
    ensures InOrderWithin(r.keys, d.keys)
  {
    Dict(Without(d.keys, k), d.items - {k})
  }

  /** `ks` lists distinct keys of a well-formed `d`. */
  ghost predicate Removable<V>(d: Dict<V>, ks: seq<string>)
  {
    Valid(d) && (forall k :: k in ks ==> k in d.items) && Distinct(ks)
  }

  /** Deletes each key of `ks` in turn. */
  function RemoveAll<V>(d: Dict<V>, ks: seq<string>): (r: Dict<V>)
    requires Removable(d, ks)
    ensures Valid(r)
    ensures forall x :: x in r.items <==> x in d.items && x !in ks
    ensures forall x :: x in r.items ==> r.items[x] == d.items[x]
    ensures InOrderWithin(r.keys, d.keys)
  {
    if ks == [] then
      InOrderWithinReflexive(d.keys);
      d
    else
      var front := RemoveAll(d, ks[..|ks| - 1]);
      assert ks[|ks| - 1] !in ks[..|ks| - 1];
      var r := Remove(front, ks[|ks| - 1]);
      InOrderWithinTransitive(r.keys, front.keys, d.keys);
      r
  }

  /** Inserts the pairs one after another into an empty dict, as a loop of `d[k] = v` does. */
  function FromPairs<V>(kvs: seq<(string, V)>): (d: Dict<V>)
    ensures Valid(d)
  {
    if kvs == [] then Empty()
    else Put(FromPairs(kvs[..|kvs| - 1]), kvs[|kvs| - 1].0, kvs[|kvs| - 1].1)
  }

  /** `d[k] = v` for each pair in turn. */
  function PutAll<V>(d: Dict<V>, kvs: seq<(string, V)>): (r: Dict<V>)
    ensures Valid(d) ==> Valid(r)
  {
    if kvs == [] then d
    else Put(PutAll(d, kvs[..|kvs| - 1]), kvs[|kvs| - 1].0, kvs[|kvs| - 1].1)
  }

  /** Filling a dict with `a + b` is filling it with `a` and then putting the pairs of `b`. */
  lemma {:induction false} FromPairsConcat<V>(a: seq<(string, V)>, b: seq<(string, V)>)
    ensures FromPairs(a + b) == PutAll(FromPairs(a), b)
  {
    if b == [] {
      assert a + b == a;
    } else {
      var n := |b| - 1;
      assert (a + b)[..|a + b| - 1] == a + b[..n];
      FromPairsConcat(a, b[..n]);
    }
  }

  /** Filling a dict with one more pair is one more `d[k] = v`. */
  lemma FromPairsStep<V>(kvs: seq<(string, V)>, k: string, v: V)
    ensures FromPairs(kvs + [(k, v)]) == Put(FromPairs(kvs), k, v)
  {
    assert (kvs + [(k, v)])[..|kvs|] == kvs;
  }

  lemma PutAllStep<V>(d: Dict<V>, kvs: seq<(string, V)>, k: string, v: V)
    ensures PutAll(d, kvs + [(k, v)]) == Put(PutAll(d, kvs), k, v)
  {
    assert (kvs + [(k, v)])[..|kvs|] == kvs;
  }

  // ---------------------------------------------------------------------
  // Sequences

  predicate IsPrefix<T(==)>(a: seq<T>, b: seq<T>)
  {
    |a| <= |b| && a == b[..|a|]
  }

  /**
   * Every element of `a` occurs in `b`, and `a` lists them in the order of
   * their first occurrence in `b`; for a duplicate-free `a` this says that `a`
   * is `b` with some elements left out.
   */
  ghost predicate InOrderWithin(a: seq<string>, b: seq<string>)
  {
    && (forall x :: x in a ==> x in b)
    && forall p, q :: 0 <= p < q < |a| ==> FirstIndex(b, a[p]) < FirstIndex(b, a[q])
  }

  ghost predicate Distinct(s: seq<string>)
  {
    forall i, j :: 0 <= i < j < |s| ==> s[i] != s[j]
  }

  function Without(s: seq<string>, k: string): (r: seq<string>)
    ensures forall x :: x in r <==> x in s && x != k
    ensures Distinct(s) ==> Distinct(r) && InOrderWithin(r, s)
  {
    if s == [] then []
    else if s[0] == k then
      var r := Without(s[1..], k);
      assert Distinct(s) ==> InOrderWithin(r, s) by {
        if Distinct(s) {
          InOrderWithinTail(r, s);
        }
      }
      r
    else
      var t := Without(s[1..], k);
      assert Distinct(s) ==> Distinct([s[0]] + t) && InOrderWithin([s[0]] + t, s) by {
        if Distinct(s) {
          InOrderCons(t, s);
        }
      }
      [s[0]] + t
  }

  /** Dropping the head of a list of distinct keys keeps the order of what follows. */
  lemma InOrderWithinTail(a: seq<string>, names: seq<string>)
    requires names != [] && Distinct(names) && InOrderWithin(a, names[1..])
    ensures InOrderWithin(a, names)
  {
    forall x | x in a ensures FirstIndex(names, x) == 1 + FirstIndex(names[1..], x) {
      FirstIndexTail(names, x);
    }
  }

  /** Putting the head back in front keeps the order. */
  lemma InOrderCons(a: seq<string>, names: seq<string>)
    requires names != [] && Distinct(names) && Distinct(a) && InOrderWithin(a, names[1..])
    ensures Distinct([names[0]] + a) && InOrderWithin([names[0]] + a, names)
  {
    InOrderWithinTail(a, names);
    var r := [names[0]] + a;
    assert forall x :: x in a ==> x in names[1..];
    forall p, q | 0 <= p < q < |r| ensures FirstIndex(names, r[p]) < FirstIndex(names, r[q]) {
      assert r[q] == a[q - 1];
      FirstIndexTail(names, a[q - 1]);
      if p > 0 {
        assert r[p] == a[p - 1];
      }
    }
  }

  lemma InOrderWithinReflexive(s: seq<string>)
    requires Distinct(s)
    ensures InOrderWithin(s, s)
  {
    forall p, q | 0 <= p < q < |s| ensures FirstIndex(s, s[p]) < FirstIndex(s, s[q]) {
      assert FirstIndex(s, s[p]) == p && FirstIndex(s, s[q]) == q;
    }
  }

  lemma FirstIndexTail(s: seq<string>, x: string)
    requires s != [] && Distinct(s) && x in s[1..]
    ensures FirstIndex(s, x) == 1 + FirstIndex(s[1..], x)
  {
  }

  lemma InOrderWithinTransitive(a: seq<string>, b: seq<string>, c: seq<string>)
    requires InOrderWithin(a, b) && InOrderWithin(b, c)
    ensures InOrderWithin(a, c)
  {
    forall p, q | 0 <= p < q < |a| ensures FirstIndex(c, a[p]) < FirstIndex(c, a[q]) {
      var p', q' := FirstIndex(b, a[p]), FirstIndex(b, a[q]);
      assert b[p'] == a[p] && b[q'] == a[q];
    }
  }

  /** The keys of a sequence of pairs, in order. */
  function KeysOf<V>(kvs: seq<(string, V)>): (ks: seq<string>)
    ensures |ks| == |kvs| && forall i :: 0 <= i < |kvs| ==> ks[i] == kvs[i].0
  {
    seq(|kvs|, i requires 0 <= i < |kvs| => kvs[i].0)
  }

  /** The position of the first occurrence of `x` in `s`. */
  function FirstIndex(s: seq<string>, x: string): (i: nat)
    requires x in s
    ensures i < |s| && s[i] == x && forall j :: 0 <= j < i ==> s[j] != x
  {
    if s[0] == x then 0 else 1 + FirstIndex(s[1..], x)
  }

  /** No later pair has the same key as pair `i`. */
  ghost predicate IsLastFor<V>(kvs: seq<(string, V)>, i: int)
    requires 0 <= i < |kvs|
  {
    forall j :: i < j < |kvs| ==> kvs[j].0 != kvs[i].0
  }

  // ---------------------------------------------------------------------
  // What filling a dict pair by pair produces

  /** The keys are exactly the keys of the pairs. */
  lemma {:induction false} FromPairsDomain<V>(kvs: seq<(string, V)>)
    ensures forall k :: k in FromPairs(kvs).items <==> k in KeysOf(kvs)
  {
    if kvs != [] {
      FromPairsDomain(kvs[..|kvs| - 1]);
      KeysOfSnoc(kvs);
    }
  }

  /** Every value a fill leaves behind was written by one of its pairs, under that key. */
  lemma FromPairsValues<V>(kvs: seq<(string, V)>)
    ensures forall k :: k in FromPairs(kvs).items ==> exists i :: 0 <= i < |kvs| && kvs[i] == (k, FromPairs(kvs).items[k])
  {
    forall k | k in FromPairs(kvs).items ensures exists i :: 0 <= i < |kvs| && kvs[i] == (k, FromPairs(kvs).items[k]) {
      FromPairsValueOf(kvs, k);
    }
  }

  lemma {:induction false} FromPairsValueOf<V>(kvs: seq<(string, V)>, k: string)
    requires k in FromPairs(kvs).items
    ensures exists i :: 0 <= i < |kvs| && kvs[i] == (k, FromPairs(kvs).items[k])
  {
    if k == kvs[|kvs| - 1].0 {
      assert kvs[|kvs| - 1] == (k, FromPairs(kvs).items[k]);
    } else {
      FromPairsValueOf(kvs[..|kvs| - 1], k);
      var i :| 0 <= i < |kvs[..|kvs| - 1]| && kvs[..|kvs| - 1][i] == (k, FromPairs(kvs[..|kvs| - 1]).items[k]);
      assert kvs[i] == (k, FromPairs(kvs).items[k]);
    }
  }

  lemma {:induction false} FromPairsLastWinsAt<V>(kvs: seq<(string, V)>, i: nat)
    requires i < |kvs| && IsLastFor(kvs, i)
    ensures kvs[i].0 in FromPairs(kvs).items && FromPairs(kvs).items[kvs[i].0] == kvs[i].1
  {
    if i < |kvs| - 1 {
      assert IsLastFor(kvs[..|kvs| - 1], i);
      FromPairsLastWinsAt(kvs[..|kvs| - 1], i);
    }
  }

  /** The keys are listed in the order of their first occurrence among the pairs. */
  lemma {:induction false} FromPairsOrder<V>(kvs: seq<(string, V)>)
    ensures InOrderWithin(FromPairs(kvs).keys, KeysOf(kvs))
  {
    if kvs != [] {
      FromPairsOrder(kvs[..|kvs| - 1]);
      FromPairsDomain(kvs[..|kvs| - 1]);
      FromPairsOrderStep(FromPairs(kvs[..|kvs| - 1]), KeysOf(kvs[..|kvs| - 1]), kvs[|kvs| - 1].0, kvs[|kvs| - 1].1);
      KeysOfSnoc(kvs);
    }
  }

  lemma KeysOfSnoc<V>(kvs: seq<(string, V)>)
    requires kvs != []
    ensures KeysOf(kvs) == KeysOf(kvs[..|kvs| - 1]) + [kvs[|kvs| - 1].0]
  {
    assert KeysOf(kvs) == KeysOf(kvs[..|kvs| - 1]) + [kvs[|kvs| - 1].0];
  }

  /** One more `d[k] = v` keeps the keys in the order of their first insertion. */
  lemma FromPairsOrderStep<V>(d: Dict<V>, ks: seq<string>, k: string, v: V)
    requires InOrderWithin(d.keys, ks) && forall x :: x in d.items <==> x in ks
    ensures InOrderWithin(Put(d, k, v).keys, ks + [k])
  {
    if k in d.items {
      InOrderAppendOld(d.keys, ks, k);
    } else {
      InOrderAppendNew(d.keys, ks, k);
    }
  }

  lemma InOrderAppendOld(a: seq<string>, b: seq<string>, k: string)
    requires InOrderWithin(a, b)
    ensures InOrderWithin(a, b + [k])
  {
    forall x | x in b ensures FirstIndex(b + [k], x) == FirstIndex(b, x) {
      FirstIndexExtend(b, [k], x);
    }
  }

  lemma InOrderAppendNew(a: seq<string>, b: seq<string>, k: string)
    requires InOrderWithin(a, b) && k !in b
    ensures InOrderWithin(a + [k], b + [k])
  {
    var a', b' := a + [k], b + [k];
    forall x | x in b ensures FirstIndex(b', x) == FirstIndex(b, x) {
      FirstIndexExtend(b, [k], x);
    }
    assert FirstIndex(b', k) == |b|;
    forall p, q | 0 <= p < q < |a'|
      ensures FirstIndex(b', a'[p]) < FirstIndex(b', a'[q])
    {
      assert a'[p] == a[p];
      if q < |a| {
        assert a'[q] == a[q];
      }
    }
  }

  lemma {:induction false} FirstIndexExtend(s: seq<string>, t: seq<string>, x: string)
    requires x in s
    ensures x in s + t && FirstIndex(s + t, x) == FirstIndex(s, x)
  {
    if s[0] != x {
      assert (s + t)[1..] == s[1..] + t;
      FirstIndexExtend(s[1..], t, x);
    }
  }
}
