/**
 * Python's `OrderedDict` keyed by namespace: keys in insertion order and the
 * value stored for each. Re-assigning an existing key keeps its position;
 * `pop` removes the key and leaves the others in their order.
 */
module OrderedDicts {
  import opened Wrappers

  /** No key occurs twice. */
  ghost predicate Distinct(s: seq<string>) {
    forall i, j :: 0 <= i < j < |s| ==> s[i] != s[j]
  }

  datatype OrderedDict<V> = OrderedDict(keys: seq<string>, values: map<string, V>) {

    /** The order lists each stored key exactly once. */
    ghost predicate Valid() {
      Distinct(keys) && (forall k :: k in values <==> k in keys)
    }

    /** `d.get(k)`. */
    function Get(k: string): Option<V> {
      if k in values then Some(values[k]) else None
    }
  }

  function Empty<V>(): (d: OrderedDict<V>)
    ensures d.Valid() && d.keys == [] && forall k :: d.Get(k) == None
  {
    OrderedDict([], map[])
  }

  /** `d[k] = v`: `k` now maps to `v`; an existing key keeps its place, a new key goes last. */
  function Put<V>(d: OrderedDict<V>, k: string, v: V): (r: OrderedDict<V>)
    requires d.Valid()
    ensures r.Valid()
    ensures r.Get(k) == Some(v)
    ensures forall k' :: k' != k ==> r.Get(k') == d.Get(k')
    ensures r.values == d.values[k := v]
    ensures |r.keys| == if k in d.values then |d.keys| else |d.keys| + 1
    ensures r.keys[..|d.keys|] == d.keys
    ensures k !in d.values ==> r.keys[|d.keys|] == k
  {
    if k in d.values then OrderedDict(d.keys, d.values[k := v])
    else OrderedDict(d.keys + [k], d.values[k := v])
  }

  /** The keys of `s` other than `k`, in their order. */
  function Without(s: seq<string>, k: string): (r: seq<string>)
    ensures forall x :: x in r <==> x in s && x != k
    ensures Distinct(s) ==> Distinct(r)
    ensures k !in s ==> r == s
  {
    if s == [] then []
    else if s[0] == k then Without(s[1..], k)
    else
      var rest := Without(s[1..], k);
      assert Distinct(s) ==> s[0] !in s[1..];
      [s[0]] + rest
  }

  /** `d.pop(k, None)`: `k` is no longer stored; every other key keeps its value. */
  function Pop<V>(d: OrderedDict<V>, k: string): (r: OrderedDict<V>)
    requires d.Valid()
    ensures r.Valid()
    ensures r.Get(k) == None
    ensures forall k' :: k' != k ==> r.Get(k') == d.Get(k')
    ensures r.values == d.values - {k}
    ensures k !in d.values ==> r == d
  {
    OrderedDict(Without(d.keys, k), d.values - {k})
  }

  // ---------------------------------------------------------------------------
  // Order of keys

  ghost predicate PrecedesAt(s: seq<string>, a: string, b: string, i: int, j: int) {
    0 <= i < j < |s| && s[i] == a && s[j] == b
  }

  /** `a` occurs before `b` in `s`. */
  ghost predicate Precedes(s: seq<string>, a: string, b: string) {
    exists i, j :: PrecedesAt(s, a, b, i, j)
  }

  lemma PrecedesCons(x: string, s: seq<string>, a: string, b: string)
    ensures Precedes([x] + s, a, b) <==> (x == a && b in s) || Precedes(s, a, b)
  {
    var t := [x] + s;
    if Precedes(t, a, b) {
      var i, j :| PrecedesAt(t, a, b, i, j);
      if i > 0 {
        assert PrecedesAt(s, a, b, i - 1, j - 1);
      } else {
        assert s[j - 1] == b;
      }
    }
    if x == a && b in s {
      var j :| 0 <= j < |s| && s[j] == b;
      assert PrecedesAt(t, a, b, 0, j + 1);
    }
    if Precedes(s, a, b) {
      var i, j :| PrecedesAt(s, a, b, i, j);
      assert PrecedesAt(t, a, b, i + 1, j + 1);
    }
  }

  /** Removing a key leaves the relative order of all other keys as it was. */
  lemma {:induction false} WithoutKeepsOrder(s: seq<string>, k: string, a: string, b: string)
    requires a != k && b != k
    ensures Precedes(Without(s, k), a, b) <==> Precedes(s, a, b)
  {
    if s != [] {
      assert s == [s[0]] + s[1..];
      WithoutKeepsOrder(s[1..], k, a, b);
      PrecedesCons(s[0], s[1..], a, b);
      if s[0] != k {
        PrecedesCons(s[0], Without(s[1..], k), a, b);
      }
    }
  }

  /** Two tables with the same key order still share it after the same key is stored in both. */
  lemma PutSameKeys<V, W>(d: OrderedDict<V>, e: OrderedDict<W>, k: string, v: V, w: W)
    requires d.Valid() && e.Valid() && d.keys == e.keys
    ensures Put(d, k, v).keys == Put(e, k, w).keys
  {
    assert k in d.values <==> k in e.values;
  }

  /** Popping a key and storing it again moves it to the end of the order. */
  lemma PopPutMovesLast<V>(d: OrderedDict<V>, k: string, v: V)
    requires d.Valid()
    ensures Put(Pop(d, k), k, v).keys == Without(d.keys, k) + [k]
  {
  }
}
