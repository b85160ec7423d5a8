/** JSON values as the script receives them from its JSON parser, and the
    part of Python's dict behaviour the merge relies on: keys are unique,
    `d[k] = v` replaces a present key's value in place and appends an absent
    key at the end, and iteration follows insertion order. */
module Values {

  /** A parsed JSON value. A number keeps its literal text: the merge never
      computes with numbers. */
  datatype Json =
    | Null
    | Bool(b: bool)
    | Num(literal: string)
    | Str(s: string)
    | Arr(items: seq<Json>)
    | Obj(entries: seq<(string, Json)>)

  /** A JSON object as a Python dict holds it: key/value pairs in insertion order. */
  type Object = seq<(string, Json)>

  function Keys(o: Object): seq<string>
  {
    seq(|o|, i requires 0 <= i < |o| => o[i].0)
  }

  predicate Distinct<T(==)>(s: seq<T>)
  {
    forall i, j :: 0 <= i < j < |s| ==> s[i] != s[j]
  }

  /** A dict holds each key once. */
  predicate ValidObject(o: Object)
  {
    Distinct(Keys(o))
  }

  /** `k in d` */
  predicate HasKey(o: Object, k: string)
  {
    k in Keys(o)
  }

  /** The position of the first pair with key `k`. */
  function IndexOf(o: Object, k: string): (i: nat)
    requires HasKey(o, k)
    ensures i < |o| && o[i].0 == k
    ensures forall j :: 0 <= j < i ==> o[j].0 != k
    decreases |o|
  {
    if o[0].0 == k then 0
    else
      assert Keys(o) == [o[0].0] + Keys(o[1..]);
      1 + IndexOf(o[1..], k)
  }

  /** `d[k]` */
  function Lookup(o: Object, k: string): Json
    requires HasKey(o, k)
  {
    o[IndexOf(o, k)].1
  }

  /** `d[k] = v`: a present key keeps its position and takes the new value,
      an absent key is appended. */
  function Put(o: Object, k: string, v: Json): (r: Object)
    ensures |r| == if HasKey(o, k) then |o| else |o| + 1
    ensures forall i :: 0 <= i < |o| ==> r[i] == if o[i].0 == k then (k, v) else o[i]
    ensures !HasKey(o, k) ==> r[|o|] == (k, v)
  {
    if HasKey(o, k) then seq(|o|, i requires 0 <= i < |o| => if o[i].0 == k then (k, v) else o[i])
    else
      assert forall i :: 0 <= i < |o| ==> o[i].0 != k by {
        forall i | 0 <= i < |o| ensures o[i].0 != k {
          assert Keys(o)[i] == o[i].0;
        }
      }
      o + [(k, v)]
  }

  /** `a` and `b` hold the same entry (or both none) under `k`. */
  predicate SameAt(a: Object, b: Object, k: string)
  {
    && (HasKey(a, k) <==> HasKey(b, k))
    && (HasKey(a, k) ==> Lookup(a, k) == Lookup(b, k))
  }

  /** `after` is `before` with, at most, the values under `keys` changed in
      place and pairs with keys in `keys` appended: every other pair stays,
      unchanged and at its position. */
  predicate ChangesOnly(before: Object, after: Object, keys: set<string>)
  {
    && |before| <= |after|
    && (forall i :: 0 <= i < |before| ==> after[i].0 == before[i].0)
    && (forall i :: 0 <= i < |before| && before[i].0 !in keys ==> after[i] == before[i])
    && (forall i :: |before| <= i < |after| ==> after[i].0 in keys)
  }

  lemma KeysAppend(a: Object, b: Object)
    ensures Keys(a + b) == Keys(a) + Keys(b)
  {
  }

  /** The pair at position `i` of a dict is what a lookup of its key finds. */
  lemma LookupAt(o: Object, i: int)
    requires ValidObject(o) && 0 <= i < |o|
    ensures HasKey(o, o[i].0) && Lookup(o, o[i].0) == o[i].1
  {
    assert Keys(o)[i] == o[i].0;
    var j := IndexOf(o, o[i].0);
    assert Keys(o)[j] == o[j].0;
  }

  /** `k in d` holds exactly when some pair of the dict has key `k`. */
  lemma HasKeyAt(o: Object, k: string)
    ensures HasKey(o, k) <==> exists i :: 0 <= i < |o| && o[i].0 == k
  {
    if HasKey(o, k) {
      var i := IndexOf(o, k);
      assert o[i].0 == k;
    }
    forall i | 0 <= i < |o| && o[i].0 == k
      ensures HasKey(o, k)
    {
      assert Keys(o)[i] == k;
    }
  }

  /** `d[k]` finds a pair of the dict with key `k`. */
  lemma LookupIn(o: Object, k: string)
    requires HasKey(o, k)
    ensures (k, Lookup(o, k)) in o
  {
  }

  /** Assignment keeps a dict a dict, stores the value, and touches only its key. */
  lemma PutValid(o: Object, k: string, v: Json)
    requires ValidObject(o)
    ensures ValidObject(Put(o, k, v))
    ensures HasKey(Put(o, k, v), k) && Lookup(Put(o, k, v), k) == v
    ensures ChangesOnly(o, Put(o, k, v), {k})
  {
    var r := Put(o, k, v);
    forall i, j | 0 <= i < j < |r|
      ensures Keys(r)[i] != Keys(r)[j]
    {
      if j < |o| {
        assert Keys(o)[i] != Keys(o)[j];
      } else {
        assert Keys(o)[i] == o[i].0;
      }
    }
    var i := if HasKey(o, k) then IndexOf(o, k) else |o|;
    assert r[i] == (k, v);
    LookupAt(r, i);
  }

  /** Two assignments to one key: the second wins. */
  lemma PutPut(o: Object, k: string, v: Json, w: Json)
    ensures Put(Put(o, k, v), k, w) == Put(o, k, w)
  {
    var p := Put(o, k, v);
    if !HasKey(o, k) {
      assert Keys(p)[|o|] == k;
    } else {
      var i := IndexOf(o, k);
      assert Keys(p)[i] == k;
    }
  }

  /** Assigning a key its own value changes nothing. */
  lemma PutSame(o: Object, k: string)
    requires ValidObject(o) && HasKey(o, k)
    ensures Put(o, k, Lookup(o, k)) == o
  {
    forall i | 0 <= i < |o| && o[i].0 == k
      ensures o[i] == (k, Lookup(o, k))
    {
      LookupAt(o, i);
    }
  }

  /** Outside `keys`, a `ChangesOnly` step preserves every key and its value. */
  lemma SameOutside(before: Object, after: Object, keys: set<string>)
    requires ValidObject(before) && ValidObject(after)
    requires ChangesOnly(before, after, keys)
    ensures forall k {:trigger HasKey(after, k)} {:trigger SameAt(before, after, k)} ::
      k !in keys ==> SameAt(before, after, k)
  {
    forall k | k !in keys
      ensures SameAt(before, after, k)
    {
      if HasKey(before, k) {
        var i := IndexOf(before, k);
        assert Keys(after)[i] == k;
        LookupAt(before, i);
        LookupAt(after, i);
      }
      if HasKey(after, k) {
        var j := IndexOf(after, k);
        assert j < |before|;
        assert Keys(before)[j] == k;
      }
    }
  }

  lemma ChangesOnlyTrans(a: Object, b: Object, c: Object, k1: set<string>, k2: set<string>)
    requires ChangesOnly(a, b, k1) && ChangesOnly(b, c, k2)
    ensures ChangesOnly(a, c, k1 + k2)
  {
  }

  lemma DistinctConcat<T>(a: seq<T>, b: seq<T>)
    requires Distinct(a) && Distinct(b)
    requires forall x :: x in a ==> x !in b
    ensures Distinct(a + b)
  {
    forall i, j | 0 <= i < j < |a + b|
      ensures (a + b)[i] != (a + b)[j]
    {
      if i < |a| && |a| <= j {
        assert (a + b)[i] in a;
        assert (a + b)[j] in b;
      }
    }
  }

  /** The pairs after the first of a dict form a dict without the first key. */
  lemma ValidTail(o: Object)
    requires ValidObject(o) && o != []
    ensures ValidObject(o[1..]) && !HasKey(o[1..], o[0].0)
  {
    assert Keys(o) == [o[0].0] + Keys(o[1..]);
    forall i, j | 0 <= i < j < |o[1..]|
      ensures Keys(o[1..])[i] != Keys(o[1..])[j]
    {
      assert Keys(o)[i + 1] != Keys(o)[j + 1];
    }
    forall i | 0 <= i < |o[1..]|
      ensures Keys(o[1..])[i] != o[0].0
    {
      assert Keys(o)[i + 1] != Keys(o)[0];
    }
  }
}
