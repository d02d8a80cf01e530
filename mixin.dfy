/**
 `RVRutils.mixin(target, source)`: a shallow copy of every enumerable
 property of `source` onto `target`, in `for…in` order, writing into
 `target` in place and returning that same object.
 */
module Mixin {
  import opened JsValues

  /** The properties of an object after `o[k] = v` for each pair of `src` in turn. */
  function PutAll(ps: seq<(string, JsValue)>, src: seq<(string, JsValue)>): seq<(string, JsValue)>
  {
    if src == [] then ps
    else Put(PutAll(ps, src[..|src| - 1]), src[|src| - 1].0, src[|src| - 1].1)
  }

  /** After the copy, every key of the source reads as the source's value. */
  lemma {:induction false} PutAllSourceWins(ps: seq<(string, JsValue)>, src: seq<(string, JsValue)>, j: nat)
    requires UniqueKeys(src)
    requires j < |src|
    ensures Lookup(PutAll(ps, src), src[j].0) == src[j].1
  {
    var n := |src| - 1;
    if j < n {
      PutAllSourceWins(ps, src[..n], j);
    }
  }

  /** Keys the source does not have read as they did before the copy. */
  lemma {:induction false} PutAllKeepsOthers(ps: seq<(string, JsValue)>, src: seq<(string, JsValue)>, k: string)
    requires k !in KeySet(src)
    ensures Lookup(PutAll(ps, src), k) == Lookup(ps, k)
  {
    if src != [] {
      var n := |src| - 1;
      KeySetIff(src, k);
      KeySetIff(src[..n], k);
      PutAllKeepsOthers(ps, src[..n], k);
    }
  }

  /**
   The copy adds the source's keys and moves none of the target's: the
   target's keys stay first, in their old order, and stay distinct.
   */
  lemma PutAllKeys(ps: seq<(string, JsValue)>, src: seq<(string, JsValue)>)
    ensures KeySet(PutAll(ps, src)) == KeySet(ps) + KeySet(src)
    ensures |ps| <= |PutAll(ps, src)|
    ensures forall i :: 0 <= i < |ps| ==> PutAll(ps, src)[i].0 == ps[i].0
    ensures UniqueKeys(ps) ==> UniqueKeys(PutAll(ps, src))
  {
    PutAllKeySet(ps, src);
    PutAllKeepsOrder(ps, src);
  }

  lemma {:induction false} PutAllKeySet(ps: seq<(string, JsValue)>, src: seq<(string, JsValue)>)
    ensures KeySet(PutAll(ps, src)) == KeySet(ps) + KeySet(src)
  {
    if src != [] {
      var n := |src| - 1;
      PutAllKeySet(ps, src[..n]);
      PutKeys(PutAll(ps, src[..n]), src[n].0, src[n].1);
      KeySetConcat(src[..n], [src[n]]);
      assert src[..n] + [src[n]] == src;
    }
  }

  lemma {:induction false} PutAllKeepsOrder(ps: seq<(string, JsValue)>, src: seq<(string, JsValue)>)
    ensures |ps| <= |PutAll(ps, src)|
    ensures forall i :: 0 <= i < |ps| ==> PutAll(ps, src)[i].0 == ps[i].0
    ensures UniqueKeys(ps) ==> UniqueKeys(PutAll(ps, src))
  {
    if src != [] {
      var n := |src| - 1;
      var mid := PutAll(ps, src[..n]);
      PutAllKeepsOrder(ps, src[..n]);
      PutKeys(mid, src[n].0, src[n].1);
      if UniqueKeys(ps) {
        PutKeepsUnique(mid, src[n].0, src[n].1);
      }
    }
  }

  lemma {:induction false} KeySetConcat(a: seq<(string, JsValue)>, b: seq<(string, JsValue)>)
    ensures KeySet(a + b) == KeySet(a) + KeySet(b)
  {
    if a != [] {
      KeySetConcat(a[1..], b);
      assert (a + b)[1..] == a[1..] + b;
    } else {
      assert a + b == b;
    }
  }

  /** Writing a key the object already maps to the same value changes nothing. */
  lemma {:induction false} PutSameValue(ps: seq<(string, JsValue)>, k: string)
    requires UniqueKeys(ps)
    requires k in KeySet(ps)
    ensures Put(ps, k, Lookup(ps, k)) == ps
  {
    if ps[0].0 != k {
      assert UniqueKeys(ps[1..]) by {
        assert forall i :: 0 <= i < |ps[1..]| ==> ps[1..][i] == ps[i + 1];
      }
      PutSameValue(ps[1..], k);
    }
  }

  /** Mixing the same source in a second time leaves the target as the first time did. */
  lemma {:induction false} PutAllIdempotent(ps: seq<(string, JsValue)>, src: seq<(string, JsValue)>)
    requires UniqueKeys(ps)
    requires UniqueKeys(src)
    ensures PutAll(PutAll(ps, src), src) == PutAll(ps, src)
  {
    var once := PutAll(ps, src);
    PutAllKeys(ps, src);
    forall m | 0 <= m <= |src| ensures PutAll(once, src[..m]) == once {
      PutAllPrefixStable(ps, src, m);
    }
    assert src[..|src|] == src;
  }

  lemma {:induction false} PutAllPrefixStable(ps: seq<(string, JsValue)>, src: seq<(string, JsValue)>, m: nat)
    requires UniqueKeys(ps)
    requires UniqueKeys(src)
    requires m <= |src|
    ensures PutAll(PutAll(ps, src), src[..m]) == PutAll(ps, src)
  {
    var once := PutAll(ps, src);
    if m > 0 {
      PutAllPrefixStable(ps, src, m - 1);
      assert src[..m][..m - 1] == src[..m - 1];
      var k := src[m - 1].0;
      PutAllKeys(ps, src);
      KeySetIff(src, k);
      PutAllSourceWins(ps, src, m - 1);
      PutSameValue(once, k);
    }
  }

  /** A plain object whose properties the program writes in place. */
  class JsObject {
    var props: seq<(string, JsValue)>

    ghost predicate Valid()
      reads this
    {
      UniqueKeys(props)
    }

    constructor (init: seq<(string, JsValue)>)
      requires UniqueKeys(init)
      ensures Valid() && props == init
    {
      props := init;
    }

    /** `o[k]` */
    function Get(k: string): (v: JsValue)
      reads this
      ensures k !in KeySet(props) ==> v == Undefined
      ensures Valid() ==> forall i :: 0 <= i < |props| && props[i].0 == k ==> v == props[i].1
    {
      Lookup(props, k)
    }

    /** `o[k] = v` */
    method Set(k: string, v: JsValue)
      requires Valid()
      modifies this
      ensures Valid()
      ensures props == Put(old(props), k, v)
    {
      PutKeepsUnique(props, k, v);
      props := Put(props, k, v);
    }
  }

  /**
   Copies every enumerable property of `source` onto `target` and returns
   `target`. A `null` or `undefined` source, or a number or boolean, has
   no enumerable property and leaves `target` as it was; a string source
   contributes its characters under the keys "0", "1", ….
   */
  method Mixin(target: JsObject, source: JsValue) returns (r: JsObject)
    requires target.Valid()
    modifies target
    ensures r == target && target.Valid()
    ensures target.props == PutAll(old(target.props), Enumerate(source))
    ensures UniqueKeys(Enumerate(source)) ==>
      forall j :: 0 <= j < |Enumerate(source)| ==> target.Get(Enumerate(source)[j].0) == Enumerate(source)[j].1
    ensures forall k :: k !in KeySet(Enumerate(source)) ==> target.Get(k) == old(target.Get(k))
  {
    var pairs := Enumerate(source);
    var i := 0;
    while i < |pairs|
      invariant 0 <= i <= |pairs|
      invariant target.Valid()
      invariant target.props == PutAll(old(target.props), pairs[..i])
    {
      target.Set(pairs[i].0, pairs[i].1);
      assert pairs[..i + 1][..i] == pairs[..i];
      i := i + 1;
    }
    assert pairs[..i] == pairs;
    if UniqueKeys(pairs) {
      forall j | 0 <= j < |pairs| ensures target.Get(pairs[j].0) == pairs[j].1 {
        PutAllSourceWins(old(target.props), pairs, j);
      }
    }
    forall k | k !in KeySet(pairs) ensures target.Get(k) == old(target.Get(k)) {
      PutAllKeepsOthers(old(target.props), pairs, k);
    }
    r := target;
  }
}
