/**
 `RVRutils.setProperties({entity, properties, parentProp, batch})`: walks a
 property tree with `for…in` and turns it into `entity.setAttribute` calls.

 The model follows the code as it stands:
 - batch mode reads the undeclared identifier `props` (assuming no global
   binding of that name), so the first key throws a ReferenceError before
   any attribute is set;
 - in incremental mode a value is a leaf unless it is of type 'object' and
   its `.x` is falsy, so `{x: 0, y: 1}` and `{}` are walked into while
   `{x: 1, y: 2, z: 3}` is set whole, and a `null` value throws when its
   `.x` is read;
 - a walked-into object is applied with `parentProp` set to its own key, so
   only the innermost enclosing key is ever the namespace.

 The host's `setAttribute` is modelled as appending to the entity's call log.
 */
module Properties {
  import opened JsValues

  /** One `entity.setAttribute` call: the 2-argument or the 3-argument form. */
  datatype Call = Two(key: string, value: JsValue) | Three(ns: string, key: string, value: JsValue)

  /** The calls made, in order, and the exception that ended the walk, if any. */
  datatype Trace = Trace(calls: seq<Call>, thrown: Option<Exception>)

  const PropsUndeclared := UndeclaredReference("props")
  const NullX := NullPropertyRead("x")

  /** Run `a`, then `b` unless `a` threw. */
  function Then(a: Trace, b: Trace): Trace
  {
    if a.thrown.Some? then a else Trace(a.calls + b.calls, b.thrown)
  }

  lemma ThenAssociative(a: Trace, b: Trace, c: Trace)
    ensures Then(Then(a, b), c) == Then(a, Then(b, c))
  {
    if a.thrown.None? && b.thrown.None? {
      assert (a.calls + b.calls) + c.calls == a.calls + (b.calls + c.calls);
    }
  }

  /** `typeof parentProp == 'string' ? setAttribute(parentProp, key, v) : setAttribute(key, v)` */
  function Emit(parent: JsValue, key: string, v: JsValue): (c: Call)
    ensures c.Three? <==> parent.Str?
    ensures c.key == key && c.value == v
    ensures c.Three? ==> c.ns == parent.s
  {
    if TypeOf(parent) == "string" then Three(parent.s, key, v) else Two(key, v)
  }

  /** How incremental mode treats one value. */
  datatype Kind = Leaf | Nested | ReadsNull

  /** The test `!(typeof v == 'object' && !v.x)`, where reading `.x` of `null` throws. */
  function Classify(v: JsValue): (k: Kind)
    ensures k == ReadsNull <==> v.Null?
    ensures k == Nested <==> v.Obj? && !Truthy(Lookup(v.props, "x"))
    ensures k == Leaf <==> (!v.Null? && !v.Obj?) || (v.Obj? && Truthy(Lookup(v.props, "x")))
  {
    if TypeOf(v) != "object" then Leaf
    else if v.Null? then ReadsNull
    else if !Truthy(Lookup(v.props, "x")) then Nested
    else Leaf
  }

  /** The walk over the keys of `o` from the `i`-th on. */
  function FlattenFrom(o: JsValue, i: nat, parent: JsValue, batch: bool): Trace
    requires i <= |Enumerate(o)|
    decreases o, |Enumerate(o)| - i, 1
  {
    if i == |Enumerate(o)| then Trace([], None)
    else if batch then Trace([], Some(PropsUndeclared))
    else Then(EntryTrace(o, i, parent), FlattenFrom(o, i + 1, parent, batch))
  }

  /** Incremental mode on the `i`-th key of `o` and its value. */
  function EntryTrace(o: JsValue, i: nat, parent: JsValue): Trace
    requires i < |Enumerate(o)|
    decreases o, |Enumerate(o)| - i, 0
  {
    var (key, v) := Enumerate(o)[i];
    match Classify(v)
    case Leaf => Trace([Emit(parent, key, v)], None)
    case ReadsNull => Trace([], Some(NullX))
    case Nested => EnumeratedObjectsBelow(o, i); FlattenFrom(v, 0, Str(key), false)
  }

  /** What `setProperties` does for a property tree, a parent property and a batch flag. */
  function Flatten(properties: JsValue, parent: JsValue, batch: bool): Trace
  {
    FlattenFrom(properties, 0, parent, batch)
  }

  /**
   A scene entity, as far as this code sees it: its element name and the
   log of `setAttribute` calls made on it.
   */
  class Entity {
    const tag: string
    var calls: seq<Call>

    constructor (tag: string)
      ensures this.tag == tag && calls == []
    {
      this.tag := tag;
      calls := [];
    }

    /** `entity.setAttribute(key, value)` */
    method SetAttribute(key: string, value: JsValue)
      modifies this
      ensures calls == old(calls) + [Two(key, value)]
    {
      calls := calls + [Two(key, value)];
    }

    /** `entity.setAttribute(ns, key, value)` */
    method SetAttributeNs(ns: string, key: string, value: JsValue)
      modifies this
      ensures calls == old(calls) + [Three(ns, key, value)]
    {
      calls := calls + [Three(ns, key, value)];
    }
  }

  /** One turn of the `for…in` loop over the keys of `o`. */
  lemma WalkStep(o: JsValue, i: nat, parent: JsValue, batch: bool)
    requires i < |Enumerate(o)|
    ensures batch ==> FlattenFrom(o, i, parent, batch) == Trace([], Some(PropsUndeclared))
    ensures !batch && EntryTrace(o, i, parent).thrown.Some? ==>
      FlattenFrom(o, i, parent, batch) == EntryTrace(o, i, parent)
    ensures !batch && EntryTrace(o, i, parent).thrown.None? ==>
      FlattenFrom(o, i, parent, batch).calls == EntryTrace(o, i, parent).calls + FlattenFrom(o, i + 1, parent, batch).calls &&
      FlattenFrom(o, i, parent, batch).thrown == FlattenFrom(o, i + 1, parent, batch).thrown
  {
  }

  /**
   Applies `properties` to `entity`. The calls made are appended to the
   entity's log even when the walk later throws; `thrown` is the exception
   that escapes, if any.
   */
  method SetProperties(entity: Entity, properties: JsValue, parentProp: JsValue, batch: JsValue)
    returns (thrown: Option<Exception>)
    modifies entity
    decreases properties, 2
    ensures entity.calls == old(entity.calls) + Flatten(properties, parentProp, Truthy(batch)).calls
    ensures thrown == Flatten(properties, parentProp, Truthy(batch)).thrown
  {
    var ps := Enumerate(properties);
    var isBatch := Truthy(batch);
    ghost var whole := Flatten(properties, parentProp, isBatch);
    ghost var start := entity.calls;
    thrown := None;
    var i := 0;
    while i < |ps|
      invariant 0 <= i <= |ps|
      invariant thrown == None
      invariant start + whole.calls == entity.calls + FlattenFrom(properties, i, parentProp, isBatch).calls
      invariant whole.thrown == FlattenFrom(properties, i, parentProp, isBatch).thrown
    {
      thrown := LoopTurn(entity, properties, i, parentProp, isBatch);
      if thrown.Some? {
        return;
      }
      i := i + 1;
    }
    assert entity.calls + [] == entity.calls;
  }

  /**
   One turn of the `for…in` loop, on the `i`-th key: the calls it makes
   followed by those of the remaining keys are the calls of the walk from
   the `i`-th key on; an exception ends the walk.
   */
  method LoopTurn(entity: Entity, properties: JsValue, i: nat, parentProp: JsValue, batch: bool)
    returns (thrown: Option<Exception>)
    requires i < |Enumerate(properties)|
    modifies entity
    decreases properties, 1
    ensures thrown.Some? ==>
      entity.calls == old(entity.calls) + FlattenFrom(properties, i, parentProp, batch).calls &&
      thrown == FlattenFrom(properties, i, parentProp, batch).thrown
    ensures thrown.None? ==>
      entity.calls + FlattenFrom(properties, i + 1, parentProp, batch).calls ==
        old(entity.calls) + FlattenFrom(properties, i, parentProp, batch).calls &&
      FlattenFrom(properties, i + 1, parentProp, batch).thrown == FlattenFrom(properties, i, parentProp, batch).thrown
  {
    WalkStep(properties, i, parentProp, batch);
    if batch {
      assert entity.calls + [] == entity.calls;
      return Some(PropsUndeclared);
    }
    ghost var entry := EntryTrace(properties, i, parentProp);
    ghost var rest := FlattenFrom(properties, i + 1, parentProp, batch);
    ghost var before := entity.calls;
    thrown := ApplyEntry(entity, properties, i, parentProp);
    if thrown.None? {
      AppendThenRest(before, entity.calls, entry.calls, rest.calls);
    }
  }

  /** Calls `made` after `before`, followed by the rest, are `before` followed by all of them. */
  lemma AppendThenRest(before: seq<Call>, after: seq<Call>, made: seq<Call>, rest: seq<Call>)
    requires after == before + made
    ensures after + rest == before + (made + rest)
  {
  }

  /** The body of the incremental-mode loop for the `i`-th key of `properties`. */
  method ApplyEntry(entity: Entity, properties: JsValue, i: nat, parentProp: JsValue)
    returns (thrown: Option<Exception>)
    requires i < |Enumerate(properties)|
    modifies entity
    decreases properties, 0
    ensures entity.calls == old(entity.calls) + EntryTrace(properties, i, parentProp).calls
    ensures thrown == EntryTrace(properties, i, parentProp).thrown
  {
    var (key, v) := Enumerate(properties)[i];
    var isObject := TypeOf(v) == "object";
    if isObject && v.Null? {
      return Some(NullX);
    }
    if !(isObject && !Truthy(Lookup(v.props, "x"))) {
      if TypeOf(parentProp) == "string" {
        entity.SetAttributeNs(parentProp.s, key, v);
      } else {
        entity.SetAttribute(key, v);
      }
      thrown := None;
    } else if isObject {
      EnumeratedObjectsBelow(properties, i);
      thrown := SetProperties(entity, v, Str(key), Bool(false));
    }
  }

  /**
   Batch mode: a tree with at least one key throws the ReferenceError for
   `props` on its first key, before any attribute is set; an empty one
   returns normally having set nothing.
   */
  lemma BatchMode(o: JsValue, parent: JsValue)
    ensures Flatten(o, parent, true).calls == []
    ensures Flatten(o, parent, true).thrown == if Enumerate(o) == [] then None else Some(PropsUndeclared)
  {
  }

  /**
   A tree whose values are all leaves makes exactly one call per key, in key
   order, each in the form `parent` selects; falsy leaves (`0`, `false`,
   `""`) are not skipped.
   */
  lemma {:induction false} FlatTree(o: JsValue, parent: JsValue)
    requires forall j :: 0 <= j < |Enumerate(o)| ==> Classify(Enumerate(o)[j].1) == Leaf
    ensures Flatten(o, parent, false).thrown == None
    ensures |Flatten(o, parent, false).calls| == |Enumerate(o)|
    ensures forall j :: 0 <= j < |Enumerate(o)| ==>
      Flatten(o, parent, false).calls[j] == Emit(parent, Enumerate(o)[j].0, Enumerate(o)[j].1)
  {
    FlatTreeFrom(o, 0, parent);
    var t := FlattenFrom(o, 0, parent, false);
    assert Flatten(o, parent, false) == t;
    forall j | 0 <= j < |Enumerate(o)| ensures t.calls[j] == Emit(parent, Enumerate(o)[j].0, Enumerate(o)[j].1) {
      assert t.calls[j - 0] == t.calls[j];
    }
  }

  lemma {:induction false} FlatTreeFrom(o: JsValue, i: nat, parent: JsValue)
    requires i <= |Enumerate(o)|
    requires forall j :: i <= j < |Enumerate(o)| ==> Classify(Enumerate(o)[j].1) == Leaf
    decreases |Enumerate(o)| - i
    ensures FlattenFrom(o, i, parent, false).thrown == None
    ensures |FlattenFrom(o, i, parent, false).calls| == |Enumerate(o)| - i
    ensures forall j :: i <= j < |Enumerate(o)| ==>
      FlattenFrom(o, i, parent, false).calls[j - i] == Emit(parent, Enumerate(o)[j].0, Enumerate(o)[j].1)
  {
    var ps := Enumerate(o);
    if i < |ps| {
      FlatTreeFrom(o, i + 1, parent);
      WalkStep(o, i, parent, false);
      var c := Emit(parent, ps[i].0, ps[i].1);
      assert EntryTrace(o, i, parent) == Trace([c], None);
      var t := FlattenFrom(o, i, parent, false);
      var rest := FlattenFrom(o, i + 1, parent, false);
      assert t.calls == [c] + rest.calls;
      forall j | i <= j < |ps| ensures t.calls[j - i] == Emit(parent, ps[j].0, ps[j].1) {
        if j > i {
          assert t.calls[j - i] == rest.calls[j - (i + 1)];
        }
      }
    }
  }

  lemma ThenNothing(t: Trace)
    ensures Then(t, Trace([], None)) == t
  {
    assert t.calls + [] == t.calls;
  }

  /** A single leaf makes exactly one call, whatever its truthiness. */
  lemma LeafEntry(key: string, v: JsValue, parent: JsValue)
    requires Classify(v) == Leaf
    ensures Flatten(Obj([(key, v)]), parent, false) == Trace([Emit(parent, key, v)], None)
  {
    SingleKey(key, v, parent);
    assert [Emit(parent, key, v)] + [] == [Emit(parent, key, v)];
  }

  /** The walk over an object with one key is that key's entry. */
  lemma SingleKey(key: string, v: JsValue, parent: JsValue)
    ensures Flatten(Obj([(key, v)]), parent, false) == Then(EntryTrace(Obj([(key, v)]), 0, parent), Trace([], None))
    ensures EntryTrace(Obj([(key, v)]), 0, parent) ==
      match Classify(v)
      case Leaf => Trace([Emit(parent, key, v)], None)
      case ReadsNull => Trace([], Some(NullX))
      case Nested => Flatten(v, Str(key), false)
  {
    var o := Obj([(key, v)]);
    assert Enumerate(o) == [(key, v)];
    assert FlattenFrom(o, 1, parent, false) == Trace([], None);
  }

  /**
   An object value whose `.x` is falsy is walked into with its own key as
   `parentProp`, in incremental mode: the outer `parentProp` is dropped.
   */
  lemma {:induction false} NestedEntry(key: string, v: JsValue, parent: JsValue)
    requires Classify(v) == Nested
    ensures Flatten(Obj([(key, v)]), parent, false) == Flatten(v, Str(key), false)
  {
    SingleKey(key, v, parent);
    ThenNothing(Flatten(v, Str(key), false));
  }

  /** A `null` value throws when its `.x` is read, after setting nothing for it. */
  lemma NullEntry(key: string, parent: JsValue)
    ensures Flatten(Obj([(key, Null)]), parent, false) == Trace([], Some(NullX))
  {
    SingleKey(key, Null, parent);
  }

  /**
   The walk follows the key order: applying the keys `a` followed by the
   keys `b` makes the calls of `a` and then, unless `a` threw, those of `b`.
   With `NestedEntry` this is a depth-first, pre-order walk; calls made
   before an exception stay made.
   */
  lemma {:induction false} SplitKeys(a: seq<(string, JsValue)>, b: seq<(string, JsValue)>, parent: JsValue, batch: bool)
    ensures Flatten(Obj(a + b), parent, batch) == Then(Flatten(Obj(a), parent, batch), Flatten(Obj(b), parent, batch))
  {
    SplitKeysFrom(a, b, 0, parent, batch);
  }

  lemma {:induction false} SplitKeysFrom(a: seq<(string, JsValue)>, b: seq<(string, JsValue)>, i: nat, parent: JsValue, batch: bool)
    requires i <= |a|
    decreases |a| - i
    ensures FlattenFrom(Obj(a + b), i, parent, batch) ==
      Then(FlattenFrom(Obj(a), i, parent, batch), FlattenFrom(Obj(b), 0, parent, batch))
  {
    if i == |a| {
      ShiftKeys(a, b, 0, parent, batch);
      assert [] + FlattenFrom(Obj(b), 0, parent, batch).calls == FlattenFrom(Obj(b), 0, parent, batch).calls;
    } else if !batch {
      SplitKeysFrom(a, b, i + 1, parent, batch);
      assert (a + b)[i] == a[i];
      assert EntryTrace(Obj(a + b), i, parent) == EntryTrace(Obj(a), i, parent);
      ThenAssociative(EntryTrace(Obj(a), i, parent), FlattenFrom(Obj(a), i + 1, parent, batch), FlattenFrom(Obj(b), 0, parent, batch));
    }
  }

  lemma {:induction false} ShiftKeys(a: seq<(string, JsValue)>, b: seq<(string, JsValue)>, j: nat, parent: JsValue, batch: bool)
    requires j <= |b|
    decreases |b| - j
    ensures FlattenFrom(Obj(a + b), |a| + j, parent, batch) == FlattenFrom(Obj(b), j, parent, batch)
  {
    if j < |b| {
      ShiftKeys(a, b, j + 1, parent, batch);
      assert (a + b)[|a| + j] == b[j];
      assert EntryTrace(Obj(a + b), |a| + j, parent) == EntryTrace(Obj(b), j, parent);
    }
  }

  /**
   Some value the incremental walk of `o` reaches is `null`: a `null` among
   its values, or one reached inside a value that is walked into.
   */
  ghost predicate ReachesNull(o: JsValue)
    decreases o, 0
  {
    o.Obj? && exists j :: 0 <= j < |o.props| && NullBelow(o.props[j].1)
  }

  /** The value `v`, met as a property value, is `null` or leads to one. */
  ghost predicate NullBelow(v: JsValue)
    decreases v, 1
  {
    v.Null? || (Classify(v) == Nested && ReachesNull(v))
  }

  ghost predicate ReachesNullFrom(o: JsValue, i: nat)
  {
    o.Obj? && exists j :: i <= j < |o.props| && NullBelow(o.props[j].1)
  }

  lemma ReachesNullFromStep(o: JsValue, i: nat)
    requires i < |Enumerate(o)|
    ensures ReachesNullFrom(o, i) <==> (o.Obj? && NullBelow(o.props[i].1)) || ReachesNullFrom(o, i + 1)
  {
    if ReachesNullFrom(o, i) {
      var j :| i <= j < |o.props| && NullBelow(o.props[j].1);
      if j > i {
        assert ReachesNullFrom(o, i + 1);
      }
    }
  }

  /**
   In incremental mode the walk throws exactly when it reaches a `null`,
   and the exception is then always the TypeError for reading `.x`.
   */
  lemma NullIsTheOnlyThrow(o: JsValue, parent: JsValue)
    ensures Flatten(o, parent, false).thrown.Some? <==> ReachesNull(o)
    ensures Flatten(o, parent, false).thrown.Some? ==> Flatten(o, parent, false).thrown == Some(NullX)
  {
    NullIsTheOnlyThrowFrom(o, 0, parent);
  }

  lemma {:induction false} NullIsTheOnlyThrowFrom(o: JsValue, i: nat, parent: JsValue)
    requires i <= |Enumerate(o)|
    decreases o, |Enumerate(o)| - i, 1
    ensures FlattenFrom(o, i, parent, false).thrown.Some? <==> ReachesNullFrom(o, i)
    ensures FlattenFrom(o, i, parent, false).thrown.Some? ==> FlattenFrom(o, i, parent, false).thrown == Some(NullX)
  {
    if i < |Enumerate(o)| {
      NullIsTheOnlyThrowFrom(o, i + 1, parent);
      ReachesNullFromStep(o, i);
      WalkStep(o, i, parent, false);
      EntryThrowsOnNull(o, i, parent);
    }
  }

  /** The `i`-th entry throws exactly when its value is `null` or leads to one. */
  lemma {:induction false} EntryThrowsOnNull(o: JsValue, i: nat, parent: JsValue)
    requires i < |Enumerate(o)|
    decreases o, |Enumerate(o)| - i, 0
    ensures EntryTrace(o, i, parent).thrown.Some? <==> o.Obj? && NullBelow(o.props[i].1)
    ensures EntryTrace(o, i, parent).thrown.Some? ==> EntryTrace(o, i, parent).thrown == Some(NullX)
  {
    var (key, v) := Enumerate(o)[i];
    var entry := EntryTrace(o, i, parent);
    match Classify(v)
    case Leaf =>
      assert entry.thrown.None?;
      assert o.Obj? ==> !NullBelow(o.props[i].1);
    case ReadsNull =>
      EnumeratedNull(o, i);
      assert entry.thrown == Some(NullX);
    case Nested =>
      EnumeratedObjectsBelow(o, i);
      NullIsTheOnlyThrowFrom(v, 0, Str(key));
      assert entry == FlattenFrom(v, 0, Str(key), false);
      assert NullBelow(v) <==> ReachesNullFrom(v, 0);
  }

  /** A `null` among the enumerated values is an object's own value. */
  lemma EnumeratedNull(o: JsValue, i: nat)
    requires i < |Enumerate(o)| && Enumerate(o)[i].1.Null?
    ensures o.Obj? && o.props[i].1.Null?
  {
  }

  /** The number of leaves the incremental walk reaches, from the `i`-th key of `o` on. */
  ghost function LeafCountFrom(o: JsValue, i: nat): nat
    requires i <= |Enumerate(o)|
    decreases o, |Enumerate(o)| - i
  {
    if i == |Enumerate(o)| then 0
    else
      var v := Enumerate(o)[i].1;
      var here :=
        (match Classify(v)
         case Leaf => 1
         case ReadsNull => 0
         case Nested => EnumeratedObjectsBelow(o, i); LeafCountFrom(v, 0));
      here + LeafCountFrom(o, i + 1)
  }

  /** A walk that does not throw makes exactly one call per leaf it reaches. */
  lemma {:induction false} OneCallPerLeaf(o: JsValue, i: nat, parent: JsValue)
    requires i <= |Enumerate(o)|
    requires FlattenFrom(o, i, parent, false).thrown.None?
    decreases o, |Enumerate(o)| - i
    ensures |FlattenFrom(o, i, parent, false).calls| == LeafCountFrom(o, i)
  {
    if i < |Enumerate(o)| {
      NullIsTheOnlyThrowFrom(o, i, parent);
      var (key, v) := Enumerate(o)[i];
      var entry := EntryTrace(o, i, parent);
      assert entry.thrown.None?;
      OneCallPerLeaf(o, i + 1, parent);
      if Classify(v) == Nested {
        EnumeratedObjectsBelow(o, i);
        OneCallPerLeaf(v, 0, Str(key));
      }
    }
  }

  /** Under a string `parentProp` every call is the namespaced 3-argument form. */
  lemma {:induction false} NamespacedUnderParent(o: JsValue, i: nat, parent: JsValue, batch: bool)
    requires i <= |Enumerate(o)|
    requires parent.Str?
    decreases o, |Enumerate(o)| - i
    ensures forall c :: c in FlattenFrom(o, i, parent, batch).calls ==> c.Three?
  {
    if i < |Enumerate(o)| && !batch {
      NamespacedUnderParent(o, i + 1, parent, batch);
      var (key, v) := Enumerate(o)[i];
      if Classify(v) == Nested {
        EnumeratedObjectsBelow(o, i);
        NamespacedUnderParent(v, 0, Str(key), false);
      }
    }
  }

  /** `{pos: {x: 1, y: 2, z: 3}}`: a truthy `.x` makes the whole vector one 2-argument call. */
  lemma VectorIsOneCall()
    ensures
      var pos := Obj([("x", Num(1)), ("y", Num(2)), ("z", Num(3))]);
      Flatten(Obj([("pos", pos)]), Undefined, false) == Trace([Two("pos", pos)], None)
  {
    var pos := Obj([("x", Num(1)), ("y", Num(2)), ("z", Num(3))]);
    LeafEntry("pos", pos, Undefined);
  }

  /** `{material: {color: "red"}}`: no `.x`, so the inner key is set under the namespace "material". */
  lemma MaterialIsNamespaced()
    ensures Flatten(Obj([("material", Obj([("color", Str("red"))]))]), Undefined, false) ==
      Trace([Three("material", "color", Str("red"))], None)
  {
    NestedEntry("material", Obj([("color", Str("red"))]), Undefined);
    LeafEntry("color", Str("red"), Str("material"));
  }

  /** `{a: 1, b: 2}` in batch mode: the first key throws, nothing is set. */
  lemma BatchFlatTreeThrows()
    ensures Flatten(Obj([("a", Num(1)), ("b", Num(2))]), Undefined, true) == Trace([], Some(PropsUndeclared))
  {
    BatchMode(Obj([("a", Num(1)), ("b", Num(2))]), Undefined);
  }
}
