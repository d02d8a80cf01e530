/**
 The slice of JavaScript's value semantics that the utilities rely on:
 values, truthiness, `typeof`, the string a value becomes when it is used as
 a property key or interpolated into a template literal, the own enumerable
 properties that `for…in` visits, and property reads and writes on plain
 objects.

 An object is an ordered list of (key, value) pairs in the order `for…in`
 enumerates them; a well-formed object has no key twice (`UniqueKeys`).
 */
module JsValues {

  datatype JsValue =
    | Undefined
    | Null
    | Bool(b: bool)
    | Num(n: int)
    | Str(s: string)
    | Obj(props: seq<(string, JsValue)>)

  /** Exceptions that reach the caller of a utility. */
  datatype Exception =
    /** `throw new TypeError(message)` in the utility itself */
    | TypeError(message: string)
    /** the TypeError the engine raises when a property of `null` is read */
    | NullPropertyRead(property: string)
    /** the ReferenceError the engine raises when code reads an undeclared identifier */
    | UndeclaredReference(name: string)

  datatype Option<+T> = None | Some(value: T)

  /** JavaScript's ToBoolean: `undefined`, `null`, `false`, `0` and `""` are falsy. */
  predicate Truthy(v: JsValue)
  {
    match v
    case Undefined => false
    case Null => false
    case Bool(b) => b
    case Num(n) => n != 0
    case Str(s) => s != ""
    case Obj(_) => true
  }

  /** The `typeof` operator; note that `typeof null` is "object". */
  function TypeOf(v: JsValue): (t: string)
    ensures t == "object" <==> v.Null? || v.Obj?
  {
    match v
    case Undefined => "undefined"
    case Null => "object"
    case Bool(_) => "boolean"
    case Num(_) => "number"
    case Str(_) => "string"
    case Obj(_) => "object"
  }

  /**
   The idiom `v && typeof v == 'object'` accepts exactly the (non-null)
   objects: `null` passes the `typeof` test but is falsy.
   */
  lemma TruthyObjectIsObj(v: JsValue)
    ensures (Truthy(v) && TypeOf(v) == "object") <==> v.Obj?
  {
  }

  function DigitChar(d: nat): (c: char)
    requires d < 10
    ensures '0' <= c <= '9' && c as int - '0' as int == d
  {
    ('0' as int + d) as char
  }

  /**
   Decimal representation of a natural number, as JavaScript's ToString
   writes a number below 10^21 (larger ones it writes in exponent form).
   */
  function NatToString(n: nat): (s: string)
    ensures 1 <= |s|
    ensures forall i :: 0 <= i < |s| ==> '0' <= s[i] <= '9'
    ensures (n < 10) == (|s| == 1)
  {
    if n < 10 then [DigitChar(n)] else NatToString(n / 10) + [DigitChar(n % 10)]
  }

  /** Distinct numbers have distinct decimal representations. */
  lemma {:induction false} NatToStringInjective(a: nat, b: nat)
    requires NatToString(a) == NatToString(b)
    ensures a == b
  {
    if 10 <= a && 10 <= b {
      var sa, sb := NatToString(a), NatToString(b);
      assert DigitChar(a % 10) == sa[|sa| - 1] == sb[|sb| - 1] == DigitChar(b % 10);
      assert NatToString(a / 10) == sa[..|sa| - 1] == sb[..|sb| - 1] == NatToString(b / 10);
      NatToStringInjective(a / 10, b / 10);
    }
  }

  /** The number a string of decimal digits denotes. */
  function DecimalValue(s: string): int
  {
    if s == [] then 0 else 10 * DecimalValue(s[..|s| - 1]) + (s[|s| - 1] as int - '0' as int)
  }

  /** `NatToString(n)` spells `n` in decimal, with no leading zero. */
  lemma {:induction false} NatToStringValue(n: nat)
    ensures DecimalValue(NatToString(n)) == n
    ensures 0 < n ==> NatToString(n)[0] != '0'
  {
    if 10 <= n {
      var s := NatToString(n);
      NatToStringValue(n / 10);
      assert s[..|s| - 1] == NatToString(n / 10);
    }
  }

  function IntToString(n: int): string
  {
    if n < 0 then "-" + NatToString(-n) else NatToString(n)
  }

  /**
   ToString of a value, used both for a computed property key `o[k]` and
   for `${k}` in a template literal; a plain object becomes
   "[object Object]".
   */
  function ToJsString(v: JsValue): string
  {
    match v
    case Undefined => "undefined"
    case Null => "null"
    case Bool(b) => if b then "true" else "false"
    case Num(n) => IntToString(n)
    case Str(s) => s
    case Obj(_) => "[object Object]"
  }

  function KeySet(ps: seq<(string, JsValue)>): set<string>
  {
    if ps == [] then {} else {ps[0].0} + KeySet(ps[1..])
  }

  predicate UniqueKeys(ps: seq<(string, JsValue)>)
  {
    forall i, j :: 0 <= i < j < |ps| ==> ps[i].0 != ps[j].0
  }

  /** Reading `o[k]` on an object with properties `ps`; a missing key reads as `undefined`. */
  function Lookup(ps: seq<(string, JsValue)>, k: string): (v: JsValue)
    ensures k !in KeySet(ps) ==> v == Undefined
    ensures forall i :: 0 <= i < |ps| && ps[i].0 == k && UniqueKeys(ps) ==> v == ps[i].1
  {
    if ps == [] then Undefined
    else if ps[0].0 == k then ps[0].1
    else Lookup(ps[1..], k)
  }

  /**
   Writing `o[k] = v`: an existing key keeps its place in the enumeration
   order and takes the new value; a new key is enumerated last.
   */
  function Put(ps: seq<(string, JsValue)>, k: string, v: JsValue): (r: seq<(string, JsValue)>)
    ensures Lookup(r, k) == v
    ensures forall j :: j != k ==> Lookup(r, j) == Lookup(ps, j)
  {
    if ps == [] then [(k, v)]
    else if ps[0].0 == k then [(k, v)] + ps[1..]
    else [ps[0]] + Put(ps[1..], k, v)
  }

  /** The keys after a write: the written key is added and nothing is moved. */
  lemma {:induction false} PutKeys(ps: seq<(string, JsValue)>, k: string, v: JsValue)
    ensures KeySet(Put(ps, k, v)) == KeySet(ps) + {k}
    ensures |Put(ps, k, v)| == if k in KeySet(ps) then |ps| else |ps| + 1
    ensures forall i :: 0 <= i < |ps| ==> Put(ps, k, v)[i].0 == ps[i].0
  {
    if ps != [] && ps[0].0 != k {
      PutKeys(ps[1..], k, v);
      assert Put(ps, k, v)[1..] == Put(ps[1..], k, v);
    }
  }

  /** `KeySet` holds exactly the keys that occur in the list. */
  lemma {:induction false} KeySetIff(ps: seq<(string, JsValue)>, k: string)
    ensures k in KeySet(ps) <==> exists i :: 0 <= i < |ps| && ps[i].0 == k
  {
    if ps != [] {
      KeySetIff(ps[1..], k);
      if exists i :: 0 <= i < |ps[1..]| && ps[1..][i].0 == k {
        var i :| 0 <= i < |ps[1..]| && ps[1..][i].0 == k;
        assert ps[i + 1].0 == k;
      }
      if exists i :: 0 <= i < |ps| && ps[i].0 == k {
        var i :| 0 <= i < |ps| && ps[i].0 == k;
        if i > 0 {
          assert ps[1..][i - 1].0 == k;
        }
      }
    }
  }

  /** A write never introduces a duplicate key. */
  lemma {:induction false} PutKeepsUnique(ps: seq<(string, JsValue)>, k: string, v: JsValue)
    requires UniqueKeys(ps)
    ensures UniqueKeys(Put(ps, k, v))
  {
    if ps != [] && ps[0].0 != k {
      var rest := Put(ps[1..], k, v);
      PutKeepsUnique(ps[1..], k, v);
      PutKeys(ps[1..], k, v);
      assert forall i :: 0 <= i < |ps[1..]| ==> ps[1..][i].0 != ps[0].0;
      KeySetIff(ps[1..], ps[0].0);
      var r := Put(ps, k, v);
      assert r == [ps[0]] + rest;
      forall j | 0 < j < |r| ensures r[j].0 != ps[0].0 {
        KeySetIff(rest, r[j].0);
      }
    }
  }

  /** The pairs `for (let key in v)` visits, each with `v[key]`. */
  function Enumerate(v: JsValue): (ps: seq<(string, JsValue)>)
    ensures v.Obj? ==> ps == v.props
    ensures v.Str? ==> |ps| == |v.s|
    ensures v.Str? ==> forall i :: 0 <= i < |ps| ==> ps[i] == (NatToString(i), Str([v.s[i]]))
    ensures !v.Obj? && !v.Str? ==> ps == []
  {
    match v
    case Obj(props) => props
    case Str(s) => seq(|s|, i requires 0 <= i < |s| => (NatToString(i), Str([s[i]])))
    case _ => []
  }

  /** Only an object's own values can be objects, and they are smaller than it. */
  lemma EnumeratedObjectsBelow(v: JsValue, i: nat)
    requires i < |Enumerate(v)| && Enumerate(v)[i].1.Obj?
    ensures v.Obj? && Enumerate(v)[i].1 < v
  {
  }

  /** A string's index keys are pairwise distinct, so `for…in` over a string never repeats a key. */
  lemma StringKeysUnique(s: string)
    ensures UniqueKeys(Enumerate(Str(s)))
  {
    var ps := Enumerate(Str(s));
    forall i, j | 0 <= i < j < |ps| ensures ps[i].0 != ps[j].0 {
      if ps[i].0 == ps[j].0 {
        NatToStringInjective(i, j);
      }
    }
  }
}
