/**
 The element name `RVRutils.createEntity(name, properties)` creates: a
 string `name` that begins with "a-" names an A-Frame primitive and is used
 as given; anything else yields a plain "a-entity".
 */
module EntityTag {
  import opened JsValues

  /** `p` occurs in `s` starting at position `k`. */
  predicate OccursAt(s: string, p: string, k: int)
  {
    0 <= k && k + |p| <= |s| && s[k..k + |p|] == p
  }

  /** `s.indexOf(p, i)`: the first position at or after `i` where `p` occurs in `s`, or -1. */
  function IndexOfFrom(s: string, p: string, i: nat): (r: int)
    requires i <= |s|
    decreases |s| - i
    ensures r == -1 || (i <= r && OccursAt(s, p, r))
    ensures r == -1 ==> forall k :: i <= k ==> !OccursAt(s, p, k)
    ensures r != -1 ==> forall k :: i <= k < r ==> !OccursAt(s, p, k)
  {
    if OccursAt(s, p, i) then i
    else if i + |p| >= |s| then -1
    else IndexOfFrom(s, p, i + 1)
  }

  function IndexOf(s: string, p: string): int
  {
    IndexOfFrom(s, p, 0)
  }

  /** `s.indexOf(p) == 0` holds exactly when `p` is a prefix of `s`. */
  lemma IndexOfZeroIsPrefix(s: string, p: string)
    ensures IndexOf(s, p) == 0 <==> p <= s
  {
    if p <= s {
      assert OccursAt(s, p, 0);
    }
  }

  /** The tag chosen at the start of `createEntity`. */
  function EntityTagName(name: JsValue): (tag: string)
    ensures |tag| >= 2 && tag[..2] == "a-"
    ensures name.Str? && "a-" <= name.s ==> tag == name.s
    ensures !(name.Str? && "a-" <= name.s) ==> tag == "a-entity"
  {
    IndexOfZeroIsPrefix(if name.Str? then name.s else "", "a-");
    if TypeOf(name) == "string" && IndexOf(name.s, "a-") == 0 && name != Null then name.s
    else "a-entity"
  }
}
