/**
 `RVRutils.getPalette(variables, name)`: picks a colour/opacity palette out
 of `variables.palettes`. The bundle is validated first (a `TypeError` is
 thrown if `variables` or `variables.palettes` is not an object). With a
 truthy name, the result is that palette if it is an object, else
 `palettes.default`; with no name, it is the entry `variables.userPalette`
 names if the key and the entry are truthy, else `palettes.default`. Every
 fallback to the default writes one line to the console, which the model
 returns in `log`.
 */
module Palettes {
  import opened JsValues

  datatype LogEntry = ConsoleError(message: string) | ConsoleWarn(message: string)

  datatype PaletteResult =
    | Returned(palette: JsValue, log: seq<LogEntry>)
    | Threw(error: Exception)

  const VariablesEmpty := TypeError("variables are empty")
  const PalettesMissing := TypeError("palettes is undefined in variables, or is not an object")
  const UserPaletteMissing := ConsoleWarn("User palette is not defined, will use a default one instead")

  function NamedPaletteMissing(name: JsValue): LogEntry
  {
    ConsoleError("Palette \"" + ToJsString(name) + "\" doesn't exist, will use a default one instead")
  }

  /** `variables.palettes`, once `variables` is known to be an object. */
  function PalettesOf(variables: JsValue): JsValue
    requires variables.Obj?
  {
    Lookup(variables.props, "palettes")
  }

  /** `variables.palettes[key]`, once `variables.palettes` is known to be an object. */
  function Entry(variables: JsValue, key: JsValue): JsValue
    requires variables.Obj? && PalettesOf(variables).Obj?
  {
    Lookup(PalettesOf(variables).props, ToJsString(key))
  }

  /** `variables.palettes.default` */
  function DefaultPalette(variables: JsValue): JsValue
    requires variables.Obj? && PalettesOf(variables).Obj?
  {
    Lookup(PalettesOf(variables).props, "default")
  }

  /** A bundle that passes both structural checks. */
  predicate ValidBundle(variables: JsValue)
  {
    variables.Obj? && PalettesOf(variables).Obj?
  }

  function UserPalette(variables: JsValue): JsValue
    requires variables.Obj?
  {
    Lookup(variables.props, "userPalette")
  }

  function GetPalette(variables: JsValue, name: JsValue): (r: PaletteResult)
    // the two structural checks, in this order, are the only ways to throw
    ensures !variables.Obj? ==> r == Threw(VariablesEmpty)
    ensures variables.Obj? && !PalettesOf(variables).Obj? ==> r == Threw(PalettesMissing)
    ensures r.Threw? <==> !ValidBundle(variables)
    // an explicit name: the named object, or the default with one console.error
    ensures ValidBundle(variables) && Truthy(name) ==>
      r == if Entry(variables, name).Obj? then Returned(Entry(variables, name), [])
           else Returned(DefaultPalette(variables), [NamedPaletteMissing(name)])
    // no name: the user palette if the key and the entry are both truthy (of any type),
    // else the default with one console.warn
    ensures ValidBundle(variables) && !Truthy(name) ==>
      r == if Truthy(UserPalette(variables)) && Truthy(Entry(variables, UserPalette(variables)))
           then Returned(Entry(variables, UserPalette(variables)), [])
           else Returned(DefaultPalette(variables), [UserPaletteMissing])
  {
    if Truthy(variables) && TypeOf(variables) == "object" then
      var palettes := Lookup(variables.props, "palettes");
      if Truthy(palettes) && TypeOf(palettes) == "object" then
        if Truthy(name) then
          var named := Lookup(palettes.props, ToJsString(name));
          if Truthy(named) && TypeOf(named) == "object" then Returned(named, [])
          else Returned(Lookup(palettes.props, "default"), [NamedPaletteMissing(name)])
        else
          var user := Lookup(variables.props, "userPalette");
          if Truthy(user) && Truthy(Lookup(palettes.props, ToJsString(user))) then
            Returned(Lookup(palettes.props, ToJsString(user)), [])
          else
            Returned(Lookup(palettes.props, "default"), [UserPaletteMissing])
      else Threw(PalettesMissing)
    else Threw(VariablesEmpty)
  }

  /**
   Validation happens before `name` is consulted: an invalid bundle throws
   the same error whatever name is passed.
   */
  lemma ValidationIgnoresName(variables: JsValue, name1: JsValue, name2: JsValue)
    requires GetPalette(variables, name1).Threw?
    ensures GetPalette(variables, name2) == GetPalette(variables, name1)
  {
  }

  /** Every falsy name — `undefined`, `null`, `false`, `0`, `""` — is treated as no name at all. */
  lemma FalsyNamesAgree(variables: JsValue, name: JsValue)
    requires !Truthy(name)
    ensures GetPalette(variables, name) == GetPalette(variables, Undefined)
  {
  }

  /**
   At most one console line per call, and exactly one when the result came
   from `palettes.default`: a result with an empty log is the truthy entry
   that was asked for, a result with a log entry is the default.
   */
  lemma OneDiagnosticPerFallback(variables: JsValue, name: JsValue)
    requires GetPalette(variables, name).Returned?
    ensures |GetPalette(variables, name).log| <= 1
    ensures GetPalette(variables, name).log == [] ==> Truthy(GetPalette(variables, name).palette)
    ensures GetPalette(variables, name).log != [] ==>
      GetPalette(variables, name).palette == DefaultPalette(variables)
    ensures GetPalette(variables, name).log != [] ==>
      (GetPalette(variables, name).log[0].ConsoleError? <==> Truthy(name))
  {
  }

  /**
   The explicit name is looked up under its string form: a positive number
   `n` below 10^21 selects the palette stored under its decimal
   representation.
   */
  lemma NumericNameIsStringKey(variables: JsValue, n: nat, p: JsValue)
    requires ValidBundle(variables)
    requires 0 < n < 1_000_000_000_000_000_000_000 && p.Obj?
    requires UniqueKeys(PalettesOf(variables).props)
    requires (NatToString(n), p) in PalettesOf(variables).props
    ensures GetPalette(variables, Num(n)) == Returned(p, [])
  {
    var ps := PalettesOf(variables).props;
    var i :| 0 <= i < |ps| && ps[i] == (NatToString(n), p);
  }

  /** `getPalette(null)` and `getPalette({})` throw, whatever the name. */
  lemma EmptyBundlesThrow(name: JsValue)
    ensures GetPalette(Null, name) == Threw(VariablesEmpty)
    ensures GetPalette(Obj([]), name) == Threw(PalettesMissing)
  {
  }
}
