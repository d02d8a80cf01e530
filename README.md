# rvr-utils in Dafny

A model of the `RVRutils` helper class used by an A-Frame scene:

- `mixin(target, source)` copies every enumerable property of `source` onto
  `target` in place and returns `target` (module `Mixin`, file `mixin.dfy`).
- `getPalette(variables, name)` validates a configuration bundle and picks a
  colour/opacity palette: with a truthy name, that palette if it is an
  object, else `palettes.default`; with no name, the `userPalette` entry if
  the key and the entry are truthy, else `palettes.default`; every fallback
  writes one console line (module `Palettes`, file `palette.dfy`).
- `setProperties({entity, properties, parentProp, batch})` walks a property
  tree with `for…in` and turns it into `entity.setAttribute` calls, either the
  2-argument form or the 3-argument form namespaced by `parentProp` (module
  `Properties`, file `properties.dfy`).
- `createEntity(name, properties)` chooses the element name and applies the
  properties in batch mode (modules `EntityTag` and `Entities`, files
  `entity_tag.dfy` and `create_entity.dfy`).

The JavaScript values these functions handle are the datatype
`JsValues.JsValue` (`undefined`, `null`, booleans, integers, strings, and
plain objects as an ordered list of key/value pairs in `for…in` order),
together with truthiness, `typeof` (including `typeof null == "object"`),
the string a value becomes as a property key or in a template literal, the
pairs `for…in` visits (for a string, its index keys "0", "1", …), and
property reads and writes (`Lookup`, `Put`).

`mixin` is a method that takes a `JsObject`, an object whose `props` field
the loop rewrites; it is proved against the pure function `Mixin.PutAll`.
`setProperties` is a recursive method that takes an `Entity`, an object
whose call log grows with each `setAttribute`; it is proved against the pure function
`Properties.Flatten`, about which the walk's properties are proved.
`getPalette` is a pure function whose result carries either the returned
palette and the console lines written, or the thrown error.

The model follows the code as written where it differs from the documented
intent:

- In batch mode `setProperties` reads `props[key]`, and `props` is not
  declared anywhere; unless a global binding of that name exists, reading
  it throws a
  ReferenceError on the first key, before any attribute is set. The model
  returns that exception (`Properties.PropsUndeclared`) instead of setting
  every top-level key. As a consequence `createEntity` with a property
  object that has at least one key always throws.
- The incremental-mode test is whether `.x` is truthy, not whether a key `x`
  is present: `{x: 0, y: 1}` and `{}` are walked into, `{x: 1, y: 2}` is set
  whole. A `null` value passes the `typeof … == 'object'` test and then
  throws a TypeError when its `.x` is read.
- A walked-into object is applied with `parentProp` set to its own key, so
  only the innermost enclosing key is the namespace.
- In `getPalette` the user-palette branch checks only that
  `variables.userPalette` and the entry it names are truthy, not that the
  entry is an object.

## Model

| member | source | states |
|---|---|---|
| `JsValues.TypeOf` | src/rvr-utils.js:27-28 | `typeof v` is "object" exactly for `null` and objects |
| `JsValues.TruthyObjectIsObj` | src/rvr-utils.js:27-28 | the guard `v && typeof v == 'object'` accepts exactly the non-null objects |
| `JsValues.NatToString` | src/rvr-utils.js:14 | the key of a string index is a non-empty run of decimal digits, one digit exactly below 10 |
| `JsValues.NatToStringValue` | src/rvr-utils.js:14 | the key of a string index spells the index in decimal (`DecimalValue` of it is the index), with no leading zero |
| `JsValues.NatToStringInjective` | src/rvr-utils.js:14 | distinct indices give distinct keys |
| `JsValues.StringKeysUnique` | src/rvr-utils.js:14 | `for…in` over a string never visits a key twice |
| `JsValues.Enumerate` | src/rvr-utils.js:82 | `for…in` visits an object's own pairs in order, for a string the pair (decimal index, one-character string) for each position in order, and nothing for `undefined`, `null`, booleans and numbers |
| `JsValues.Lookup` | src/rvr-utils.js:31 | reading a missing key gives `undefined`; reading a present key of a well-formed object gives its value |
| `JsValues.Put` | src/rvr-utils.js:15 | after `o[k] = v`, `o[k]` reads `v` and every other key reads as before |
| `JsValues.PutKeys` | src/rvr-utils.js:15 | a write adds its key to the key set, grows the object only for a new key, and moves no existing key |
| `JsValues.PutKeepsUnique` | src/rvr-utils.js:15 | a write never creates a duplicate key |
| `Mixin.JsObject.Get` | src/rvr-utils.js:15 | a key the object lacks reads as `undefined`; a present key of a well-formed object reads as its value |
| `Mixin.JsObject.Set` | src/rvr-utils.js:15 | the object's properties become the write of `k` and `v` into the old ones, and stay free of duplicates |
| `Mixin.Mixin` | src/rvr-utils.js:13-18 | returns the same `target`; its properties become the old ones with every enumerated source pair written in order; each source key then reads as the source value; every other key reads as before |
| `Mixin.PutAllSourceWins` | src/rvr-utils.js:14-15 | after the copy every key of a well-formed source reads as the source's value |
| `Mixin.PutAllKeepsOthers` | src/rvr-utils.js:14-15 | keys the source lacks read as they did before the copy |
| `Mixin.PutAllKeys` | src/rvr-utils.js:14-15 | the key set after the copy is the union of both key sets; the target's keys stay first, in order, and distinct |
| `Mixin.PutSameValue` | src/rvr-utils.js:15 | writing a key back with the value it already has leaves the object unchanged |
| `Mixin.PutAllIdempotent` | src/rvr-utils.js:13-18 | mixing the same source in a second time changes nothing |
| `Palettes.GetPalette` | src/rvr-utils.js:26-51 | throws `TypeError('variables are empty')` for a non-object, then `TypeError('palettes is undefined…')` for missing palettes, and only then; with a truthy name returns the named object entry without a log line, else `palettes.default` with one `console.error`; with a falsy name returns the user palette entry when the key and the entry are truthy, else `palettes.default` with one `console.warn` |
| `Palettes.ValidationIgnoresName` | src/rvr-utils.js:27-50 | a bundle that fails validation throws the same error whatever name is passed |
| `Palettes.FalsyNamesAgree` | src/rvr-utils.js:30-44 | every falsy name, `""` included, behaves like no name at all |
| `Palettes.OneDiagnosticPerFallback` | src/rvr-utils.js:30-44 | at most one console line per call; no line means a truthy entry was found; a line means `palettes.default` was returned, and it is a `console.error` exactly when a name was given |
| `Palettes.NumericNameIsStringKey` | src/rvr-utils.js:31-32 | in any well-formed palettes object, a positive numeric name below 10^21 selects the object palette stored under its decimal string, with no log line |
| `Palettes.EmptyBundlesThrow` | src/rvr-utils.js:27-50 | `getPalette(null)` and `getPalette({})` throw the two validation errors |
| `Properties.ThenAssociative` | src/rvr-utils.js:82-92 | sequencing parts of the walk is associative |
| `Properties.Emit` | src/rvr-utils.js:88 | the call is the 3-argument form namespaced by `parentProp` exactly when `parentProp` is a string, and always carries the key and the value |
| `Properties.Classify` | src/rvr-utils.js:87-89 | a value throws exactly when it is `null`, is walked into exactly when it is an object with a falsy `.x`, and is a leaf otherwise |
| `Properties.Entity.SetAttribute` | src/rvr-utils.js:88 | appends one 2-argument call to the entity's log |
| `Properties.Entity.SetAttributeNs` | src/rvr-utils.js:88 | appends one 3-argument call to the entity's log |
| `Properties.WalkStep` | src/rvr-utils.js:82-92 | one turn of the loop: batch mode throws at once; an entry that throws ends the walk; otherwise the entry's calls precede those of the remaining keys |
| `Properties.SetProperties` | src/rvr-utils.js:80-94 | the entity's log grows by exactly the calls of `Flatten(properties, parentProp, batch is truthy)`, and the exception returned is the one that walk throws |
| `Properties.LoopTurn` | src/rvr-utils.js:82-92 | one turn of the loop appends calls which, followed by the calls of the remaining keys, are the walk's calls from this key on; when it throws, its calls and exception are the walk's |
| `Properties.ApplyEntry` | src/rvr-utils.js:84-91 | one loop iteration in incremental mode appends exactly that entry's calls and returns its exception |
| `Properties.BatchMode` | src/rvr-utils.js:84-85 | batch mode sets nothing; it throws the ReferenceError for `props` when there is at least one key and returns normally otherwise |
| `Properties.FlatTree` | src/rvr-utils.js:82-88 | a tree of leaves makes one call per key, in key order, each in the form `parentProp` selects, falsy leaves included, and does not throw |
| `Properties.LeafEntry` | src/rvr-utils.js:87-88 | a single leaf makes exactly one call |
| `Properties.NestedEntry` | src/rvr-utils.js:89-90 | an object with a falsy `.x` is walked in incremental mode under its own key, whatever the outer `parentProp` |
| `Properties.NullEntry` | src/rvr-utils.js:87 | a `null` value throws the TypeError for reading `.x` and sets nothing |
| `Properties.SplitKeys` | src/rvr-utils.js:82-92 | the keys are applied in enumeration order: the calls for a prefix of the keys come first, and the rest run only if the prefix did not throw |
| `Properties.NullIsTheOnlyThrow` | src/rvr-utils.js:87 | incremental mode throws exactly when the walk reaches a `null` value, and then always the TypeError for `.x` |
| `Properties.EntryThrowsOnNull` | src/rvr-utils.js:87-90 | one key's value throws exactly when it is `null` or a walked-into object that reaches one, and then with the TypeError for `.x` |
| `Properties.OneCallPerLeaf` | src/rvr-utils.js:82-92 | a walk that does not throw makes exactly one call per leaf it reaches |
| `Properties.NamespacedUnderParent` | src/rvr-utils.js:88-90 | under a string `parentProp` every call made, nested ones included, is the 3-argument form |
| `Properties.VectorIsOneCall` | src/rvr-utils.js:87-88 | `{pos: {x: 1, y: 2, z: 3}}` makes the single call `setAttribute("pos", {x: 1, y: 2, z: 3})` |
| `Properties.MaterialIsNamespaced` | src/rvr-utils.js:87-90 | `{material: {color: "red"}}` makes the single call `setAttribute("material", "color", "red")` |
| `Properties.BatchFlatTreeThrows` | src/rvr-utils.js:84-85 | `{a: 1, b: 2}` in batch mode throws the ReferenceError and sets nothing |
| `EntityTag.IndexOfFrom` | src/rvr-utils.js:62 | `s.indexOf(p, i)` is the first position at or after `i` where `p` occurs, or -1 when there is none |
| `EntityTag.IndexOfZeroIsPrefix` | src/rvr-utils.js:62 | `s.indexOf(p) == 0` holds exactly when `p` is a prefix of `s` |
| `EntityTag.EntityTagName` | src/rvr-utils.js:62-66 | a string beginning with "a-" is the element name as given; anything else gives "a-entity" |
| `Entities.CreateEntity` | src/rvr-utils.js:60-71 | the new element has the chosen name and no attribute set; it throws the ReferenceError for `props` exactly when `properties` is an object with at least one key |

## Left out

- The element itself: `document.createElement` is host code; an element is modelled by its name and the log of `setAttribute` calls made on it. What A-Frame's `setAttribute` does with a call is not modelled.
- `document.createElement` throwing for a name that is not a valid element name (for instance "a-" followed by a space) is not modelled.
- `console.error` and `console.warn` are modelled as entries in the returned log, not as output.
- Numbers are integers: `NaN`, fractions, `-0` and `Infinity`, and their string forms, are not modelled. Objects are plain, finite and acyclic, with own enumerable properties only: inherited properties, getters, setters, arrays, functions, symbols and frozen objects are not modelled.
- The engine's enumeration order that puts integer-like keys first in ascending order is not modelled: an object's pairs are enumerated in list order, and a new key is appended last.
- Stack overflow on a very deep tree is not modelled.
- `JsValues.ToJsString`: integers are unbounded and always written in full decimal. JavaScript holds integers exactly only up to 2^53, and it writes 10^21 and above in exponent form ("1e+21"). So for such a numeric `name` or `userPalette`, `getPalette` looks up a different key and logs a different message than the model does.
- `Properties.Classify`: the TypeError raised when `.x` of `null` is read has a message of the engine's own; the model records only which property was read.
- `Properties.BatchMode`: the ReferenceError for `props` assumes no global binding named `props` exists. A module still resolves free identifiers through the global object, for example `window.props` or an element with id "props". With such a binding, batch mode would call `setAttribute(key, props[key])` for every key; that case is not modelled.
- `JsValues.Enumerate`: a string is a sequence of Unicode characters, while JavaScript indexes strings by UTF-16 code units. A character outside the Basic Multilingual Plane (an emoji, say) is one key here, but two keys in JavaScript, each holding a lone surrogate. So `mixin` and `setProperties` with such a string source make fewer writes or calls in the model.
- `Mixin.Mixin`: the target is modelled as an object of its own. If `target` and `source` are the same object, the source's pairs are read before the copy starts; in JavaScript they would be read during it, which gives the same result only because each write keeps the value it reads. A non-object or frozen target is not modelled.
- Sharing is not modelled: `mixin` copies references, so a nested object of the source is the same object in the target afterwards. In a value model it is only an equal value.
- `Palettes.GetPalette`: `variables` is a value, so its non-mutation is only implied by the function having no effects.
- Destructuring a `null` or `undefined` options argument in `setProperties` throws a TypeError before the loop. This is not modelled: `SetProperties` takes the destructured fields as parameters. The default `batch = false` is modelled by treating `batch` by its truthiness, so an absent `batch` means incremental mode.
- The unused `let prop;` in the loop has no behaviour. The implicit `else` after `else if (typeof … == 'object')` cannot be reached: a value that is not of type 'object' always takes the first branch.
