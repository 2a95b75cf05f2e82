# cinzel — a Dafny model of the schema validator

cinzel is a small runtime schema validator. A schema maps field names to
`Property` rules. `create(definition)` turns a schema into a model class.
Instances of that class are checked when they are built and again on every
later assignment to a field, through the set trap of a `Proxy`. Deleting a
field or defining it with `Object.defineProperty` does not go through that
trap and is not modelled (see Left out). An instance can be exported back to a plain object.

The model covers the whole of `lib/cinzel.js`:

- `Values` — JavaScript values (`undefined`, `null`, booleans, numbers,
  strings, Dates, plain objects), truthiness, `_.isObject`, property reads,
  and plain objects as `Record`s: ordered own keys plus their values.
- `Errors` — the error kinds and the exact messages they carry.
- `Properties` — the `Property` rule: the constructor, the four preset
  getters, `isRequired`, `setKey` and `check`. The lodash predicates become
  a `Kind` sum type with `Accepts`.
- `Models` — `create`, the set trap of the instance proxy, the `_init`
  loop (`Populate`), the constructor (`Construct`) and `toPlainObject`.
  The JavaScript `Proxy` becomes an explicit
  `Set(model, instance, key, value)` that returns the new instance or the
  thrown error. `Set` is the corrected trap (see Findings): as written,
  a write outside the schema to a name `Object.prototype` defines throws a
  TypeError, and `Models.SetAsWritten` keeps the trap as the code has it.
- `ModelFacts` — properties that relate several operations: the standing
  validity invariant, first-failure-wins reporting, the round trip through
  `toPlainObject`, and the two places where the code departs from its
  evident intent.
- `Scenarios` — the documented behaviour on concrete schemas, derived from
  the general contracts.

`Valid(model, instance)` is the standing invariant. It says every schema
field's current value satisfies its rule: an absent value (`undefined` or
`null`) only if the rule is optional, and a present value only if the
rule's predicate admits it. It is kept by assignments, the only writes the
model has; it is not claimed for deletions or property definitions.

The error for `new Model(...)` with a bad argument follows the corrected
guard (see Findings). `Models.ConstructAsWritten` keeps the guard as the
code has it.

## Model

| member | source | states |
|---|---|---|
| `Errors.MessageLayout` | lib/cinzel.js:54-57 | the `Message` of a Missing error is "Missing: ", the field, then " is required"; a Wrong Type message is "Wrong Type: ", the field, " should be type ", then the type label |
| `Errors.MissingAndWrongTypeDiffer` | lib/cinzel.js:54-57 | a "Missing" message never equals a "Wrong Type" message |
| `Errors.MissingMessageNamesField` | lib/cinzel.js:54 | equal "Missing" messages name the same field |
| `Errors.WrongTypeMessageNamesField` | lib/cinzel.js:57 | for one type label, equal "Wrong Type" messages name the same field |
| `Properties.NewProperty` | lib/cinzel.js:29-34 | a new rule is optional and unbound; with no checker it admits nothing; with a lodash checker it admits exactly that predicate's values; a given type name is kept and a missing one becomes "" |
| `Properties.Accepts` | lib/cinzel.js:8-20 | the preset predicates accept no `undefined`, `null`, boolean or plain object; a value accepted by one predicate is a number exactly for Number and Integer, a string exactly for String and a Date exactly for Date (the four type families are disjoint; that Integer values are Numbers is `IntegerValuesAreNumbers`) |
| `Properties.Preset` | lib/cinzel.js:7-21 | a preset getter gives an optional, unbound rule labelled with its kind whose checker admits exactly the kind's values |
| `Properties.IsRequired` | lib/cinzel.js:39-42 | `isRequired` makes the rule required and keeps its checker, label and key |
| `Properties.SetKey` | lib/cinzel.js:44-47 | `setKey` binds the given key and keeps the checker, label and required flag |
| `Properties.PresetIsFreshAndOptional` | lib/cinzel.js:7-21 | each preset getter gives a new optional, unbound rule with its kind's label that passes `undefined`/`null` and passes a present value iff the kind's predicate accepts it |
| `Properties.PresetLabelsDiffer` | lib/cinzel.js:7-21 | different presets carry different type labels |
| `Properties.IntegerValuesAreNumbers` | lib/cinzel.js:7-12 | every value an Integer rule accepts passes a Number rule; 23.11 passes Number but is not an integer |
| `Properties.NoCheckerRejectsPresentValues` | lib/cinzel.js:29-58 | a rule built without a checker (falling back to `_.noop`) rejects every present value as the wrong type, naming the unbound key "undefined" |
| `Properties.IsRequiredOnlyTightensAbsence` | lib/cinzel.js:39-55 | `isRequired` leaves the verdict on present values unchanged and makes absent values fail with "Missing" |
| `Properties.IsRequiredIdempotent` | lib/cinzel.js:39-42 | marking a rule required twice equals marking it once, and the result is required |
| `Properties.SetKeyOnlyNamesErrors` | lib/cinzel.js:44-58 | binding a key does not change which values pass, and every error then names that key |
| `Properties.Check` | lib/cinzel.js:49-59 | `check` passes iff the value satisfies the rule; a failure is always a `CinzelError`: Missing with the key for an absent value, Wrong Type with the key and type label for a present one |
| `Properties.CheckMessage` | lib/cinzel.js:54-57 | a failed `check` throws exactly "Missing: <key> is required" or "Wrong Type: <key> should be type <typeName>", with an unbound key printed as "undefined" |
| `Values.Put` | lib/cinzel.js:68 | an assignment gives the key its new value and changes no other key; an existing key keeps its place in the key order, and a new key goes last |
| `Values.Lookup` | lib/cinzel.js:80 | reading a field from anything but a plain object yields `undefined` |
| `Models.FieldNames` | lib/cinzel.js:102-104 | the static `keys` of a model are the definition's field names, in definition order |
| `Models.BoundRules` | lib/cinzel.js:99 | every field's rule is bound to that field's name |
| `Models.CreateIsWellFormed` | lib/cinzel.js:98-108 | the model `create` builds lists each field once and binds each rule to its own field |
| `Models.Create` | lib/cinzel.js:98-117 | the model lists the definition's field names in order; each field's rule is the given rule bound to that field's name; the model is well formed |
| `Models.Set` | lib/cinzel.js:65-70 | the corrected trap (Findings row 2; `SetAsWritten` is the trap as written): a write fails only for a schema field whose rule's check fails, with that check's error; it succeeds iff the key is outside the schema or the value satisfies the rule; on success exactly that field is committed |
| `Models.SetAsWritten` | lib/cinzel.js:66-68 | as written, a write to a non-schema key that names an `Object.prototype` member throws a TypeError; every other write behaves as `Set` |
| `Models.Assign` | lib/cinzel.js:65-70 | through the corrected trap `Set`: after a caught write the field holds the new value if the trap accepted it; after a rejected write the instance is unchanged; other fields never change |
| `Models.AssignAsWritten` | lib/cinzel.js:65-70 | through the trap as written (`SetAsWritten`): after a caught write the field holds the new value if the trap accepted it; after a rejected write the instance is unchanged; other fields never change |
| `Models.Populate` | lib/cinzel.js:79-82 | the `_init` loop fails only with a Missing or Wrong Type error, and on success leaves every key outside the schema as it was |
| `Models.PopulateSucceedsIff` | lib/cinzel.js:79-82 | the loop from field i on succeeds iff every remaining field admits the value the source holds for it |
| `Models.PopulateCopiesSource` | lib/cinzel.js:79-82 | a successful loop leaves the schema fields in schema order, holding the source's values, and the instance valid |
| `Models.PopulateFailsAtFirstViolation` | lib/cinzel.js:79-82 | a failed loop throws the check error of the first remaining field whose value fails its rule |
| `Models.PopulateFromPrimitive` | lib/cinzel.js:79-82 | reading the fields from a value with no own properties succeeds iff every field is optional, and then leaves every field `undefined` |
| `Models.PopulateOutcome` | lib/cinzel.js:79-82 | the `_init` loop from field i on succeeds iff every remaining field admits the source's value; on success the instance holds the schema fields in order, with the source's values, and is valid; otherwise the error is the first failing field's check error |
| `Models.Construct` | lib/cinzel.js:74-83 | a non-object argument fails with "Constructor argument must be a plain object"; every failure is a `CinzelError`; otherwise construction succeeds iff every schema field admits the source's value; the instance has exactly the schema keys in schema order, with the source's values, and is valid; a failure reports the check error of the first offending field in schema order |
| `Models.ConstructAsWritten` | lib/cinzel.js:74-83 | as written, only falsy arguments are refused; for objects and falsy values it agrees with `Construct`; a truthy primitive succeeds iff every field is optional, and then every field is `undefined` |
| `Models.DefinedKeys` | lib/cinzel.js:86-88 | picks exactly the listed keys whose value is not `undefined`, without duplicates, and all of them when none is `undefined` |
| `Models.ToPlainObject` | lib/cinzel.js:85-90 | the result has exactly the schema fields whose current value is not `undefined`, with their current values; no other key appears |
| `ModelFacts.SetPreservesValid` | lib/cinzel.js:65-70 | a write that the trap accepts keeps a valid instance valid |
| `ModelFacts.RejectedWriteKeepsValues` | lib/cinzel.js:65-70 | a write of a value that fails its field's rule is rejected, and every field keeps its previous value |
| `ModelFacts.NonSchemaWriteCommits` | lib/cinzel.js:66-68 | a write to a key outside the schema is committed without any check |
| `ModelFacts.StandingInvariant` | lib/cinzel.js:65-70 | through the corrected trap `Set`, any sequence of writes, with rejected ones caught, keeps a valid instance valid |
| `ModelFacts.StandingInvariantAsWritten` | lib/cinzel.js:65-70 | through the trap as written (`SetAsWritten`), any sequence of writes, with rejected ones caught, keeps a valid instance valid |
| `ModelFacts.WritesKeepFields` | lib/cinzel.js:68 | writes never remove a key from an instance and keep its key list well formed |
| `ModelFacts.FirstViolationReported` | lib/cinzel.js:79-82 | when fields before i are valid and field i is not, construction throws field i's error, which names field i |
| `ModelFacts.MissingRequiredFieldReported` | lib/cinzel.js:49-82 | a required field that the source leaves absent, with all earlier fields valid, makes construction throw exactly "Missing: <field> is required" |
| `ModelFacts.DefinedKeysAgree` | lib/cinzel.js:86-88 | which keys are picked depends only on the values those keys read as |
| `ModelFacts.DefinedKeysPrefix` | lib/cinzel.js:86-88 | when the first n listed fields are defined and the rest `undefined`, exactly the first n are picked, in order |
| `ModelFacts.ConstructCopiesSource` | lib/cinzel.js:79-82 | a constructed instance reads on every schema field what the source object holds |
| `ModelFacts.PlainObjectRoundTrip` | lib/cinzel.js:85-90 | a valid source that has only schema keys and no `undefined` values comes back from `toPlainObject` with the same keys and values |
| `ModelFacts.PlainObjectOfCopy` | lib/cinzel.js:85-90 | an instance that reads like a source on every schema field projects back to that source's keys and values, when the source holds only defined schema fields |
| `ModelFacts.PlainObjectRoundTripOrdered` | lib/cinzel.js:85-90 | if that source also lists its keys in schema order, `toPlainObject` returns it exactly |
| `ModelFacts.PlainObjectOmitsOnlyUndefined` | lib/cinzel.js:88 | a schema field is left out of the projection iff its value is `undefined`; a `null` value is kept |
| `ModelFacts.OptionalNumberModel` | lib/cinzel.js:98-104 | `create({col1: Property.Number})` gives a well formed model whose only field is col1 |
| `ModelFacts.TruthyPrimitiveAccepted` | lib/cinzel.js:75-77 | as written, `new Model(42)` succeeds for an all-optional schema; the corrected constructor refuses it |
| `ModelFacts.PrototypeKeyWriteThrows` | lib/cinzel.js:66-67 | as written, writing `toString` outside the schema throws; the corrected trap commits it |
| `Scenarios.CreateRequiredCol1` | lib/cinzel.js:98-99 | `create({col1: Property.<kind>.isRequired})` binds col1 to a required rule with that kind's checker and label |
| `Scenarios.MissingRequiredScenario` | test/Cinzel.test.js:50-55 | `{col1: Number required}` built from `{}` throws "Missing: col1 is required" |
| `Scenarios.WrongTypeScenario` | test/Cinzel.test.js:57-62 | `{col1: Number required}` built from `{col1: "foobar"}` throws "Wrong Type: col1 should be type Number" |
| `Scenarios.WrongTypeConstruct` | test/Cinzel.test.js:57-62 | `{col1: Number required}` built from `{col1: "foobar"}` fails with the Wrong Type error for col1 and Number |
| `Scenarios.WrongTypeMessage` | test/Cinzel.test.js:57-62 | that error reads "Wrong Type: col1 should be type Number" |
| `Scenarios.IntegerRejectsFractionScenario` | test/Cinzel.test.js:64-69 | `{col1: Integer required}` built from `{col1: 32.23}` throws the Integer wrong-type error |
| `Scenarios.NumberTakesIntegerScenario` | test/Cinzel.test.js:115-120 | `{col1: Number required}` built from `{col1: 23}` succeeds and holds 23 |
| `Scenarios.RejectedSetterScenario` | test/Cinzel.test.js:138-145 | after building `{col1: "foobar"}`, writing 232 to col1 throws the String wrong-type error and col1 still reads "foobar" |
| `Scenarios.MixedNamesDistinct` | test/Cinzel.test.js:167-173 | the five field names of the mixed definition are distinct |
| `Scenarios.MixedFieldNames` | test/Cinzel.test.js:167-173 | the five-field definition lists col1 to col5 in that order |
| `Scenarios.CreateMixed` | test/Cinzel.test.js:167-173 | `create` on the five-field definition gives the expected model |
| `Scenarios.MixedSourceIsValid` | test/Cinzel.test.js:174-178 | the five-field model accepts `{col1: "foobar", col2: 13}` |
| `Scenarios.MixedFieldIsValid` | test/Cinzel.test.js:167-178 | each of the five fields admits its value in `{col1: "foobar", col2: 13}` |
| `Scenarios.MixedDefinedKeys` | test/Cinzel.test.js:174-179 | of the five fields only col1 and col2 are defined on that source |
| `Scenarios.PlainObjectScenario` | test/Cinzel.test.js:166-180 | built from `{col1: "foobar", col2: 13}`, `toPlainObject()` is exactly that object; the optional fields left out are omitted |

## Left out

- The JavaScript `Proxy`, the generated class, `instanceof` and the static `keys`/`definition` getters. A model is a value holding the ordered field list and the bound rules. The proxy's set trap is the function `SetAsWritten` as written and `Set` as corrected (see Findings); the rest of the model builds on `Set`. Reads go straight to the instance, as no get trap exists.
- The lodash predicates. `_.isNumber`, `_.isInteger`, `_.isString` and `_.isDate` become `Accepts` over the value type. lodash is not part of this model.
- Floating point. Numbers are reals: NaN, the infinities, `-0` and rounding are not modelled. So `_.isNumber(NaN)` and the falsiness of NaN are absent. Date validity is not modelled either.
- User-supplied checker functions for `new Property(checker, typeName)`. Only the four lodash predicates and the `_.noop` fallback are modelled. A non-string `typeName` is not modelled.
- The `CinzelError` class. `lib/errors` is not part of this model, so errors are an `Error` datatype with a `Message` function. The TypeError text "definition[key].check is not a function" is the V8 wording.
- Mutation and aliasing of `Property` objects. `isRequired` and `setKey` mutate the rule in place and return it, so one rule object shared by two schemas gets rebound. Here rules are values: those two operations return updated copies, and `create` binds a copy per field.
- `Models.Create` requires distinct field names, because a JavaScript object cannot hold a key twice.
- Key order. Keys are enumerated in insertion order. JavaScript puts array-index keys first, in ascending order; that is not modelled. Symbol keys are not modelled either.
- Property reads that reach beyond own properties. Reading a field from a primitive or from an inherited member (for example `"abc"[0]`, `"abc".length`, or `{}.toString`) yields `undefined` in the model.
- Writes to `__proto__`. Its setter semantics are not modelled.
- Deleting a field (`delete instance.col1`) and `Object.defineProperty` on an instance. The proxy has only a `set` trap (lib/cinzel.js:64-70), so these bypass the check; the model has assignments only. `ModelFacts.StandingInvariant` and `ModelFacts.StandingInvariantAsWritten` therefore cover sequences of assignments, not deletions or definitions, which can leave a required field absent.
- A schema field named `constructor`. The set trap (lib/cinzel.js:66) and `toPlainObject` (lib/cinzel.js:87) find the schema through `this.constructor`. Writing such a field shadows it with the written value, so a later write throws a TypeError. `toPlainObject` then returns `{}` when the written value is not `undefined` or `null`, and throws a TypeError when it is (an optional `constructor` field the source leaves out gets an own `undefined`). For example, `create({constructor: Property.String, col2: Property.Number})` built from `{constructor: "x", col2: 1}` throws. The model keeps the schema fixed for each model and does not model this shadowing.
- Field and key names that hide the instance's methods. A schema field named `toPlainObject` is written by `_init` (lib/cinzel.js:81) as an own property of the instance, even when the source leaves it out, and that own property hides the method at lib/cinzel.js:85. So `toPlainObject()` on every instance of `create({toPlainObject: Property.String})` throws a TypeError. A non-schema write `instance.toPlainObject = 1` is committed (lib/cinzel.js:68) and has the same effect. `Models.ToPlainObject` is the projection the method computes and does not model this hiding.
- lodash's refusal to set `__proto__`, `constructor` and `prototype` keys in the objects `_.pick` and `_.omitBy` build (recent lodash 4 releases). Under it, a schema field named `prototype` is silently dropped from `toPlainObject()`'s result. lodash is not part of this model, and `Models.ToPlainObject` keeps such a field.
- `_.pick`'s path interpretation of dotted keys, and schema keys that the instance lacks but inherits. Neither can arise for an instance built by the constructor.
- Object identity. Equality is structural, so `strictEqual` on two distinct but equal Dates would hold in the model.
- `Models.DefinedKeys`: states the result's order only when every key is defined. `ModelFacts.PlainObjectRoundTripOrdered` states it for the round trip; in general it is not stated to be a subsequence of the schema order.

## Findings

| source | as written | input that shows it | evidently intended | confidence | as-written member | corrected member |
|---|---|---|---|---|---|---|
| lib/cinzel.js:75-77 | the guard `!object && !_.isObject(object)` is true only for falsy arguments, since no falsy value is an object | schema `{col1: Property.Number}`, `new Model(42)`: succeeds with col1 `undefined` | refuse every non-object with "Constructor argument must be a plain object" | medium, not executed | `Models.ConstructAsWritten`, `ModelFacts.TruthyPrimitiveAccepted` | `Models.Construct` |
| lib/cinzel.js:66-67 | `definition[key]` also finds members that the definition object inherits from `Object.prototype`; they are truthy but have no `check` | any schema without a `toString` field, `instance.toString = f`: throws "definition[key].check is not a function" | writes to keys outside the schema pass through unchecked | medium, not executed | `Models.SetAsWritten`, `ModelFacts.PrototypeKeyWriteThrows` | `Models.Set`, `ModelFacts.NonSchemaWriteCommits` |

A required field absent from the input does not always fail with Missing.
The code reports the first offending field in schema order, so Missing is
reported only when every earlier field is valid.
`ModelFacts.FirstViolationReported` and
`ModelFacts.MissingRequiredFieldReported` state the code's behaviour.
