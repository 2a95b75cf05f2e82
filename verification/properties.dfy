/**
 * The `Property` rule: one field's validation contract, made of a type
 * predicate, a type label for messages, a required flag and the field name
 * it is bound to.
 */
module Properties {
  import opened Results
  import opened Values
  import opened Errors

  /** The four preset kinds of field. */
  datatype Kind = Number | Integer | String | Date

  /** The type label a preset shows in its messages. */
  function Label(k: Kind): string {
    match k
    case Number => "Number"
    case Integer => "Integer"
    case String => "String"
    case Date => "Date"
  }

  predicate IsIntegral(n: real) {
    n.Floor as real == n
  }

  /** The lodash predicates `_.isNumber`, `_.isInteger`, `_.isString`, `_.isDate`. */
  predicate Accepts(k: Kind, v: Value)
    ensures Accepts(k, v) ==> !IsNullish(v) && !v.Bool? && !v.Obj?
    ensures Accepts(k, v) ==>
      && (v.Num? <==> k == Number || k == Integer)
      && (v.Str? <==> k == String)
      && (v.DateObj? <==> k == Date)
  {
    match k
    case Number => v.Num?
    case Integer => v.Num? && IsIntegral(v.n)
    case String => v.Str?
    case Date => v.DateObj?
  }

  /**
   * A rule's type predicate: one of the lodash predicates, or `_.noop`
   * (which returns `undefined`, so it admits nothing) when none was given.
   */
  datatype Checker = Lodash(kind: Kind) | Noop

  predicate Admits(c: Checker, v: Value) {
    match c
    case Lodash(k) => Accepts(k, v)
    case Noop => false
  }

  /** A field rule; `key` is `None` until the rule is bound to a field name. */
  datatype Property = Property(checker: Checker, typeName: string, required: bool, key: Option<string>)

  /** How the key appears inside a message: an unbound key prints as "undefined". */
  function KeyText(key: Option<string>): string {
    match key
    case Some(k) => k
    case None => "undefined"
  }

  /**
   * `new Property(checker, typeName)`: a missing checker falls back to
   * `_.noop`, a missing type name to the empty string; the rule starts
   * optional and unbound.
   */
  function NewProperty(checker: Option<Kind>, typeName: Option<string>): (p: Property)
    ensures !p.required && p.key.None?
    ensures checker.None? ==> forall v :: !Admits(p.checker, v)
    ensures checker.Some? ==> forall v :: Admits(p.checker, v) <==> Accepts(checker.value, v)
    ensures typeName.None? ==> p.typeName == ""
    ensures typeName.Some? ==> p.typeName == typeName.value
  {
    Property(
      if checker.Some? then Lodash(checker.value) else Noop,
      if typeName.Some? then typeName.value else "",
      false,
      None)
  }

  /** The static getters `Property.Number`, `.Integer`, `.String`, `.Date`: a fresh rule each time. */
  function Preset(k: Kind): (p: Property)
    ensures !p.required && p.key.None? && p.typeName == Label(k)
    ensures forall v :: Admits(p.checker, v) <==> Accepts(k, v)
  {
    NewProperty(Some(k), Some(Label(k)))
  }

  /** The chained `isRequired` getter: the same rule, now required. */
  function IsRequired(p: Property): (r: Property)
    ensures r.required
    ensures r.checker == p.checker && r.typeName == p.typeName && r.key == p.key
  {
    p.(required := true)
  }

  /** `setKey(key)`: binds the field name used in messages. */
  function SetKey(p: Property, key: string): (r: Property)
    ensures r.key == Some(key)
    ensures r.checker == p.checker && r.typeName == p.typeName && r.required == p.required
  {
    p.(key := Some(key))
  }

  /**
   * What a rule demands of a field's value: an absent value only when the
   * rule is optional, a present value only when the predicate admits it.
   */
  predicate Satisfies(p: Property, v: Value) {
    && (IsNullish(v) ==> !p.required)
    && (!IsNullish(v) ==> Admits(p.checker, v))
  }

  /** `check(value)`: passes exactly when the value satisfies the rule, else throws. */
  function Check(p: Property, v: Value): (r: Outcome<Error>)
    ensures r.Pass? <==> Satisfies(p, v)
    ensures r.Fail? ==> IsCinzelError(r.error)
    ensures r.Fail? && IsNullish(v) ==> r.error == Missing(KeyText(p.key))
    ensures r.Fail? && !IsNullish(v) ==> r.error == WrongType(KeyText(p.key), p.typeName)
  {
    if v == Undef || v == Null then
      if !p.required then Pass
      else Fail(Missing(KeyText(p.key)))
    else if !Admits(p.checker, v) then
      Fail(WrongType(KeyText(p.key), p.typeName))
    else
      Pass
  }

  /** The text a failed `check` throws: "Missing: <key> is required" or "Wrong Type: <key> should be type <label>". */
  lemma CheckMessage(p: Property, v: Value)
    ensures Check(p, v).Fail? && IsNullish(v) ==>
      Message(Check(p, v).error) == "Missing: " + KeyText(p.key) + " is required"
    ensures Check(p, v).Fail? && !IsNullish(v) ==>
      Message(Check(p, v).error) == "Wrong Type: " + KeyText(p.key) + " should be type " + p.typeName
  {
  }

  /** Each preset is optional, unbound, labelled with its kind and admits exactly its kind's values. */
  lemma PresetIsFreshAndOptional(k: Kind, v: Value)
    ensures Preset(k) == Property(Lodash(k), Label(k), false, None)
    ensures IsNullish(v) ==> Check(Preset(k), v) == Pass
    ensures !IsNullish(v) ==> (Check(Preset(k), v).Pass? <==> Accepts(k, v))
  {
  }

  /** The four presets carry four different labels. */
  lemma PresetLabelsDiffer(k: Kind, k': Kind)
    requires k != k'
    ensures Preset(k).typeName != Preset(k').typeName
  {
  }

  /** Every integer is a number: an Integer-valid value passes a Number rule, but not conversely. */
  lemma IntegerValuesAreNumbers(p: Property, v: Value)
    requires p.checker == Lodash(Number)
    ensures Accepts(Integer, v) ==> Check(p, v) == Pass
    ensures Check(p, Num(23.11)) == Pass && !Accepts(Integer, Num(23.11))
  {
    assert (23.11).Floor == 23;
  }

  /** A rule built without a checker rejects every present value as the wrong type. */
  lemma NoCheckerRejectsPresentValues(typeName: Option<string>, v: Value)
    requires !IsNullish(v)
    ensures Check(NewProperty(None, typeName), v) == Fail(WrongType("undefined", NewProperty(None, typeName).typeName))
  {
  }

  /**
   * Marking a rule required changes only how it treats absent values:
   * present values are judged as before, absent ones now fail as Missing.
   */
  lemma IsRequiredOnlyTightensAbsence(p: Property, v: Value)
    ensures !IsNullish(v) ==> Check(IsRequired(p), v) == Check(p, v)
    ensures IsNullish(v) ==> Check(IsRequired(p), v) == Fail(Missing(KeyText(p.key)))
    ensures Check(IsRequired(p), v).Pass? ==> Check(p, v).Pass?
  {
  }

  /** Marking a rule required twice is the same as marking it once. */
  lemma IsRequiredIdempotent(p: Property)
    ensures IsRequired(IsRequired(p)) == IsRequired(p)
    ensures IsRequired(p).required
  {
  }

  /** Binding a key leaves the verdict alone and makes every error name that key. */
  lemma SetKeyOnlyNamesErrors(p: Property, key: string, v: Value)
    ensures Check(SetKey(p, key), v).Pass? <==> Check(p, v).Pass?
    ensures Check(SetKey(p, key), v).Fail? ==>
      Check(SetKey(p, key), v).error in {Missing(key), WrongType(key, p.typeName)}
  {
  }
}
