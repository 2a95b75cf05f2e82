/**
 * Model types produced by `create`, their guarded instances and the
 * projection back to a plain object. An instance is an ordinary object
 * (a Record) whose every write goes through the set trap `Set`.
 */
module Models {
  import opened Results
  import opened Values
  import opened Errors
  import opened Properties

  /**
   * A model type: `keys` is the schema's field list in definition order
   * (the static `keys` getter), `definition` the bound rule of each field.
   */
  datatype Model = Model(keys: seq<string>, definition: map<string, Property>) {

    /** Fields listed once each, exactly the defined ones, each rule bound to its own field. */
    predicate WellFormed() {
      && Distinct(keys)
      && (forall k :: k in definition ==> k in keys)
      && (forall k :: k in keys ==> k in definition)
      && (forall k :: k in definition ==> definition[k].key == Some(k))
    }
  }

  /** A definition object's field names are distinct, as an object's keys are. */
  predicate DistinctNames(def: seq<(string, Property)>) {
    forall i, j :: 0 <= i < j < |def| ==> def[i].0 != def[j].0
  }

  /**
   * `create(definition)`: binds every rule to its field name and fixes the
   * ordered list of schema fields.
   */
  function Create(def: seq<(string, Property)>): (m: Model)
    requires DistinctNames(def)
    ensures m.WellFormed()
    ensures |m.keys| == |def|
    ensures forall i :: 0 <= i < |def| ==> m.keys[i] == def[i].0
    ensures forall i :: 0 <= i < |def| ==> m.definition[def[i].0] == SetKey(def[i].1, def[i].0)
  {
    CreateIsWellFormed(def);
    Model(FieldNames(def), BoundRules(def))
  }

  /** The field names of a definition, in order. */
  function FieldNames(def: seq<(string, Property)>): (names: seq<string>)
    ensures |names| == |def|
    ensures forall i :: 0 <= i < |def| ==> names[i] == def[i].0
  {
    seq(|def|, i requires 0 <= i < |def| => def[i].0)
  }

  /** Each field's rule bound to the field's name. */
  function BoundRules(def: seq<(string, Property)>): (rules: map<string, Property>)
    requires DistinctNames(def)
    ensures forall i :: 0 <= i < |def| ==> def[i].0 in rules && rules[def[i].0] == SetKey(def[i].1, def[i].0)
  {
    map i | 0 <= i < |def| :: def[i].0 := SetKey(def[i].1, def[i].0)
  }

  /** The model `create` builds is well formed. */
  lemma CreateIsWellFormed(def: seq<(string, Property)>)
    requires DistinctNames(def)
    ensures Model(FieldNames(def), BoundRules(def)).WellFormed()
  {
    var names, rules := FieldNames(def), BoundRules(def);
    forall k | k in rules ensures k in names && rules[k].key == Some(k) {
      var i :| 0 <= i < |def| && def[i].0 == k;
    }
  }

  /**
   * The set trap, `instance[key] = v`, as evidently intended (see
   * `SetAsWritten` for the code as written): a schema field's value must
   * pass its rule's `check` before it is committed; any other key is
   * committed unchecked. A rejected write throws and commits nothing.
   */
  function Set(m: Model, inst: Record, key: string, v: Value): (r: Result<Record, Error>)
    ensures r.Failure? ==> key in m.definition && Check(m.definition[key], v) == Fail(r.error)
    ensures r.Success? <==> (key in m.definition ==> Satisfies(m.definition[key], v))
    ensures r.Success? ==> r.value == Put(inst, key, v)
  {
    if key in m.definition then
      match Check(m.definition[key], v)
      case Fail(e) => Failure(e)
      case Pass => Success(Put(inst, key, v))
    else
      Success(Put(inst, key, v))
  }

  /**
   * The own-or-inherited properties of a plain object literal: the members
   * of `Object.prototype`.
   */
  const ObjectPrototypeMembers: set<string> := {
    "constructor", "hasOwnProperty", "isPrototypeOf", "propertyIsEnumerable",
    "toLocaleString", "toString", "valueOf", "__proto__",
    "__defineGetter__", "__defineSetter__", "__lookupGetter__", "__lookupSetter__"
  }

  /**
   * The set trap as written: `definition[key] && definition[key].check(value)`
   * also finds the members the definition object inherits from
   * `Object.prototype`, which are truthy but have no `check`, so writing
   * such a non-schema key throws the engine's TypeError.
   */
  function SetAsWritten(m: Model, inst: Record, key: string, v: Value): (r: Result<Record, Error>)
    ensures key !in m.definition && key in ObjectPrototypeMembers ==> r == Failure(CheckNotAFunction(key))
    ensures key in m.definition || key !in ObjectPrototypeMembers ==> r == Set(m, inst, key, v)
  {
    if key !in m.definition && key in ObjectPrototypeMembers then Failure(CheckNotAFunction(key))
    else Set(m, inst, key, v)
  }

  /** The standing invariant: every schema field's current value satisfies its rule. */
  predicate Valid(m: Model, inst: Record) {
    forall k :: k in m.definition ==> Satisfies(m.definition[k], Get(inst, k))
  }

  /**
   * An instance after the statement `instance[key] = v` whose error, if any,
   * the writer caught: a rejected write leaves the instance as it was.
   */
  function Assign(m: Model, inst: Record, key: string, v: Value): (r: Record)
    ensures Set(m, inst, key, v).Success? ==> Get(r, key) == v
    ensures Set(m, inst, key, v).Failure? ==> r == inst
    ensures forall k :: k != key ==> Get(r, k) == Get(inst, k)
  {
    match Set(m, inst, key, v)
    case Success(inst') => inst'
    case Failure(_) => inst
  }

  /** A sequence of caught writes, applied in order. */
  function AssignAll(m: Model, inst: Record, writes: seq<(string, Value)>): Record
    decreases |writes|
  {
    if writes == [] then inst
    else AssignAll(m, Assign(m, inst, writes[0].0, writes[0].1), writes[1..])
  }

  /**
   * An instance after `instance[key] = v` through the trap as written,
   * with any error caught: a rejected write leaves the instance as it was.
   */
  function AssignAsWritten(m: Model, inst: Record, key: string, v: Value): (r: Record)
    ensures SetAsWritten(m, inst, key, v).Success? ==> Get(r, key) == v
    ensures SetAsWritten(m, inst, key, v).Failure? ==> r == inst
    ensures forall k :: k != key ==> Get(r, k) == Get(inst, k)
  {
    match SetAsWritten(m, inst, key, v)
    case Success(inst') => inst'
    case Failure(_) => inst
  }

  /** A sequence of caught writes through the trap as written, applied in order. */
  function AssignAllAsWritten(m: Model, inst: Record, writes: seq<(string, Value)>): Record
    decreases |writes|
  {
    if writes == [] then inst
    else AssignAllAsWritten(m, AssignAsWritten(m, inst, writes[0].0, writes[0].1), writes[1..])
  }

  /**
   * The loop of `_init` from schema position `i` on: each field's value is
   * read from the source and written through the set trap; the first
   * rejected write ends construction with its error.
   */
  function Populate(m: Model, src: Value, i: nat, inst: Record): (r: Result<Record, Error>)
    requires i <= |m.keys|
    ensures r.Failure? ==> r.error.Missing? || r.error.WrongType?
    ensures r.Success? ==> forall k :: k !in m.keys ==> Get(r.value, k) == Get(inst, k)
    decreases |m.keys| - i
  {
    if i == |m.keys| then Success(inst)
    else
      var inst' :- Set(m, inst, m.keys[i], Lookup(src, m.keys[i]));
      Populate(m, src, i + 1, inst')
  }

  /** Every schema field from position `i` on admits the value the source holds for it. */
  predicate SourceSatisfiesFrom(m: Model, src: Value, i: nat)
    requires m.WellFormed() && i <= |m.keys|
  {
    forall j :: i <= j < |m.keys| ==> Satisfies(m.definition[m.keys[j]], Lookup(src, m.keys[j]))
  }

  /**
   * The model constructor `new Model(src)`. Anything but an object is
   * refused; otherwise the schema fields are copied one by one through the
   * set trap, starting from an object with no own properties.
   */
  function Construct(m: Model, src: Value): (r: Result<Record, Error>)
    requires m.WellFormed()
    ensures !IsObject(src) ==> r == Failure(NotPlainObject)
    ensures r.Failure? ==> IsCinzelError(r.error)
    ensures IsObject(src) ==> (r.Success? <==> SourceSatisfiesFrom(m, src, 0))
    ensures r.Success? ==>
      && r.value.WellFormed()
      && r.value.keys == m.keys
      && (forall k :: k in m.definition ==> Get(r.value, k) == Lookup(src, k))
      && Valid(m, r.value)
    ensures r.Failure? && IsObject(src) ==>
      exists j :: 0 <= j < |m.keys| && Check(m.definition[m.keys[j]], Lookup(src, m.keys[j])) == Fail(r.error)
        && forall l :: 0 <= l < j ==> Satisfies(m.definition[m.keys[l]], Lookup(src, m.keys[l]))
  {
    if !IsObject(src) then Failure(NotPlainObject)
    else
      PopulateOutcome(m, src, 0, Empty);
      Populate(m, src, 0, Empty)
  }

  /**
   * The model constructor as written: the guard `!object && !_.isObject(object)`
   * refuses only falsy arguments, so a truthy primitive such as `42` gets
   * through and every schema field reads `undefined` from it.
   */
  function ConstructAsWritten(m: Model, src: Value): (r: Result<Record, Error>)
    requires m.WellFormed()
    ensures !Truthy(src) ==> r == Failure(NotPlainObject)
    ensures IsObject(src) || !Truthy(src) ==> r == Construct(m, src)
    ensures Truthy(src) && !IsObject(src) ==>
      (r.Success? <==> forall k :: k in m.definition ==> !m.definition[k].required)
    ensures Truthy(src) && !IsObject(src) && r.Success? ==>
      forall k :: k in m.keys ==> Get(r.value, k) == Undef
  {
    if !Truthy(src) && !IsObject(src) then Failure(NotPlainObject)
    else
      PopulateFromPrimitive(m, src);
      Populate(m, src, 0, Empty)
  }

  /** The schema fields of `ks`, in order, whose value on `inst` is not `undefined`. */
  function DefinedKeys(inst: Record, ks: seq<string>): (r: seq<string>)
    ensures forall k :: k in r <==> k in ks && Get(inst, k) != Undef
    ensures Distinct(ks) ==> Distinct(r)
    ensures (forall k :: k in ks ==> Get(inst, k) != Undef) ==> r == ks
    decreases |ks|
  {
    if ks == [] then []
    else
      var rest := DefinedKeys(inst, ks[1..]);
      assert forall k :: k in ks[1..] ==> k in ks;
      if Get(inst, ks[0]) != Undef then [ks[0]] + rest else rest
  }

  /**
   * `toPlainObject()`: a new plain object holding the schema fields, in
   * schema order, whose current value is not `undefined` (`null` is kept).
   */
  function ToPlainObject(m: Model, inst: Record): (r: Record)
    ensures Distinct(m.keys) ==> r.WellFormed()
    ensures forall k :: k in r.slots <==> k in m.keys && Get(inst, k) != Undef
    ensures forall k :: k in r.slots ==> r.slots[k] == Get(inst, k)
  {
    var ks := DefinedKeys(inst, m.keys);
    Record(ks, map k | k in ks :: Get(inst, k))
  }

  // ---------------------------------------------------------------------
  // Lemmas
  // ---------------------------------------------------------------------

  /**
   * What `Populate` does from position `i`, given that the first `i` fields
   * have been copied from the source: it succeeds exactly when every later
   * field admits its source value, then holds every field in schema order;
   * otherwise it fails with the first later field's error.
   */
  lemma PopulateOutcome(m: Model, src: Value, i: nat, inst: Record)
    requires m.WellFormed() && i <= |m.keys|
    requires inst.WellFormed() && inst.keys == m.keys[..i]
    requires forall j :: 0 <= j < i ==> Get(inst, m.keys[j]) == Lookup(src, m.keys[j])
    requires forall j :: 0 <= j < i ==> Satisfies(m.definition[m.keys[j]], Lookup(src, m.keys[j]))
    ensures Populate(m, src, i, inst).Success? <==> SourceSatisfiesFrom(m, src, i)
    ensures Populate(m, src, i, inst).Success? ==>
      var r := Populate(m, src, i, inst).value;
      && r.WellFormed()
      && r.keys == m.keys
      && (forall k :: k in m.definition ==> Get(r, k) == Lookup(src, k))
      && Valid(m, r)
    ensures Populate(m, src, i, inst).Failure? ==>
      exists j :: i <= j < |m.keys| && Check(m.definition[m.keys[j]], Lookup(src, m.keys[j])) == Fail(Populate(m, src, i, inst).error)
        && forall l :: i <= l < j ==> Satisfies(m.definition[m.keys[l]], Lookup(src, m.keys[l]))
  {
    PopulateSucceedsIff(m, src, i, inst);
    PopulateCopiesSource(m, src, i, inst);
    PopulateFailsAtFirstViolation(m, src, i, inst);
  }

  /** A schema field after position `i` is not yet an own property of the partial instance. */
  lemma LaterKeyAbsent(m: Model, i: nat, inst: Record)
    requires m.WellFormed() && i < |m.keys|
    requires inst.WellFormed() && inst.keys == m.keys[..i]
    ensures m.keys[i] !in inst.slots
    ensures inst.keys + [m.keys[i]] == m.keys[..i + 1]
  {
    forall j | 0 <= j < i ensures m.keys[j] != m.keys[i] { }
  }

  /** One accepted write of `Populate` extends the copied prefix by field `i`. */
  lemma PopulateStep(m: Model, src: Value, i: nat, inst: Record)
    requires m.WellFormed() && i < |m.keys|
    requires inst.WellFormed() && inst.keys == m.keys[..i]
    requires forall j :: 0 <= j < i ==> Get(inst, m.keys[j]) == Lookup(src, m.keys[j])
    requires forall j :: 0 <= j < i ==> Satisfies(m.definition[m.keys[j]], Lookup(src, m.keys[j]))
    requires Set(m, inst, m.keys[i], Lookup(src, m.keys[i])).Success?
    ensures var inst' := Put(inst, m.keys[i], Lookup(src, m.keys[i]));
      && inst'.WellFormed() && inst'.keys == m.keys[..i + 1]
      && (forall j :: 0 <= j < i + 1 ==> Get(inst', m.keys[j]) == Lookup(src, m.keys[j]))
      && (forall j :: 0 <= j < i + 1 ==> Satisfies(m.definition[m.keys[j]], Lookup(src, m.keys[j])))
  {
    LaterKeyAbsent(m, i, inst);
    var inst' := Put(inst, m.keys[i], Lookup(src, m.keys[i]));
    forall j | 0 <= j < i + 1 ensures Get(inst', m.keys[j]) == Lookup(src, m.keys[j]) {
      if j < i {
        assert m.keys[j] != m.keys[i];
      }
    }
  }

  /** Every field from `i` on admits its source value iff field `i` does and every field from `i + 1` on does. */
  lemma SourceSatisfiesFromStep(m: Model, src: Value, i: nat)
    requires m.WellFormed() && i < |m.keys|
    ensures SourceSatisfiesFrom(m, src, i) <==>
      Satisfies(m.definition[m.keys[i]], Lookup(src, m.keys[i])) && SourceSatisfiesFrom(m, src, i + 1)
  {
  }

  /** `Populate` from position `i` succeeds exactly when every later field admits its source value. */
  lemma {:induction false} PopulateSucceedsIff(m: Model, src: Value, i: nat, inst: Record)
    requires m.WellFormed() && i <= |m.keys|
    ensures Populate(m, src, i, inst).Success? <==> SourceSatisfiesFrom(m, src, i)
    decreases |m.keys| - i
  {
    if i < |m.keys| {
      var key := m.keys[i];
      var v := Lookup(src, key);
      SourceSatisfiesFromStep(m, src, i);
      PopulateUnfold(m, src, i, inst);
      PopulateSucceedsIff(m, src, i + 1, Put(inst, key, v));
    }
  }

  /** One step of `Populate`: the write of field `i` must be accepted, then the rest must succeed. */
  lemma PopulateUnfold(m: Model, src: Value, i: nat, inst: Record)
    requires m.WellFormed() && i < |m.keys|
    ensures var v := Lookup(src, m.keys[i]);
      Populate(m, src, i, inst).Success? <==>
        Satisfies(m.definition[m.keys[i]], v) && Populate(m, src, i + 1, Put(inst, m.keys[i], v)).Success?
  {
  }

  /** A successful `Populate` holds every schema field, in order, with the value the source holds for it. */
  lemma {:induction false} PopulateCopiesSource(m: Model, src: Value, i: nat, inst: Record)
    requires m.WellFormed() && i <= |m.keys|
    requires inst.WellFormed() && inst.keys == m.keys[..i]
    requires forall j :: 0 <= j < i ==> Get(inst, m.keys[j]) == Lookup(src, m.keys[j])
    requires forall j :: 0 <= j < i ==> Satisfies(m.definition[m.keys[j]], Lookup(src, m.keys[j]))
    ensures Populate(m, src, i, inst).Success? ==>
      var r := Populate(m, src, i, inst).value;
      && r.WellFormed()
      && r.keys == m.keys
      && (forall k :: k in m.definition ==> Get(r, k) == Lookup(src, k))
      && Valid(m, r)
    decreases |m.keys| - i
  {
    if i < |m.keys| {
      var key := m.keys[i];
      var v := Lookup(src, key);
      if Set(m, inst, key, v).Success? {
        var inst' := Put(inst, key, v);
        assert Populate(m, src, i, inst) == Populate(m, src, i + 1, inst');
        PopulateStep(m, src, i, inst);
        PopulateCopiesSource(m, src, i + 1, inst');
      }
    }
  }

  /** A failed `Populate` reports the error of the first later field that rejects its source value. */
  lemma {:induction false} PopulateFailsAtFirstViolation(m: Model, src: Value, i: nat, inst: Record)
    requires m.WellFormed() && i <= |m.keys|
    ensures Populate(m, src, i, inst).Failure? ==>
      exists j :: i <= j < |m.keys| && Check(m.definition[m.keys[j]], Lookup(src, m.keys[j])) == Fail(Populate(m, src, i, inst).error)
        && forall l :: i <= l < j ==> Satisfies(m.definition[m.keys[l]], Lookup(src, m.keys[l]))
    decreases |m.keys| - i
  {
    if i < |m.keys| {
      var key := m.keys[i];
      var v := Lookup(src, key);
      if Set(m, inst, key, v).Failure? {
        var e := Set(m, inst, key, v).error;
        assert Populate(m, src, i, inst) == Failure(e);
        assert Check(m.definition[m.keys[i]], Lookup(src, m.keys[i])) == Fail(e);
      } else {
        var inst' := Put(inst, key, v);
        assert Populate(m, src, i, inst) == Populate(m, src, i + 1, inst');
        PopulateFailsAtFirstViolation(m, src, i + 1, inst');
        if Populate(m, src, i + 1, inst').Failure? {
          FirstViolationFrom(m, src, i, Populate(m, src, i + 1, inst').error);
        }
      }
    }
  }

  /** A first violation after position `i + 1` is the first after `i` when field `i` is valid. */
  lemma FirstViolationFrom(m: Model, src: Value, i: nat, e: Error)
    requires m.WellFormed() && i < |m.keys|
    requires Satisfies(m.definition[m.keys[i]], Lookup(src, m.keys[i]))
    requires exists j :: (i + 1 <= j < |m.keys| && Check(m.definition[m.keys[j]], Lookup(src, m.keys[j])) == Fail(e)
      && forall l :: i + 1 <= l < j ==> Satisfies(m.definition[m.keys[l]], Lookup(src, m.keys[l])))
    ensures exists j :: (i <= j < |m.keys| && Check(m.definition[m.keys[j]], Lookup(src, m.keys[j])) == Fail(e)
      && forall l :: i <= l < j ==> Satisfies(m.definition[m.keys[l]], Lookup(src, m.keys[l])))
  {
    var j :| i + 1 <= j < |m.keys| && Check(m.definition[m.keys[j]], Lookup(src, m.keys[j])) == Fail(e)
      && forall l :: i + 1 <= l < j ==> Satisfies(m.definition[m.keys[l]], Lookup(src, m.keys[l]));
    assert forall l :: i <= l < j ==> Satisfies(m.definition[m.keys[l]], Lookup(src, m.keys[l]));
  }

  /**
   * Construction from a value with no own properties: every field reads
   * `undefined`, so it succeeds exactly when every field is optional and
   * then leaves every field `undefined`.
   */
  lemma PopulateFromPrimitive(m: Model, src: Value)
    requires m.WellFormed()
    ensures !src.Obj? ==>
      (Populate(m, src, 0, Empty).Success? <==> forall k :: k in m.definition ==> !m.definition[k].required)
    ensures !src.Obj? && Populate(m, src, 0, Empty).Success? ==>
      forall k :: k in m.keys ==> Get(Populate(m, src, 0, Empty).value, k) == Undef
  {
    if !src.Obj? {
      PopulateSucceedsIff(m, src, 0, Empty);
      PopulateCopiesSource(m, src, 0, Empty);
      if forall k :: k in m.definition ==> !m.definition[k].required {
        assert SourceSatisfiesFrom(m, src, 0);
      } else {
        var k :| k in m.definition && m.definition[k].required;
        var j :| 0 <= j < |m.keys| && m.keys[j] == k;
        assert !Satisfies(m.definition[m.keys[j]], Lookup(src, m.keys[j]));
      }
    }
  }
}
