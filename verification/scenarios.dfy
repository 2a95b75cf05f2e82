/**
 * The library's documented behaviour on concrete schemas and inputs,
 * derived from the general contracts.
 */
module Scenarios {
  import opened Results
  import opened Values
  import opened Errors
  import opened Properties
  import opened Models
  import opened ModelFacts

  /** The plain object `{col1: v}`. */
  function Col1(v: Value): Record {
    Record(["col1"], map["col1" := v])
  }

  /** `m` is the model of `{col1: <k> required}`. */
  predicate IsRequiredCol1(m: Model, k: Kind) {
    && m.WellFormed()
    && m.keys == ["col1"]
    && m.definition["col1"] == Property(Lodash(k), Label(k), true, Some("col1"))
  }

  /** `create({col1: Property.<k>.isRequired})` gives the model of `{col1: <k> required}`. */
  lemma CreateRequiredCol1(k: Kind)
    ensures IsRequiredCol1(Create([("col1", IsRequired(Preset(k)))]), k)
  {
    var def := [("col1", IsRequired(Preset(k)))];
    assert Create(def).definition[def[0].0] == SetKey(def[0].1, def[0].0);
  }

  /** `{col1: Number required}` built from `{}` throws "Missing: col1 is required". */
  lemma MissingRequiredScenario(m: Model)
    requires IsRequiredCol1(m, Number)
    ensures Construct(m, Obj(Empty)) == Failure(Missing("col1"))
    ensures Message(Construct(m, Obj(Empty)).error) == "Missing: col1 is required"
  {
    MissingRequiredFieldReported(m, Obj(Empty), 0);
  }

  /** `{col1: Number required}` built from `{col1: "foobar"}` throws the Number wrong-type error. */
  lemma WrongTypeScenario(m: Model)
    requires IsRequiredCol1(m, Number)
    ensures Construct(m, Obj(Col1(Str("foobar")))) == Failure(WrongType("col1", "Number"))
    ensures Message(Construct(m, Obj(Col1(Str("foobar")))).error) == "Wrong Type: col1 should be type Number"
  {
    WrongTypeConstruct(m);
    WrongTypeMessage();
  }

  /** The construction half of the wrong-type scenario. */
  lemma WrongTypeConstruct(m: Model)
    requires IsRequiredCol1(m, Number)
    ensures Construct(m, Obj(Col1(Str("foobar")))) == Failure(WrongType("col1", "Number"))
  {
    var src := Obj(Col1(Str("foobar")));
    assert Lookup(src, "col1") == Str("foobar");
    FirstViolationReported(m, src, 0);
  }

  /** The message the wrong-type scenario shows. */
  lemma WrongTypeMessage()
    ensures Message(WrongType("col1", "Number")) == "Wrong Type: col1 should be type Number"
  {
  }

  /** `{col1: Integer required}` built from `{col1: 32.23}` throws the Integer wrong-type error. */
  lemma IntegerRejectsFractionScenario(m: Model)
    requires IsRequiredCol1(m, Integer)
    ensures Construct(m, Obj(Col1(Num(32.23)))) == Failure(WrongType("col1", "Integer"))
  {
    var src := Obj(Col1(Num(32.23)));
    assert Lookup(src, "col1") == Num(32.23);
    assert (32.23).Floor == 32;
    FirstViolationReported(m, src, 0);
  }

  /** `{col1: Number required}` built from `{col1: 23}` succeeds: an integer is a number. */
  lemma NumberTakesIntegerScenario(m: Model)
    requires IsRequiredCol1(m, Number)
    ensures Construct(m, Obj(Col1(Num(23.0)))).Success?
    ensures Get(Construct(m, Obj(Col1(Num(23.0)))).value, "col1") == Num(23.0)
  {
    assert Lookup(Obj(Col1(Num(23.0))), "col1") == Num(23.0);
  }

  /**
   * `{col1: String required}` built from `{col1: "foobar"}`; then
   * `col1 = 232` throws the String wrong-type error and `col1` still reads "foobar".
   */
  lemma RejectedSetterScenario(m: Model)
    requires IsRequiredCol1(m, String)
    ensures Construct(m, Obj(Col1(Str("foobar")))).Success?
    ensures var inst := Construct(m, Obj(Col1(Str("foobar")))).value;
      && Set(m, inst, "col1", Num(232.0)) == Failure(WrongType("col1", "String"))
      && Get(Assign(m, inst, "col1", Num(232.0)), "col1") == Str("foobar")
  {
    var src := Obj(Col1(Str("foobar")));
    assert Lookup(src, "col1") == Str("foobar");
    var inst := Construct(m, src).value;
    assert Get(inst, "col1") == Str("foobar");
  }

  /** The five-field definition with two required and three optional fields. */
  const MixedDefinition: seq<(string, Property)> := [
    ("col1", IsRequired(Preset(String))),
    ("col2", IsRequired(Preset(Integer))),
    ("col3", Preset(Date)),
    ("col4", Preset(Number)),
    ("col5", Preset(Number))]

  /** `m` is the model of the five-field definition. */
  predicate IsMixed(m: Model) {
    && m.WellFormed()
    && m.keys == ["col1", "col2", "col3", "col4", "col5"]
    && forall i :: 0 <= i < 5 ==> m.definition[m.keys[i]] == SetKey(MixedDefinition[i].1, MixedDefinition[i].0)
  }

  /** The five field names are distinct. */
  lemma MixedNamesDistinct()
    ensures DistinctNames(MixedDefinition)
  {
    var def := MixedDefinition;
    forall i, j | 0 <= i < j < |def| ensures def[i].0 != def[j].0 {
      assert def[i].0[3] != def[j].0[3];
    }
  }

  /** `create` on the five-field definition gives that model. */
  lemma CreateMixed()
    ensures DistinctNames(MixedDefinition)
    ensures IsMixed(Create(MixedDefinition))
  {
    MixedNamesDistinct();
    MixedFieldNames();
    assert Create(MixedDefinition).keys == FieldNames(MixedDefinition);
  }

  /** The five-field definition lists its fields as `col1` … `col5`. */
  lemma MixedFieldNames()
    ensures FieldNames(MixedDefinition) == ["col1", "col2", "col3", "col4", "col5"]
  {
    assert MixedDefinition[0].0 == "col1";
  }

  /** The five-field model accepts `{col1: "foobar", col2: 13}`. */
  lemma MixedSourceIsValid(m: Model, rec: Record)
    requires IsMixed(m)
    requires rec == Record(["col1", "col2"], map["col1" := Str("foobar"), "col2" := Num(13.0)])
    ensures Construct(m, Obj(rec)).Success?
  {
    forall j | 0 <= j < |m.keys|
      ensures Satisfies(m.definition[m.keys[j]], Lookup(Obj(rec), m.keys[j]))
    {
      MixedFieldIsValid(m, rec, j);
    }
  }

  /** Field `j` of the five-field model accepts its value in `{col1: "foobar", col2: 13}`. */
  lemma MixedFieldIsValid(m: Model, rec: Record, j: int)
    requires IsMixed(m)
    requires rec == Record(["col1", "col2"], map["col1" := Str("foobar"), "col2" := Num(13.0)])
    requires 0 <= j < 5
    ensures Satisfies(m.definition[m.keys[j]], Lookup(Obj(rec), m.keys[j]))
  {
    var p := m.definition[m.keys[j]];
    var v := Lookup(Obj(rec), m.keys[j]);
    if j == 0 {
      assert p.checker == Lodash(String) && v == Str("foobar");
    } else if j == 1 {
      assert p.checker == Lodash(Integer) && v == Num(13.0);
    } else {
      assert !p.required && v == Undef;
    }
  }

  /** Of the five fields only `col1` and `col2` are defined on `{col1: "foobar", col2: 13}`. */
  lemma MixedDefinedKeys(rec: Record)
    requires rec == Record(["col1", "col2"], map["col1" := Str("foobar"), "col2" := Num(13.0)])
    ensures DefinedKeys(rec, ["col1", "col2", "col3", "col4", "col5"]) == ["col1", "col2"]
  {
    var ks := ["col1", "col2", "col3", "col4", "col5"];
    forall i | 2 <= i < 5 ensures Get(rec, ks[i]) == Undef {
      assert ks[i] !in rec.slots;
    }
    DefinedKeysPrefix(rec, ks, 2);
  }

  /**
   * Built from `{col1: "foobar", col2: 13}`, the five-field model's
   * `toPlainObject()` is exactly `{col1: "foobar", col2: 13}`: the optional
   * fields the source left out are omitted.
   */
  lemma PlainObjectScenario(m: Model)
    requires IsMixed(m)
    ensures var rec := Record(["col1", "col2"], map["col1" := Str("foobar"), "col2" := Num(13.0)]);
      && Construct(m, Obj(rec)).Success?
      && ToPlainObject(m, Construct(m, Obj(rec)).value) == rec
  {
    var rec := Record(["col1", "col2"], map["col1" := Str("foobar"), "col2" := Num(13.0)]);
    MixedSourceIsValid(m, rec);
    MixedDefinedKeys(rec);
    PlainObjectRoundTripOrdered(m, rec);
  }
}
