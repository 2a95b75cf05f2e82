/**
 * Properties of guarded instances that relate several operations: the
 * standing validity invariant across writes, which field construction
 * reports, the round trip through `toPlainObject`, and where the code as
 * written departs from the intended behaviour.
 */
module ModelFacts {
  import opened Results
  import opened Values
  import opened Errors
  import opened Properties
  import opened Models

  /** A write that the set trap accepts keeps every schema field valid. */
  lemma SetPreservesValid(m: Model, inst: Record, key: string, v: Value)
    requires Valid(m, inst)
    requires Set(m, inst, key, v).Success?
    ensures Valid(m, Set(m, inst, key, v).value)
  {
  }

  /** A rejected write leaves the field, and every other field, at its previous value. */
  lemma RejectedWriteKeepsValues(m: Model, inst: Record, key: string, v: Value)
    requires key in m.definition && !Satisfies(m.definition[key], v)
    ensures Set(m, inst, key, v).Failure?
    ensures forall k :: Get(Assign(m, inst, key, v), k) == Get(inst, k)
  {
  }

  /** A write to a key outside the schema is committed without any check. */
  lemma NonSchemaWriteCommits(m: Model, inst: Record, key: string, v: Value)
    requires key !in m.definition
    ensures Set(m, inst, key, v) == Success(Put(inst, key, v))
  {
  }

  /**
   * Validity is a standing invariant: whatever writes are attempted, with
   * rejected ones caught by the writer, a valid instance stays valid.
   */
  lemma {:induction false} StandingInvariant(m: Model, inst: Record, writes: seq<(string, Value)>)
    requires Valid(m, inst)
    ensures Valid(m, AssignAll(m, inst, writes))
    decreases |writes|
  {
    if writes != [] {
      var next := Assign(m, inst, writes[0].0, writes[0].1);
      if Set(m, inst, writes[0].0, writes[0].1).Success? {
        SetPreservesValid(m, inst, writes[0].0, writes[0].1);
      }
      StandingInvariant(m, next, writes[1..]);
    }
  }

  /**
   * The trap as written keeps the invariant too: its extra failures only
   * reject writes, and every write it accepts is one `Set` accepts.
   */
  lemma {:induction false} StandingInvariantAsWritten(m: Model, inst: Record, writes: seq<(string, Value)>)
    requires Valid(m, inst)
    ensures Valid(m, AssignAllAsWritten(m, inst, writes))
    decreases |writes|
  {
    if writes != [] {
      var (key, v) := writes[0];
      var next := AssignAsWritten(m, inst, key, v);
      if SetAsWritten(m, inst, key, v).Success? {
        SetPreservesValid(m, inst, key, v);
        assert next == Set(m, inst, key, v).value;
      }
      StandingInvariantAsWritten(m, next, writes[1..]);
    }
  }

  /**
   * Caught writes never remove a field: every key the instance had, it
   * still has, so a constructed instance keeps all its schema fields.
   */
  lemma {:induction false} WritesKeepFields(m: Model, inst: Record, writes: seq<(string, Value)>)
    ensures inst.slots.Keys <= AssignAll(m, inst, writes).slots.Keys
    ensures inst.WellFormed() ==> AssignAll(m, inst, writes).WellFormed()
    decreases |writes|
  {
    if writes != [] {
      WritesKeepFields(m, Assign(m, inst, writes[0].0, writes[0].1), writes[1..]);
    }
  }

  /**
   * First failure wins: when the fields before position `i` all admit the
   * source's values and field `i` does not, construction throws field
   * `i`'s error, which names that field.
   */
  lemma FirstViolationReported(m: Model, src: Value, i: nat)
    requires m.WellFormed() && IsObject(src) && i < |m.keys|
    requires forall l :: 0 <= l < i ==> Satisfies(m.definition[m.keys[l]], Lookup(src, m.keys[l]))
    requires !Satisfies(m.definition[m.keys[i]], Lookup(src, m.keys[i]))
    ensures Construct(m, src) == Failure(Check(m.definition[m.keys[i]], Lookup(src, m.keys[i])).error)
    ensures Construct(m, src).error in {Missing(m.keys[i]), WrongType(m.keys[i], m.definition[m.keys[i]].typeName)}
  {
    var r := Construct(m, src);
    assert r.Failure?;
    var j :| 0 <= j < |m.keys| && Check(m.definition[m.keys[j]], Lookup(src, m.keys[j])) == Fail(r.error)
      && forall l :: 0 <= l < j ==> Satisfies(m.definition[m.keys[l]], Lookup(src, m.keys[l]));
    assert j == i by {
      if j < i {
        assert false;
      } else if j > i {
        assert false;
      }
    }
  }

  /**
   * A required field the source leaves `undefined` or `null`, with every
   * earlier field valid, makes construction throw "Missing: <field> is required".
   */
  lemma MissingRequiredFieldReported(m: Model, src: Value, i: nat)
    requires m.WellFormed() && IsObject(src) && i < |m.keys|
    requires forall l :: 0 <= l < i ==> Satisfies(m.definition[m.keys[l]], Lookup(src, m.keys[l]))
    requires m.definition[m.keys[i]].required && IsNullish(Lookup(src, m.keys[i]))
    ensures Construct(m, src) == Failure(Missing(m.keys[i]))
    ensures Message(Construct(m, src).error) == "Missing: " + m.keys[i] + " is required"
  {
    FirstViolationReported(m, src, i);
  }

  /** `DefinedKeys` depends only on the values the listed keys read as. */
  lemma {:induction false} DefinedKeysAgree(a: Record, b: Record, ks: seq<string>)
    requires forall k :: k in ks ==> Get(a, k) == Get(b, k)
    ensures DefinedKeys(a, ks) == DefinedKeys(b, ks)
    decreases |ks|
  {
    if ks != [] {
      assert forall k :: k in ks[1..] ==> k in ks;
      DefinedKeysAgree(a, b, ks[1..]);
    }
  }

  /**
   * When the first `n` listed fields are defined and the rest are
   * `undefined`, `DefinedKeys` keeps exactly the first `n`.
   */
  lemma {:induction false} DefinedKeysPrefix(inst: Record, ks: seq<string>, n: nat)
    requires n <= |ks|
    requires forall i :: 0 <= i < n ==> Get(inst, ks[i]) != Undef
    requires forall i :: n <= i < |ks| ==> Get(inst, ks[i]) == Undef
    ensures DefinedKeys(inst, ks) == ks[..n]
    decreases |ks|
  {
    if ks != [] {
      var n' := if n == 0 then 0 else n - 1;
      PrefixSplitShifts(inst, ks, n);
      DefinedKeysPrefix(inst, ks[1..], n');
      DefinedKeysPrefixStep(inst, ks, n);
    }
  }

  /** The defined-then-undefined split of `ks` at `n` shifts to `ks[1..]`. */
  lemma PrefixSplitShifts(inst: Record, ks: seq<string>, n: nat)
    requires 0 < |ks| && n <= |ks|
    requires forall i :: 0 <= i < n ==> Get(inst, ks[i]) != Undef
    requires forall i :: n <= i < |ks| ==> Get(inst, ks[i]) == Undef
    ensures var n' := if n == 0 then 0 else n - 1;
      && n' <= |ks[1..]|
      && (forall i :: 0 <= i < n' ==> Get(inst, ks[1..][i]) != Undef)
      && (forall i :: n' <= i < |ks[1..]| ==> Get(inst, ks[1..][i]) == Undef)
  {
    var rest, n' := ks[1..], if n == 0 then 0 else n - 1;
    forall i | 0 <= i < n' ensures Get(inst, rest[i]) != Undef {
      assert rest[i] == ks[i + 1];
    }
    forall i | n' <= i < |rest| ensures Get(inst, rest[i]) == Undef {
      assert rest[i] == ks[i + 1];
    }
  }

  /** One unfolding of `DefinedKeys` at the head of a defined-then-undefined list. */
  lemma DefinedKeysPrefixStep(inst: Record, ks: seq<string>, n: nat)
    requires 0 < |ks| && n <= |ks|
    requires n == 0 ==> Get(inst, ks[0]) == Undef
    requires n > 0 ==> Get(inst, ks[0]) != Undef
    requires DefinedKeys(inst, ks[1..]) == ks[1..][..if n == 0 then 0 else n - 1]
    ensures DefinedKeys(inst, ks) == ks[..n]
  {
    if n > 0 {
      assert ks[..n] == [ks[0]] + ks[1..][..n - 1];
    }
  }

  /** A constructed instance reads, on every schema field, what the source object holds there. */
  lemma ConstructCopiesSource(m: Model, rec: Record)
    requires m.WellFormed()
    requires Construct(m, Obj(rec)).Success?
    ensures forall k :: k in m.keys ==> Get(Construct(m, Obj(rec)).value, k) == Get(rec, k)
  {
    var inst := Construct(m, Obj(rec)).value;
    forall k | k in m.keys ensures Get(inst, k) == Get(rec, k) {
      assert Get(inst, k) == Lookup(Obj(rec), k);
    }
  }

  /**
   * Round trip: a source object holding only schema fields, none of them
   * `undefined`, that constructs successfully comes back from
   * `toPlainObject` with the same fields and values.
   */
  lemma PlainObjectRoundTrip(m: Model, rec: Record)
    requires m.WellFormed()
    requires forall k :: k in rec.slots ==> k in m.definition && rec.slots[k] != Undef
    requires Construct(m, Obj(rec)).Success?
    ensures ToPlainObject(m, Construct(m, Obj(rec)).value).slots == rec.slots
  {
    ConstructCopiesSource(m, rec);
    PlainObjectOfCopy(m, Construct(m, Obj(rec)).value, rec);
  }

  /**
   * An instance that reads like `rec` on every schema field projects back
   * to `rec`'s properties, when `rec` holds only defined schema fields.
   */
  lemma PlainObjectOfCopy(m: Model, inst: Record, rec: Record)
    requires m.WellFormed()
    requires forall k :: k in rec.slots ==> k in m.definition && rec.slots[k] != Undef
    requires forall k :: k in m.keys ==> Get(inst, k) == Get(rec, k)
    ensures ToPlainObject(m, inst).slots == rec.slots
  {
    var plain := ToPlainObject(m, inst);
    forall k
      ensures k in plain.slots <==> k in rec.slots
      ensures k in plain.slots ==> plain.slots[k] == rec.slots[k]
    {
      if k in m.keys {
        assert Get(inst, k) == Get(rec, k);
      }
    }
  }

  /**
   * When the source also lists its keys in schema order, the round trip
   * gives back exactly the source object, key order included.
   */
  lemma PlainObjectRoundTripOrdered(m: Model, rec: Record)
    requires m.WellFormed()
    requires forall k :: k in rec.slots ==> k in m.definition && rec.slots[k] != Undef
    requires Construct(m, Obj(rec)).Success?
    requires rec.keys == DefinedKeys(rec, m.keys)
    ensures ToPlainObject(m, Construct(m, Obj(rec)).value) == rec
  {
    PlainObjectRoundTrip(m, rec);
    ConstructCopiesSource(m, rec);
    DefinedKeysAgree(Construct(m, Obj(rec)).value, rec, m.keys);
  }

  /** The projection never emits `undefined`, and emits a schema field holding `null`. */
  lemma PlainObjectOmitsOnlyUndefined(m: Model, inst: Record, k: string)
    requires k in m.keys
    ensures k !in ToPlainObject(m, inst).slots <==> Get(inst, k) == Undef
    ensures Get(inst, k) == Null ==> ToPlainObject(m, inst).slots[k] == Null
  {
  }

  // ---------------------------------------------------------------------
  // The code as written
  // ---------------------------------------------------------------------

  /** A schema with one optional Number field `col1`. */
  function OptionalNumberModel(): (m: Model)
    ensures m.WellFormed() && m.keys == ["col1"]
  {
    Create([("col1", Preset(Number))])
  }

  /**
   * The constructor guard as written admits a truthy primitive: `new Model(42)`
   * for an all-optional schema succeeds, whereas the intended guard refuses it.
   */
  lemma TruthyPrimitiveAccepted()
    ensures ConstructAsWritten(OptionalNumberModel(), Num(42.0)).Success?
    ensures Construct(OptionalNumberModel(), Num(42.0)) == Failure(NotPlainObject)
  {
    var m := OptionalNumberModel();
    assert m.definition["col1"] == SetKey(Preset(Number), "col1");
    assert Populate(m, Num(42.0), 1, Put(Empty, "col1", Undef)).Success?;
  }

  /**
   * The set trap as written throws the engine's TypeError when a key that
   * is not in the schema names a member of `Object.prototype`, although
   * such a write should pass through unchecked.
   */
  lemma PrototypeKeyWriteThrows(m: Model, inst: Record, v: Value)
    requires "toString" !in m.definition
    ensures SetAsWritten(m, inst, "toString", v) == Failure(CheckNotAFunction("toString"))
    ensures Set(m, inst, "toString", v) == Success(Put(inst, "toString", v))
  {
  }
}
