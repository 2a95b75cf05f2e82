/**
 * JavaScript values, as far as the validator can tell them apart, and plain
 * objects as ordered collections of own properties.
 */
module Values {

  /**
   * A JavaScript value. Numbers are reals (NaN and the infinities are not
   * modelled); a Date is an object carrying its time stamp; a plain object
   * is the record of its own enumerable properties.
   */
  datatype Value =
    | Undef
    | Null
    | Bool(b: bool)
    | Num(n: real)
    | Str(s: string)
    | DateObj(time: int)
    | Obj(record: Record)

  /**
   * An object's own properties: `keys` is their enumeration order
   * (insertion order), `slots` their current values.
   */
  datatype Record = Record(keys: seq<string>, slots: map<string, Value>) {

    /** Every key is listed exactly once and the listing matches the slots. */
    predicate WellFormed() {
      && Distinct(keys)
      && (forall k :: k in slots ==> k in keys)
      && (forall k :: k in keys ==> k in slots)
    }
  }

  predicate Distinct(s: seq<string>) {
    forall i, j :: 0 <= i < j < |s| ==> s[i] != s[j]
  }

  /** A fresh object with no own properties. */
  const Empty: Record := Record([], map[])

  /** Reading `r[key]`: a missing own property reads as `undefined`. */
  function Get(r: Record, key: string): Value {
    if key in r.slots then r.slots[key] else Undef
  }

  /**
   * Assignment `r[key] = v` on an ordinary object: the property takes the
   * new value, an existing key keeps its place in the enumeration order and
   * a new key is enumerated last.
   */
  function Put(r: Record, key: string, v: Value): (r': Record)
    ensures Get(r', key) == v
    ensures forall k :: k != key ==> Get(r', k) == Get(r, k)
    ensures r'.slots.Keys == r.slots.Keys + {key}
    ensures key in r.slots ==> r'.keys == r.keys
    ensures key !in r.slots ==> r'.keys == r.keys + [key]
    ensures r.WellFormed() ==> r'.WellFormed()
  {
    if key in r.slots then Record(r.keys, r.slots[key := v])
    else Record(r.keys + [key], r.slots[key := v])
  }

  /** `undefined` or `null`: the values `v === undefined || v === null` catches. */
  predicate IsNullish(v: Value) {
    v.Undef? || v.Null?
  }

  /** JavaScript truthiness (NaN, which is also falsy, is not modelled). */
  predicate Truthy(v: Value) {
    match v
    case Undef => false
    case Null => false
    case Bool(b) => b
    case Num(n) => n != 0.0
    case Str(s) => s != ""
    case DateObj(_) => true
    case Obj(_) => true
  }

  /** lodash `_.isObject`: a non-null value of object type. */
  predicate IsObject(v: Value) {
    v.DateObj? || v.Obj?
  }

  /**
   * Property read `src[key]` on an arbitrary value: a plain object yields
   * its own property (or `undefined`); every other value reads as `undefined`.
   */
  function Lookup(src: Value, key: string): (v: Value)
    ensures !src.Obj? ==> v == Undef
  {
    if src.Obj? then Get(src.record, key) else Undef
  }
}
