/**
 * The errors the validator raises and the exact messages they carry. The
 * message text is part of the observable contract: callers match on it.
 */
module Errors {

  datatype Error =
    /** A required field is `undefined` or `null`. */
    | Missing(field: string)
    /** A present value fails its field's type predicate. */
    | WrongType(field: string, typeName: string)
    /** The model constructor received an argument it refuses. */
    | NotPlainObject
    /** The engine's TypeError when the set trap calls `check` on something that has none. */
    | CheckNotAFunction(key: string)

  /** The errors the library itself throws as `CinzelError`. */
  predicate IsCinzelError(e: Error) {
    !e.CheckNotAFunction?
  }

  const MissingPrefix := "Missing: "
  const MissingSuffix := " is required"
  const WrongTypePrefix := "Wrong Type: "
  const WrongTypeInfix := " should be type "

  /** The text an error carries. */
  function Message(e: Error): string {
    match e
    case Missing(f) => MissingPrefix + f + MissingSuffix
    case WrongType(f, t) => WrongTypePrefix + f + WrongTypeInfix + t
    case NotPlainObject => "Constructor argument must be a plain object"
    case CheckNotAFunction(_) => "definition[key].check is not a function"
  }

  /**
   * The layout of the two field messages: a fixed prefix, the field name,
   * and a fixed suffix or the type label.
   */
  lemma MessageLayout(e: Error)
    ensures e.Missing? ==> |Message(e)| == |MissingPrefix| + |e.field| + |MissingSuffix|
    ensures e.WrongType? ==> |Message(e)| == |WrongTypePrefix| + |e.field| + |WrongTypeInfix| + |e.typeName|
    ensures e.Missing? ==>
      && Message(e)[..|MissingPrefix|] == MissingPrefix
      && Message(e)[|MissingPrefix|..|Message(e)| - |MissingSuffix|] == e.field
      && Message(e)[|Message(e)| - |MissingSuffix|..] == MissingSuffix
    ensures e.WrongType? ==>
      && Message(e)[..|WrongTypePrefix|] == WrongTypePrefix
      && Message(e)[|WrongTypePrefix|..|WrongTypePrefix| + |e.field|] == e.field
      && Message(e)[|WrongTypePrefix| + |e.field|..|Message(e)| - |e.typeName|] == WrongTypeInfix
      && Message(e)[|Message(e)| - |e.typeName|..] == e.typeName
  {
  }

  /** A "Missing" message can never be mistaken for a "Wrong Type" one. */
  lemma MissingAndWrongTypeDiffer(f: string, g: string, t: string)
    ensures Message(Missing(f)) != Message(WrongType(g, t))
  {
    assert Message(Missing(f))[0] == 'M';
    assert Message(WrongType(g, t))[0] == 'W';
  }

  /** A "Missing" message names exactly one field. */
  lemma {:induction false} MissingMessageNamesField(f: string, g: string)
    requires Message(Missing(f)) == Message(Missing(g))
    ensures f == g
  {
    MessageLayout(Missing(f));
    MessageLayout(Missing(g));
    var m := Message(Missing(f));
    assert |f| == |g|;
    assert m[|MissingPrefix|..|MissingPrefix| + |f|] == f;
    assert Message(Missing(g))[|MissingPrefix|..|MissingPrefix| + |g|] == g;
  }

  /** For one type label, a "Wrong Type" message names exactly one field. */
  lemma {:induction false} WrongTypeMessageNamesField(f: string, g: string, t: string)
    requires Message(WrongType(f, t)) == Message(WrongType(g, t))
    ensures f == g
  {
    MessageLayout(WrongType(f, t));
    MessageLayout(WrongType(g, t));
    var m := Message(WrongType(f, t));
    assert |f| == |g|;
    assert m[|WrongTypePrefix|..|WrongTypePrefix| + |f|] == f;
    assert Message(WrongType(g, t))[|WrongTypePrefix|..|WrongTypePrefix| + |g|] == g;
  }
}
