/**
  The two errors the validators throw, and the messages their constructors build.
 */
module Errors {
  import opened Wrappers
  import opened Values

  /** The first violation found; validation stops there. */
  datatype ValidationError =
    | RequiredFieldError(field: string)
    | InvalidFieldTypeError(expected: Kind, field: string)

  /** What a validator returns: nothing, or the error it throws. */
  datatype Outcome = Pass | Fail(error: ValidationError)

  const RequiredPrefix: string := "Missing required field: '"
  const TypePrefix: string := "Field '"
  const TypeInfix: string := "' must be of type '"

  /** The text following the field name in a type error's message. */
  function TypeSuffix(k: Kind): string
  {
    TypeInfix + Label(k) + "'"
  }

  /** The message the error's constructor passes to `Error`. */
  function Message(e: ValidationError): (m: string)
    ensures e.RequiredFieldError? ==>
      && RequiredPrefix <= m
      && |m| == |RequiredPrefix| + |e.field| + 1
      && m[|RequiredPrefix|..|m| - 1] == e.field
      && m[|m| - 1] == '\''
    ensures e.InvalidFieldTypeError? ==>
      && TypePrefix <= m
      && |m| == |TypePrefix| + |e.field| + |TypeSuffix(e.expected)|
      && m[|TypePrefix|..|TypePrefix| + |e.field|] == e.field
      && m[|TypePrefix| + |e.field|..] == TypeSuffix(e.expected)
  {
    match e
    case RequiredFieldError(f) => RequiredPrefix + f + "'"
    case InvalidFieldTypeError(k, f) => TypePrefix + f + TypeInfix + Label(k) + "'"
  }

  /** `suffix` ends `m`. */
  predicate EndsWith(m: string, suffix: string)
  {
    |suffix| <= |m| && m[|m| - |suffix|..] == suffix
  }

  /** Reads back a type error for kind `k` from a message, if it has that shape. */
  function ParseTypeError(m: string, k: Kind): Option<ValidationError>
  {
    if TypePrefix <= m && |TypePrefix| + |TypeSuffix(k)| <= |m| && EndsWith(m, TypeSuffix(k))
    then Some(InvalidFieldTypeError(k, m[|TypePrefix|..|m| - |TypeSuffix(k)|]))
    else None
  }

  /** Recovers the error a message was built from; the inverse of `Message`. */
  function ParseMessage(m: string): Option<ValidationError>
  {
    if RequiredPrefix <= m && |RequiredPrefix| < |m| && m[|m| - 1] == '\'' then
      Some(RequiredFieldError(m[|RequiredPrefix|..|m| - 1]))
    else if ParseTypeError(m, Boolean).Some? then ParseTypeError(m, Boolean)
    else if ParseTypeError(m, Number).Some? then ParseTypeError(m, Number)
    else ParseTypeError(m, String)
  }

  /** Every message names its error uniquely: parsing it gives the error back. */
  lemma MessageRoundTrip(e: ValidationError)
    ensures ParseMessage(Message(e)) == Some(e)
  {
    var m := Message(e);
    match e
    case RequiredFieldError(f) =>
    case InvalidFieldTypeError(k, f) =>
      assert m[0] == 'F';
      assert !(RequiredPrefix <= m);
      var n := |TypePrefix| + |f|;
      assert m[n..] == TypeSuffix(k);
      assert m[n] == '\'';
      if k != Boolean {
        // The Boolean suffix is one longer and has a blank where this one has its quote.
        assert m[n] != TypeSuffix(Boolean)[1];
        assert !EndsWith(m, TypeSuffix(Boolean));
      }
      if k == String {
        assert m[n + |TypeInfix|] == 'S';
        assert TypeSuffix(Number)[|TypeInfix|] == 'N';
        assert !EndsWith(m, TypeSuffix(Number));
      }
  }

  /** Two errors with the same message are the same error. */
  lemma MessageInjective(e1: ValidationError, e2: ValidationError)
    ensures Message(e1) == Message(e2) <==> e1 == e2
  {
    MessageRoundTrip(e1);
    MessageRoundTrip(e2);
  }
}
