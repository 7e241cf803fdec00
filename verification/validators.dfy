/**
  The two fail-fast checks run on a record before it is saved: required-field
  presence, then the number, string and boolean type passes.
 */
module Validators {
  import opened Wrappers
  import opened Values
  import opened Errors

  /** The field lists a document declares per primitive kind; each may be absent. */
  datatype Declarations = Declarations(
    numberFields: Option<seq<string>>,
    textFields: Option<seq<string>>,
    booleanFields: Option<seq<string>>)

  // ---------------------------------------------------------------------------
  // Required fields
  // ---------------------------------------------------------------------------

  /** `fields[i]` is the first name in `fields` that is not an own key of `doc`. */
  ghost predicate FirstMissingAt(doc: Record, fields: seq<string>, i: int)
  {
    && 0 <= i < |fields|
    && fields[i] !in doc
    && forall j :: 0 <= j < i ==> fields[j] in doc
  }

  /**
    Walks the required names in order and throws for the first one that is not
    an own key of the record; the value under a present key is never looked at.
   */
  function ValidateRequiredFields(doc: Record, requiredFields: seq<string>): (r: Outcome)
    ensures r.Pass? <==> forall i :: 0 <= i < |requiredFields| ==> requiredFields[i] in doc
    ensures r.Fail? ==>
      exists i :: FirstMissingAt(doc, requiredFields, i) && r.error == RequiredFieldError(requiredFields[i])
  {
    if |requiredFields| == 0 then Pass
    else if requiredFields[0] !in doc then
      assert FirstMissingAt(doc, requiredFields, 0);
      Fail(RequiredFieldError(requiredFields[0]))
    else
      var r := ValidateRequiredFields(doc, requiredFields[1..]);
      assert r.Fail? ==> exists i :: FirstMissingAt(doc, requiredFields, i) && r.error == RequiredFieldError(requiredFields[i]) by {
        if r.Fail? {
          var i :| FirstMissingAt(doc, requiredFields[1..], i) && r.error == RequiredFieldError(requiredFields[1..][i]);
          assert FirstMissingAt(doc, requiredFields, i + 1);
        }
      }
      r
  }

  /** When several required names are missing, the error names the first of them. */
  lemma {:induction false} RequiredReportsFirstMissing(doc: Record, requiredFields: seq<string>, i: int)
    requires FirstMissingAt(doc, requiredFields, i)
    ensures ValidateRequiredFields(doc, requiredFields) == Fail(RequiredFieldError(requiredFields[i]))
  {
    if i > 0 {
      assert FirstMissingAt(doc, requiredFields[1..], i - 1);
      RequiredReportsFirstMissing(doc, requiredFields[1..], i - 1);
    }
  }

  /**
    Presence is by key only: two records with the same keys get the same outcome,
    whatever values (`null`, `false`, `0`, `""`, `undefined`) sit under them.
   */
  lemma {:induction false} RequiredIgnoresValues(doc1: Record, doc2: Record, requiredFields: seq<string>)
    requires doc1.Keys == doc2.Keys
    ensures ValidateRequiredFields(doc1, requiredFields) == ValidateRequiredFields(doc2, requiredFields)
  {
    if |requiredFields| > 0 {
      assert requiredFields[0] in doc1 <==> requiredFields[0] in doc2.Keys;
      RequiredIgnoresValues(doc1, doc2, requiredFields[1..]);
    }
  }

  // ---------------------------------------------------------------------------
  // Type passes
  // ---------------------------------------------------------------------------

  /** Field `f` satisfies the pass for `k`: it is absent, or its value is of kind `k`. */
  ghost predicate WellTyped(doc: Record, f: string, k: Kind)
  {
    f in doc ==> IsKind(doc[f], k)
  }

  /** `fields[i]` is the first name in `fields` that is present with a value not of kind `k`. */
  ghost predicate FirstIllTypedAt(doc: Record, fields: seq<string>, k: Kind, i: int)
  {
    && 0 <= i < |fields|
    && !WellTyped(doc, fields[i], k)
    && forall j :: 0 <= j < i ==> WellTyped(doc, fields[j], k)
  }

  /**
    One type pass: walks `fields` in order and throws for the first one that is an
    own key of the record whose value's `typeof` is not the tag of `k`.
   */
  function ValidateKind(doc: Record, fields: seq<string>, k: Kind): (r: Outcome)
    ensures r.Pass? <==> forall i :: 0 <= i < |fields| ==> WellTyped(doc, fields[i], k)
    ensures r.Fail? ==>
      exists i :: FirstIllTypedAt(doc, fields, k, i) && r.error == InvalidFieldTypeError(k, fields[i])
  {
    if |fields| == 0 then Pass
    else if fields[0] in doc && TypeOf(doc[fields[0]]) != Tag(k) then
      TagMatchesKind(doc[fields[0]], k);
      assert FirstIllTypedAt(doc, fields, k, 0);
      Fail(InvalidFieldTypeError(k, fields[0]))
    else
      assert WellTyped(doc, fields[0], k) by {
        if fields[0] in doc { TagMatchesKind(doc[fields[0]], k); }
      }
      var r := ValidateKind(doc, fields[1..], k);
      assert r.Fail? ==> exists i :: FirstIllTypedAt(doc, fields, k, i) && r.error == InvalidFieldTypeError(k, fields[i]) by {
        if r.Fail? {
          var i :| FirstIllTypedAt(doc, fields[1..], k, i) && r.error == InvalidFieldTypeError(k, fields[1..][i]);
          assert FirstIllTypedAt(doc, fields, k, i + 1);
        }
      }
      assert r.Pass? ==> forall i :: 0 <= i < |fields| ==> WellTyped(doc, fields[i], k) by {
        if r.Pass? {
          forall i | 0 <= i < |fields| ensures WellTyped(doc, fields[i], k) {
            if i > 0 { assert fields[i] == fields[1..][i - 1]; }
          }
        }
      }
      r
  }

  /** The number pass: every present listed field must hold a number. */
  function ValidateNumbers(doc: Record, numberFields: seq<string>): (r: Outcome)
    ensures r.Pass? <==> forall f :: f in numberFields && f in doc ==> doc[f].Num?
    ensures r.Fail? ==>
      && r.error.InvalidFieldTypeError?
      && Label(r.error.expected) == "Number"
      && r.error.field in numberFields
      && r.error.field in doc
      && !doc[r.error.field].Num?
    ensures r.Fail? ==>
      exists i :: FirstIllTypedAt(doc, numberFields, Number, i) && r.error == InvalidFieldTypeError(Number, numberFields[i])
  {
    ValidateKind(doc, numberFields, Number)
  }

  /** The string pass: every present listed field must hold a string. */
  function ValidateStrings(doc: Record, stringFields: seq<string>): (r: Outcome)
    ensures r.Pass? <==> forall f :: f in stringFields && f in doc ==> doc[f].Str?
    ensures r.Fail? ==>
      && r.error.InvalidFieldTypeError?
      && Label(r.error.expected) == "String"
      && r.error.field in stringFields
      && r.error.field in doc
      && !doc[r.error.field].Str?
    ensures r.Fail? ==>
      exists i :: FirstIllTypedAt(doc, stringFields, String, i) && r.error == InvalidFieldTypeError(String, stringFields[i])
  {
    ValidateKind(doc, stringFields, String)
  }

  /** The boolean pass: every present listed field must hold a boolean. */
  function ValidateBooleans(doc: Record, booleanFields: seq<string>): (r: Outcome)
    ensures r.Pass? <==> forall f :: f in booleanFields && f in doc ==> doc[f].Bool?
    ensures r.Fail? ==>
      && r.error.InvalidFieldTypeError?
      && Label(r.error.expected) == "Boolean"
      && r.error.field in booleanFields
      && r.error.field in doc
      && !doc[r.error.field].Bool?
    ensures r.Fail? ==>
      exists i :: FirstIllTypedAt(doc, booleanFields, Boolean, i) && r.error == InvalidFieldTypeError(Boolean, booleanFields[i])
  {
    ValidateKind(doc, booleanFields, Boolean)
  }

  /** Within a pass, the error names the first ill-typed field in list order. */
  lemma {:induction false} KindReportsFirstIllTyped(doc: Record, fields: seq<string>, k: Kind, i: int)
    requires FirstIllTypedAt(doc, fields, k, i)
    ensures ValidateKind(doc, fields, k) == Fail(InvalidFieldTypeError(k, fields[i]))
  {
    if i == 0 {
      TagMatchesKind(doc[fields[0]], k);
    } else {
      assert FirstIllTypedAt(doc, fields[1..], k, i - 1);
      KindReportsFirstIllTyped(doc, fields[1..], k, i - 1);
      if fields[0] in doc { TagMatchesKind(doc[fields[0]], k); }
    }
  }

  /** The names in `fields` that are own keys of `doc`, in their original order. */
  function Present(doc: Record, fields: seq<string>): (p: seq<string>)
    ensures forall f :: f in p <==> f in fields && f in doc
  {
    if |fields| == 0 then []
    else if fields[0] in doc then [fields[0]] + Present(doc, fields[1..])
    else Present(doc, fields[1..])
  }

  /** A pass never fails on an absent field: dropping every absent name changes nothing. */
  lemma {:induction false} KindSkipsAbsent(doc: Record, fields: seq<string>, k: Kind)
    ensures ValidateKind(doc, fields, k) == ValidateKind(doc, Present(doc, fields), k)
  {
    if |fields| > 0 {
      KindSkipsAbsent(doc, fields[1..], k);
      if fields[0] in doc {
        assert ([fields[0]] + Present(doc, fields[1..]))[1..] == Present(doc, fields[1..]);
      }
    }
  }

  // ---------------------------------------------------------------------------
  // Dispatch
  // ---------------------------------------------------------------------------

  /** The `list?.length` guard: the list is there and not empty. */
  predicate Listed(fields: Option<seq<string>>)
  {
    fields.Some? && |fields.value| > 0
  }

  /** A declared list, reading an absent one as empty. */
  function OrEmpty(fields: Option<seq<string>>): seq<string>
  {
    if fields.Some? then fields.value else []
  }

  /** All present fields of `fields` hold values of kind `k`. */
  ghost predicate AllWellTyped(doc: Record, fields: seq<string>, k: Kind)
  {
    forall i :: 0 <= i < |fields| ==> WellTyped(doc, fields[i], k)
  }

  /**
    Runs the number, string and boolean passes in that order, skipping a pass whose
    list is absent or empty; the first error thrown ends the validation.
   */
  function ValidateDataTypes(doc: Record, decl: Declarations): (r: Outcome)
    ensures r.Pass? <==>
      && AllWellTyped(doc, OrEmpty(decl.numberFields), Number)
      && AllWellTyped(doc, OrEmpty(decl.textFields), String)
      && AllWellTyped(doc, OrEmpty(decl.booleanFields), Boolean)
    ensures r.Fail? ==> r.error.InvalidFieldTypeError?
    ensures r.Fail? && r.error.expected == Number ==> r.error.field in OrEmpty(decl.numberFields)
    ensures r.Fail? && r.error.expected == String ==> r.error.field in OrEmpty(decl.textFields)
    ensures r.Fail? && r.error.expected == Boolean ==> r.error.field in OrEmpty(decl.booleanFields)
  {
    var numbers := if Listed(decl.numberFields) then ValidateNumbers(doc, decl.numberFields.value) else Pass;
    if numbers.Fail? then numbers
    else
      var strings := if Listed(decl.textFields) then ValidateStrings(doc, decl.textFields.value) else Pass;
      if strings.Fail? then strings
      else if Listed(decl.booleanFields) then ValidateBooleans(doc, decl.booleanFields.value)
      else Pass
  }

  /** The three passes run unconditionally, each over its list or the empty list. */
  function ValidateAllKinds(doc: Record, decl: Declarations): Outcome
  {
    var numbers := ValidateKind(doc, OrEmpty(decl.numberFields), Number);
    if numbers.Fail? then numbers
    else
      var strings := ValidateKind(doc, OrEmpty(decl.textFields), String);
      if strings.Fail? then strings
      else ValidateKind(doc, OrEmpty(decl.booleanFields), Boolean)
  }

  /** Skipping an absent or empty list gives the same result as running its pass over nothing. */
  lemma GuardIsTransparent(doc: Record, decl: Declarations)
    ensures ValidateDataTypes(doc, decl) == ValidateAllKinds(doc, decl)
  {
  }

  /** A number violation is reported whatever the string and boolean fields hold. */
  lemma NumberErrorWins(doc: Record, decl: Declarations, i: int)
    requires FirstIllTypedAt(doc, OrEmpty(decl.numberFields), Number, i)
    ensures ValidateDataTypes(doc, decl) == Fail(InvalidFieldTypeError(Number, OrEmpty(decl.numberFields)[i]))
  {
    KindReportsFirstIllTyped(doc, OrEmpty(decl.numberFields), Number, i);
  }

  /** With the numbers fine, a string violation is reported over any boolean one. */
  lemma StringErrorBeatsBoolean(doc: Record, decl: Declarations, i: int)
    requires AllWellTyped(doc, OrEmpty(decl.numberFields), Number)
    requires FirstIllTypedAt(doc, OrEmpty(decl.textFields), String, i)
    ensures ValidateDataTypes(doc, decl) == Fail(InvalidFieldTypeError(String, OrEmpty(decl.textFields)[i]))
  {
    KindReportsFirstIllTyped(doc, OrEmpty(decl.textFields), String, i);
  }

  /** A boolean violation is reported only when the numbers and strings are fine. */
  lemma BooleanErrorLast(doc: Record, decl: Declarations, i: int)
    requires AllWellTyped(doc, OrEmpty(decl.numberFields), Number)
    requires AllWellTyped(doc, OrEmpty(decl.textFields), String)
    requires FirstIllTypedAt(doc, OrEmpty(decl.booleanFields), Boolean, i)
    ensures ValidateDataTypes(doc, decl) == Fail(InvalidFieldTypeError(Boolean, OrEmpty(decl.booleanFields)[i]))
  {
    KindReportsFirstIllTyped(doc, OrEmpty(decl.booleanFields), Boolean, i);
  }

  // ---------------------------------------------------------------------------
  // The caller's sequencing
  // ---------------------------------------------------------------------------

  /** What saving a record checks first: required fields, then the type passes. */
  function ValidateRecord(doc: Record, requiredFields: seq<string>, decl: Declarations): (r: Outcome)
    ensures r.Pass? <==> ValidateRequiredFields(doc, requiredFields).Pass? && ValidateDataTypes(doc, decl).Pass?
    ensures (exists i :: 0 <= i < |requiredFields| && requiredFields[i] !in doc) <==>
      r.Fail? && r.error.RequiredFieldError?
  {
    var required := ValidateRequiredFields(doc, requiredFields);
    if required.Fail? then required else ValidateDataTypes(doc, decl)
  }
}
