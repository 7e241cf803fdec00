/**
  The situations the repository's validation tests exercise, on the article
  schema those tests imply: `name` required and a string, `price` a number,
  `active` a boolean.
 */
module Scenarios {
  import opened Wrappers
  import opened Values
  import opened Errors
  import opened Validators

  const ArticleRequired: seq<string> := ["name"]
  const ArticleTypes: Declarations := Declarations(Some(["price"]), Some(["name"]), Some(["active"]))

  /** A new article without a name is refused for the missing name. */
  lemma EmptyArticleMissesName()
    ensures ValidateRecord(map[], ArticleRequired, ArticleTypes) == Fail(RequiredFieldError("name"))
    ensures Message(ValidateRecord(map[], ArticleRequired, ArticleTypes).error) == "Missing required field: 'name'"
  {
    RequiredReportsFirstMissing(map[], ArticleRequired, 0);
  }

  /** A numeric-looking string under `price` fails the number pass. */
  lemma StringPriceIsNotNumber()
    ensures
      var doc := map["name" := Str("Validation article name"), "price" := Str("test price")];
      ValidateRecord(doc, ArticleRequired, ArticleTypes) == Fail(InvalidFieldTypeError(Number, "price"))
  {
    var doc := map["name" := Str("Validation article name"), "price" := Str("test price")];
    assert FirstIllTypedAt(doc, ["price"], Number, 0);
    NumberErrorWins(doc, ArticleTypes, 0);
  }

  /** An object id under `name` passes the required check and fails the string pass. */
  lemma ObjectNameIsNotString()
    ensures
      var doc := map["name" := Obj];
      ValidateRecord(doc, ArticleRequired, ArticleTypes) == Fail(InvalidFieldTypeError(String, "name"))
  {
    var doc := map["name" := Obj];
    assert FirstIllTypedAt(doc, ["name"], String, 0);
    StringErrorBeatsBoolean(doc, ArticleTypes, 0);
  }

  /** The number 1 under `active` is not a boolean. */
  lemma OneIsNotBoolean()
    ensures
      var doc := map["name" := Str("Validation article name"), "active" := Num(1.0)];
      ValidateRecord(doc, ArticleRequired, ArticleTypes) == Fail(InvalidFieldTypeError(Boolean, "active"))
  {
    var doc := map["name" := Str("Validation article name"), "active" := Num(1.0)];
    assert FirstIllTypedAt(doc, ["active"], Boolean, 0);
    BooleanErrorLast(doc, ArticleTypes, 0);
  }

  /** Null, an object and a string are refused by the number pass; only a number is accepted. */
  lemma NumberPassRejectsNonNumbers(f: string, v: Value)
    ensures ValidateNumbers(map[f := v], [f]).Pass? <==> v.Num?
    ensures !v.Num? ==> ValidateNumbers(map[f := v], [f]) == Fail(InvalidFieldTypeError(Number, f))
  {
    if !v.Num? {
      assert FirstIllTypedAt(map[f := v], [f], Number, 0);
      KindReportsFirstIllTyped(map[f := v], [f], Number, 0);
    }
  }

  /** A required field holding a falsy value (`null`, `false`, `0`, `""`) still counts as present. */
  lemma FalsyRequiredIsPresent(doc: Record, f: string, v: Value)
    requires v in {Null, Bool(false), Num(0.0), Str(""), Undefined}
    ensures ValidateRequiredFields(doc[f := v], [f]) == Pass
  {
  }
}
