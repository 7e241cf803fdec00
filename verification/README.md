# Record validators, modelled in Dafny

This project models the schema-conformance validator of the `sunshine` data layer
(`src/Validators.ts`). Before a record is saved, two fail-fast checks run over it:

- **required fields**: the declared required names are walked in order, and the first
  name that is not an own key of the record throws `RequiredFieldError`. Only the
  presence of the key counts, never its value.
- **data types**: three passes run in a fixed order, number, then string, then boolean.
  A pass is skipped when its declared list is absent or empty. Each pass looks only at
  listed fields that are present. The first one whose `typeof` is wrong throws
  `InvalidFieldTypeError` with the label `Number`, `String` or `Boolean`.

The model is functional:

- a record is a `map<string, Value>`;
- `Value` splits JavaScript values at least as finely as `typeof` does, keeping `null`
  apart from other objects (`Num`, `Str`, `Bool`, `Null`, `Undefined`, and `Obj` for
  every other object, such as an `ObjectId`);
- declaration lists are `seq<string>`, wrapped in `Option` where the document may
  leave them undefined;
- a thrown error is a `Fail(error)` outcome.

Files:

- `wrappers.dfy` holds `Option`.
- `values.dfy` holds values, `typeof`, the three kinds and their labels.
- `errors.dfy` holds the two errors, their messages and a parser that inverts them.
- `validators.dfy` holds the checks and their ordering lemmas.
- `scenarios.dfy` holds the situations the repository's tests exercise.

The tests run against an `Article` document whose definition is not part of this model.
The scenarios assume the schema the tests imply: `name` is required and a string,
`price` is a number, and `active` is a boolean.

The error label is modelled as a `Kind` (`Number | String | Boolean`) rendered by
`Label`. The source passes a string here, but only ever one of those three.

## Model

| member | source | states |
|---|---|---|
| Values.TagMatchesKind | src/Validators.ts:23 | comparing `typeof` with a pass's tag accepts exactly the values of that primitive kind, so `null`, objects and `undefined` never pass |
| Values.LabelInjective | src/Validators.ts:21-40 | the three passes report three different labels, so the label identifies the pass that failed |
| Errors.Message | src/Validators.ts:42-52 | a missing-field message is the prefix `Missing required field: '`, the field, then a closing quote; a type-error message is `Field '`, the field, then `' must be of type '`, the label and a quote |
| Errors.MessageRoundTrip | src/Validators.ts:42-52 | every error's message can be parsed back into exactly that error |
| Errors.MessageInjective | src/Validators.ts:42-52 | two errors have the same message if and only if they are the same error |
| Validators.ValidateRequiredFields | src/Validators.ts:3-8 | succeeds exactly when every required name is a key of the record (so an empty list always succeeds); a failure names a missing field with every earlier name present |
| Validators.RequiredReportsFirstMissing | src/Validators.ts:4-6 | when several required names are missing, the error names the first of them in list order |
| Validators.RequiredIgnoresValues | src/Validators.ts:5 | records with the same keys get the same required-field outcome, whatever the values are |
| Validators.ValidateKind | src/Validators.ts:21-40 | a pass succeeds exactly when every listed present field holds its kind; a failure names the first present field of the wrong kind, with that kind's label |
| Validators.ValidateNumbers | src/Validators.ts:21-26 | succeeds exactly when every listed present field holds a number; a failure carries label `Number` and names the first listed, present, non-number field |
| Validators.ValidateStrings | src/Validators.ts:28-33 | succeeds exactly when every listed present field holds a string; a failure carries label `String` and names the first listed, present, non-string field |
| Validators.ValidateBooleans | src/Validators.ts:35-40 | succeeds exactly when every listed present field holds a boolean; a failure carries label `Boolean` and names the first listed, present, non-boolean field |
| Validators.KindReportsFirstIllTyped | src/Validators.ts:22-24 | within a pass, the error names the first ill-typed present field in list order |
| Validators.KindSkipsAbsent | src/Validators.ts:23 | a pass gives the same outcome after every name absent from the record is removed from its list, so absent fields never fail |
| Validators.ValidateDataTypes | src/Validators.ts:10-19 | succeeds exactly when all three declared lists are well typed (an absent list counts as empty); every failure is a type error naming a field from the list of the kind it reports |
| Validators.GuardIsTransparent | src/Validators.ts:11-18 | skipping a pass because of the `?.length` guard gives the same result as running that pass over an empty list |
| Validators.NumberErrorWins | src/Validators.ts:10-12 | a number violation is reported, naming the first bad number field, whatever the string and boolean fields hold |
| Validators.StringErrorBeatsBoolean | src/Validators.ts:14-15 | with all number fields fine, the first string violation is reported even if a boolean field is also wrong |
| Validators.BooleanErrorLast | src/Validators.ts:17-18 | with number and string fields fine, the first boolean violation is reported |
| Validators.ValidateRecord | test/ValidationTest.test.ts:11-38 | the save-time sequence, with the required check assumed to run first: it passes exactly when both checks pass, and it reports a missing-field error exactly when some required name is absent, ahead of any type error |
| Scenarios.EmptyArticleMissesName | test/ValidationTest.test.ts:11-15 | an empty article fails with a missing-field error for `name`, whose message is `Missing required field: 'name'` |
| Scenarios.StringPriceIsNotNumber | test/ValidationTest.test.ts:17-23 | a `price` of `"test price"` fails the number pass, naming `price` |
| Scenarios.ObjectNameIsNotString | test/ValidationTest.test.ts:25-30 | an object id under `name` passes the required check and fails the string pass |
| Scenarios.OneIsNotBoolean | test/ValidationTest.test.ts:32-38 | `active` set to `1` fails the boolean pass |
| Scenarios.NumberPassRejectsNonNumbers | src/Validators.ts:21-26 | a single present field passes the number pass if and only if it holds a number; otherwise the error is `Number` for that field |
| Scenarios.FalsyRequiredIsPresent | src/Validators.ts:5 | a required field holding `null`, `false`, `0`, `""` or `undefined` counts as present |

## Left out

- Identifier, email and date validators: `src/Validators.ts` has no identifier, email or date validator; `validateDataTypes` (src/Validators.ts:10-19) dispatches only number, string and boolean, and the model follows the code.
- The `Document` class (`./Document`) is not part of this model. Its `__numberFields`, `__textFields` and `__booleanFields` lists are plain inputs (`Declarations`). The required-name list is a plain input too.
- The `save()` pipeline, MongoDB persistence and the promise rejection the tests observe are I/O. `ValidateRecord` models only the order of the two checks.
- ValidateRecord: the required-then-types order belongs to `Document.save`, which is not part of this model; it is assumed. The four tests would give the same outcomes with the type passes first.
- Purity and idempotence: both validators are Dafny functions of immutable values, so they cannot change the record and give the same outcome on the same inputs. A lemma stating this would be trivially true, so none is written.
- `hasOwnProperty` is modelled as map-key membership. Prototype-chain lookups and a record that overrides `hasOwnProperty` are not modelled.
- `typeof` results other than those of the `Value` tags are not modelled: `bigint`, `symbol` and `function` are not distinguished, and `Obj` covers every object. Numbers are reals, so `NaN` and the infinities are not represented, although their `typeof` is `number` as for any `Num`.
- A `requiredFields` argument that is not iterable (the source would throw a `TypeError` from `for ... of`) is not modelled. The list is always a sequence.
- `Error` subclass mechanics (stack traces, `instanceof`) are not modelled. Only the kind of error and its message are.
- Errors.MessageInjective: together with Errors.MessageRoundTrip, it holds for the three labels the passes use (`Kind`). The exported constructor takes any `type: string` (src/Validators.ts:49). With a free label, two different errors can build the same message: label `Number` with field `a' must be of type 'b`, and label `b' must be of type 'Number` with field `a`.
- Strings are sequences of Unicode scalar values, while JavaScript strings are UTF-16 code units. Field names holding lone surrogates cannot be represented, and the lengths in `Errors.Message`'s contract count characters, not code units.
- A `null` or `undefined` record, and an object without a prototype, make `_doc.hasOwnProperty` throw a `TypeError` (src/Validators.ts:5, 23, 30, 37). The record here is always a map, so that error is not modelled.
