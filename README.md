# sanic-agent request models in Dafny

This project models the request-parsing models of sanic-agent, a Sanic-based
web framework, and proves properties of the model:

- `ParseModel` (sanic_agent/rest/httpx/request.py). It is a pydantic model
  base class with a global registry of named field validators, which fields
  select through `json_schema_extra` (`validator`, `validator_args`). It has a
  custom `__init__` that fills defaults, a "before" validator that dispatches
  every field to its registered validator, and a `model_validate` that
  rewrites pydantic's error list using each field's `error_messages`. The
  `validate_phone` example validator and the demo models at the end of the
  file are modelled too.
- `BaseModelPydantic` (sanic_agent/core/model/base_model.py). It is a
  pydantic model with dictionary-style access: `from_data`, a filtered
  `update`, `in`, `obj[name]`, `obj[name] = v`, `keys`, `values` and `items`.
- The older `BaseModelPydantic` (sanic-agent/core/model/base_model.py). Its
  `update` does not filter, `from_data` is `cls(**data)`, and `==`/`!=`
  compare `dict()` snapshots.

Pydantic itself is not part of this model. Module `Pydantic` stands in for
it:

- A field value is a `Value`: Python scalars, lists, dicts, `None` (`Null`)
  and the `PydanticUndefined` sentinel (`Undefined`).
- A model class is a `Schema`: its field names in declaration order and a
  `FieldInfo` per field (default, validator name, validator arguments, error
  messages).
- Validation runs field by field. For each field it takes the given value
  (or the default, or reports `missing`). It runs the before-validator, then
  a coercion step. Coercion is a parameter (`Coercer`) because pydantic's type
  coercion is foreign code. All field errors are collected into one list.

The instance classes are Dafny classes. Their field table is a `map` that
`SetItem` and `Update` reassign in place.

Modules:
- `Wrappers`: `Option`, `Result` and `Outcome`.
- `Pydantic`: values, schemas, error details and field-by-field validation.
- `ParseModel`: the registry, the dispatcher, the default fill, error
  customization and `model_validate`.
- `PhoneDemo`: `validate_phone` and the three demo models.
- `BaseModel`: the newer `BaseModelPydantic`.
- `LegacyBaseModel`: the older `BaseModelPydantic` and its demo session.

Where the behaviour depends on how pydantic treats a custom `__init__`, the
model follows the code. `ParseModel.model_validate` on a dictionary goes
through the overridden `__init__` (pydantic 2 calls a custom `__init__` from
`model_validate`). So the default fill happens before validation, and the
dispatcher runs on the injected defaults too. A required field without a
value gets the `PydanticUndefined` sentinel as its value. It is not reported
as `missing`: it reaches coercion like any other value, and for a `str`
field that is a `string_type` error. The model follows this, not the looser
reading that required fields are simply reported as missing.

## Model

| member | source | states |
|---|---|---|
| `Pydantic.ValidateField` | sanic_agent/rest/httpx/request.py:26-37 | a given value goes through the before-hook then coercion; an absent field takes its default or, with no default, is one `missing` error; every error it reports is located at this field |
| `Pydantic.Located` | sanic_agent/rest/httpx/request.py:51-53 | a field's coercion errors, each with the field name put in front of its location |
| `Pydantic.ValidateFields` | sanic_agent/rest/httpx/request.py:51-53 | every field is validated and all errors are collected: passing fields carry their value, failing ones are absent and contribute all their errors, and every collected error is an error of some failing field; the list is empty exactly when every field passes |
| `Pydantic.Validate` | sanic_agent/rest/httpx/request.py:51-53 | success exactly when every field passes, with one value per field equal to that field's result; otherwise a non-empty error list that holds every failing field's errors and nothing but errors of failing fields |
| `Pydantic.ValidateOneField` | sanic_agent/rest/httpx/request.py:51-53 | a one-field model validates to that field's value or that field's errors |
| `Pydantic.ValidateTwoFields` | sanic_agent/rest/httpx/request.py:51-53 | a two-field model validates to both values, or to the first field's errors followed by the second's |
| `ParseModel.ValidatorRegistry.constructor` | sanic_agent/rest/httpx/request.py:13 | the registry starts empty |
| `ParseModel.ValidatorRegistry.Register` | sanic_agent/rest/httpx/request.py:15-24 | the name maps to the validator and its default keyword arguments, replacing an earlier entry; no other entry changes |
| `ParseModel.ExtraArgs` | sanic_agent/rest/httpx/request.py:119-122 | the field's `validator_args`, or `{}` when it declares none |
| `ParseModel.MergeArgs` | sanic_agent/rest/httpx/request.py:137 | the union of both key sets; per-field arguments override defaults; defaults survive where not overridden |
| `ParseModel.ApplyCustomValidators` | sanic_agent/rest/httpx/request.py:104-149 | the value is returned unchanged when the field names no validator, when the name is not registered, and for `None`/`PydanticUndefined`; otherwise the result is the registered validator applied to the value with the merged arguments |
| `ParseModel.Hook` | sanic_agent/rest/httpx/request.py:104-105 | the before-validator pydantic runs on every field (`"*"`) is the dispatcher, for every field and value |
| `ParseModel.DefaultFilled` | sanic_agent/rest/httpx/request.py:26-37 | given keys kept with their values; absent fields whose default is not `None` get it (the sentinel included); absent `default=None` fields stay absent; no other key appears |
| `ParseModel.FillDefaults` | sanic_agent/rest/httpx/request.py:29-35 | the loop over `model_fields` computes exactly `DefaultFilled` |
| `ParseModel.FillCharacterized` | sanic_agent/rest/httpx/request.py:29-35 | a table whose keys are the given keys plus the fields with a non-`None` default, each given value kept and each other field holding its default, is exactly the fill |
| `ParseModel.CompleteInputUnfilled` | sanic_agent/rest/httpx/request.py:30-35 | when every field is given, the fill adds nothing |
| `ParseModel.FieldKey` | sanic_agent/rest/httpx/request.py:73-77 | the first location element, or `"unknown"` for an empty location |
| `ParseModel.CustomMessage` | sanic_agent/rest/httpx/request.py:79-87 | present exactly when the charged field exists and its `error_messages` has an entry for the error type, and then it is that entry |
| `ParseModel.CustomizeError` | sanic_agent/rest/httpx/request.py:89-100 | location and type always kept; a non-empty custom message replaces the message, the context becomes the old one or `{}`, and the input is dropped; with no or an empty message the error is unchanged |
| `ParseModel.Customized` | sanic_agent/rest/httpx/request.py:62-102 | same length as the input, each error customized in place |
| `ParseModel.CustomizeErrors` | sanic_agent/rest/httpx/request.py:62-102 | the appending loop returns exactly `Customized` |
| `ParseModel.CustomizeIdempotent` | sanic_agent/rest/httpx/request.py:89-100 | customizing an already customized error changes nothing |
| `ParseModel.ModelValidate` | sanic_agent/rest/httpx/request.py:39-60 | it succeeds exactly when pydantic's validation of the default-filled input succeeds, with the same values; otherwise the raised list is exactly `customize_errors` of pydantic's list (non-empty, every error at a field) |
| `ParseModel.PlainErrorsWithoutMessages` | sanic_agent/rest/httpx/request.py:54-60 | with no `error_messages` anywhere, `model_validate` reports pydantic's own errors unchanged |
| `ParseModel.ModelOfOneField` | sanic_agent/rest/httpx/request.py:39-60 | a one-field model without messages gives that field's value or its errors |
| `ParseModel.ModelOfTwoFields` | sanic_agent/rest/httpx/request.py:39-60 | a two-field model without messages gives both values or the first field's errors followed by the second's |
| `ParseModel.FromData` | sanic_agent/core/model/base_model.py:15-23 | `from_data(None)` validates `{}`; `from_data(d)` validates `d`, both through the overriding `model_validate` |
| `ParseModel.AbsentOptionalStaysNull` | sanic_agent/rest/httpx/request.py:34 | an absent field declared `default=None` is not filled and validates to `None` without reaching the validator; on success the result holds `None` |
| `ParseModel.RequiredAbsentIsReported` | sanic_agent/rest/httpx/request.py:26-37 | an absent required field whose coercion rejects the sentinel makes validation fail with an error on that field |
| `ParseModel.CustomizedKeepsField` | sanic_agent/rest/httpx/request.py:89-100 | customizing keeps an error on every field that had one |
| `ParseModel.CustomizedCarriesMessage` | sanic_agent/rest/httpx/request.py:89-97 | an error with a non-empty custom message is rewritten in place to carry it, at the same location |
| `ParseModel.BothFailuresReported` | sanic_agent/rest/httpx/request.py:51-60 | when two fields fail, the raised error has an entry for each |
| `ParseModel.CustomMessageReachesCaller` | sanic_agent/rest/httpx/request.py:54-60 | a field error whose type has a non-empty custom message appears, with that message and its location, in the list passed to `from_exception_data` |
| `PhoneDemo.ValidatePhone` | sanic_agent/rest/httpx/request.py:154-160 | falsy values pass unchanged; success returns the value; a non-empty string passes exactly when it starts with the prefix, has exactly `min_length` characters and is all digits |
| `PhoneDemo.NonDigitPrefixRejectsAll` | sanic_agent/rest/httpx/request.py:158 | a prefix containing a non-digit rejects every non-empty number |
| `PhoneDemo.NatText` | sanic_agent/rest/httpx/request.py:159 | the decimal text in the error message is non-empty and all digits |
| `PhoneDemo.DemoRegistry` | sanic_agent/rest/httpx/request.py:164 | the registry holds only `validate_phone`, with no default arguments |
| `PhoneDemo.BuildDemoRegistry` | sanic_agent/rest/httpx/request.py:164 | the registration statement, run on an empty registry, yields exactly `DemoRegistry` |
| `PhoneDemo.StrCoercer` | sanic_agent/rest/httpx/request.py:169-175 | a `str` field accepts exactly strings (and `None` when `Optional`), keeps them unchanged, and otherwise reports one `string_type` error |
| `PhoneDemo.RequiredPhoneModel` | sanic_agent/rest/httpx/request.py:168-170 | the required model is well formed (distinct names, one info per name) |
| `PhoneDemo.OptionalPhoneModel` | sanic_agent/rest/httpx/request.py:174-175 | the optional model is well formed |
| `PhoneDemo.CustomPhoneModel` | sanic_agent/rest/httpx/request.py:179-189 | the custom-argument model is well formed |
| `PhoneDemo.DemoDispatch` | sanic_agent/rest/httpx/request.py:164 | with `validate_phone` registered without defaults, the hook calls it with the field's own arguments |
| `PhoneDemo.PhoneFieldAccepts` | sanic_agent/rest/httpx/request.py:154-160 | a phone field given an 11-digit number starting with "1" validates to it |
| `PhoneDemo.PhoneFieldRejects` | sanic_agent/rest/httpx/request.py:158-159 | a number `validate_phone` rejects is one `value_error` on the phone field |
| `PhoneDemo.TextFieldAccepts` | sanic_agent/rest/httpx/request.py:170 | a plain `str` field keeps a given string |
| `PhoneDemo.RequiredPhoneAccepted` | sanic_agent/rest/httpx/request.py:168-170 | the required model with both fields given accepts "13800138000" unchanged |
| `PhoneDemo.RequiredSampleFilled` | sanic_agent/rest/httpx/request.py:194-196 | the fill gives the omitted `Name` the sentinel |
| `PhoneDemo.SentinelNameRejected` | sanic_agent/rest/httpx/request.py:170 | `Name` holding the sentinel is one `string_type` error |
| `PhoneDemo.RequiredSampleLacksName` | sanic_agent/rest/httpx/request.py:194-197 | the sample labelled valid fails, with one `string_type` error on `Name` |
| `PhoneDemo.RequiredPhoneRejected` | sanic_agent/rest/httpx/request.py:201-206 | "31111111111" gives a `value_error` on `Phone` followed by a `string_type` error on `Name` |
| `PhoneDemo.OptionalPhoneOmitted` | sanic_agent/rest/httpx/request.py:226-228 | `from_data()` on the optional model gives `{'Phone': None}` |
| `PhoneDemo.OptionalPhoneAccepted` | sanic_agent/rest/httpx/request.py:209-213 | "13900139000" is kept |
| `PhoneDemo.OptionalPhoneRejected` | sanic_agent/rest/httpx/request.py:218-223 | "31111111111" is one `value_error` on `Phone` |
| `PhoneDemo.CustomPhoneSampleRejected` | sanic_agent/rest/httpx/request.py:233-239 | "+8613800138000", labelled a valid number, is one `value_error` on `Phone` |
| `PhoneDemo.CustomPhoneMissingPlusRejected` | sanic_agent/rest/httpx/request.py:242-247 | "8613800138000" is one `value_error` on `Phone` |
| `PhoneDemo.PhoneDigits` | sanic_agent/rest/httpx/request.py:158 | the text after a leading "+", or the whole text |
| `PhoneDemo.ValidatePhoneIntended` | sanic_agent/rest/httpx/request.py:154-160 | as `validate_phone`, but the length and digit tests apply to the digits after a leading "+" |
| `PhoneDemo.IntendedAgreesWithoutPlus` | sanic_agent/rest/httpx/request.py:154-160 | for numbers without a leading "+", the intended validator is the one as written |
| `PhoneDemo.IntendedJudgesCustomSamples` | sanic_agent/rest/httpx/request.py:232-247 | the intended validator accepts "+8613800138000" and rejects "8613800138000" with the custom arguments |
| `PhoneDemo.CustomPhoneSampleAcceptedAsIntended` | sanic_agent/rest/httpx/request.py:232-239 | with the intended validator registered, the custom model accepts its international sample unchanged |
| `BaseModel.LastValue` | sanic_agent/core/model/base_model.py:40 | present exactly when some pair has the key, and then it is the value of such a pair |
| `BaseModel.FilteredUpdate` | sanic_agent/core/model/base_model.py:39-42 | `update` never removes a key, adds only fields, and leaves every non-field entry as it was |
| `BaseModel.FilteredUpdateAt` | sanic_agent/core/model/base_model.py:33-42 | after `update`, a key is present exactly when it was or it is a field the data gives; such a field holds the data's value; every other entry is unchanged |
| `BaseModel.FilteredUpdateKeepsKeys` | sanic_agent/core/model/base_model.py:39-42 | `update` keeps the table's keys equal to the fields |
| `BaseModel.Record.constructor` | sanic_agent/core/model/base_model.py:23 | an instance over a validated table whose keys are the fields |
| `BaseModel.Record.GetItem` | sanic_agent/core/model/base_model.py:54-65 | `KeyError` with the class's message exactly for non-fields; otherwise the field's value |
| `BaseModel.Record.Contains` | sanic_agent/core/model/base_model.py:44-52 | `name in obj` holds exactly when `keys()` lists the name |
| `BaseModel.Record.SetItem` | sanic_agent/core/model/base_model.py:67-78 | a non-field raises `KeyError` and changes nothing; a field is set alone and reads back as the new value |
| `BaseModel.Record.Update` | sanic_agent/core/model/base_model.py:33-42 | the loop computes `FilteredUpdate`; each field the data gives holds the data's last value for it, the others keep theirs |
| `BaseModel.Record.Keys` | sanic_agent/core/model/base_model.py:80-87 | the field names in declaration order |
| `BaseModel.Record.Values` | sanic_agent/core/model/base_model.py:89-96 | one value per field, in declaration order |
| `BaseModel.Record.Items` | sanic_agent/core/model/base_model.py:98-105 | one (name, value) pair per field, in declaration order |
| `BaseModel.Record.ItemsAreZipAndSnapshot` | sanic_agent/core/model/base_model.py:80-105 | `items()` is `keys()` zipped with `values()`, holds exactly the table's pairs, and its keys are distinct |
| `BaseModel.FromData` | sanic_agent/core/model/base_model.py:15-23 | `from_data(None)` validates `{}` and `from_data(d)` validates `d` |
| `BaseModel.FromDataRoundTrip` | sanic_agent/core/model/base_model.py:15-23 | a valid instance's table fed back to `from_data` rebuilds the same table when coercion keeps each value |
| `LegacyBaseModel.FilteredUpdateCons` | sanic_agent/core/model/base_model.py:39-42 | the filtered update, unfolded from the front when the first key is a field |
| `LegacyBaseModel.UnfilteredUpdate` | sanic-agent/core/model/base_model.py:47-48 | `update` completes exactly when every key is a field; otherwise it raises pydantic's "no field" error for some non-field key; it never removes a key, adds only fields and leaves non-field entries as they were |
| `LegacyBaseModel.PoliciesAgreeOnFields` | sanic-agent/core/model/base_model.py:41-48 | when every key is a field, the older `update` completes and gives the same table as the newer one |
| `LegacyBaseModel.StopsAtFirstNonField` | sanic-agent/core/model/base_model.py:41-48 | at the first non-field key the older `update` raises pydantic's "no field" error, keeping the assignments made before it |
| `LegacyBaseModel.LegacyRecord.constructor` | sanic-agent/core/model/base_model.py:31 | an instance over a validated table whose keys are the fields |
| `LegacyBaseModel.LegacyRecord.Snapshot` | sanic-agent/core/model/base_model.py:33-39 | `dict()` of a valid instance: exactly the fields, each with its value |
| `LegacyBaseModel.LegacyRecord.Equals` | sanic-agent/core/model/base_model.py:58-67 | false for a non-model operand; for an instance, true exactly when both tables have the same keys and the same value at each key |
| `LegacyBaseModel.LegacyRecord.NotEquals` | sanic-agent/core/model/base_model.py:69-71 | true for a non-model operand; for an instance, true exactly when some key is in one table only or has different values |
| `LegacyBaseModel.LegacyRecord.Contains` | sanic-agent/core/model/base_model.py:73-80 | `name in obj` holds exactly when `keys()` lists the name |
| `LegacyBaseModel.LegacyRecord.EqualsIsEquivalence` | sanic-agent/core/model/base_model.py:58-71 | `==` is reflexive, symmetric and transitive on instances, false against any non-model, and `!=` is its negation |
| `LegacyBaseModel.LegacyRecord.EqualInstancesAgree` | sanic-agent/core/model/base_model.py:65-67 | equal instances have the same field names and the same value in every field |
| `LegacyBaseModel.LegacyRecord.GetItem` | sanic-agent/core/model/base_model.py:82-92 | `KeyError` with the class's message exactly for non-fields; otherwise the field's value |
| `LegacyBaseModel.LegacyRecord.SetItem` | sanic-agent/core/model/base_model.py:94-104 | a non-field raises `KeyError` and changes nothing; a field is set alone and reads back as the new value |
| `LegacyBaseModel.LegacyRecord.Update` | sanic-agent/core/model/base_model.py:41-48 | the loop computes `UnfilteredUpdate`: the new table and whether it raised |
| `LegacyBaseModel.LegacyRecord.Keys` | sanic-agent/core/model/base_model.py:106-112 | the field names in declaration order |
| `LegacyBaseModel.LegacyRecord.Values` | sanic-agent/core/model/base_model.py:114-120 | one value per field, in declaration order |
| `LegacyBaseModel.LegacyRecord.Items` | sanic-agent/core/model/base_model.py:122-128 | one (name, value) pair per field, in declaration order |
| `LegacyBaseModel.FromData` | sanic-agent/core/model/base_model.py:23-31 | `cls(**data)` gives on every dictionary the same result as the newer class's `from_data`: exactly the fields on success, a non-empty error list on failure |
| `LegacyBaseModel.DemoUpdateCompletes` | sanic-agent/core/model/base_model.py:159-165 | the demo's `update` completes and gives the table printed after it |
| `LegacyBaseModel.DemoTablesKeyed` | sanic-agent/core/model/base_model.py:133-137 | the demo tables for `test`, `test2` and `test3` hold exactly the four `TestModel` fields, and `test3` has another `Id` |
| `LegacyBaseModel.DemoSession` | sanic-agent/core/model/base_model.py:149-184 | after the update the instance equals `test2` and differs from `test3`, and `obj['Name'] = 'new name'` reads back |

## Left out

- Pydantic's type coercion is foreign code. It is the `Coercer` parameter, so
  type-specific results (int parsing, list and dict validation) are not
  modelled. The demo uses a strict string coercer: strings, and `None` for
  `Optional[str]`, are kept, and anything else (the sentinel included) is a
  `string_type` error.
- `ValidationError.from_exception_data` and pydantic's message rendering
  are foreign. The customized list is modelled as the error list the caller
  receives, and the `ValidationError` title is not modelled.
- A validator's `ValueError` becomes pydantic's `value_error` entry with
  `"Value error, "` prepended to the message. Any other exception a
  validator raises escapes validation in Python. `ValidatePhone` models the
  two it can raise (a non-string value, a non-string prefix) as `Failure`
  results with the Python message, so they look like `value_error` entries.
- `str.isdigit` is modelled for ASCII digits only; Unicode digits are not
  modelled.
- Python's `bool` being a subclass of `int` is not modelled. `Bool`
  and `Int` are distinct values, so `min_length=True` does not equal 1.
- The dispatcher's branch for a registry entry that is a bare function
  (request.py:131-134) cannot be reached: `register_validator` always stores
  a (validator, arguments) pair, and the registry is written nowhere else.
  `Entry` always holds both.
- `functools.partial` is modelled as passing the merged arguments
  directly. With no arguments the validator gets an empty map, which means
  the same as calling it with the value alone.
- The registry is one global class attribute. `ValidatorRegistry` is a
  single object that is passed in. Its entries are the `map` that
  `ModelValidate` reads.
- `to_dict`, `model_dump`, `dict()`, `__repr__` and printing are output
  formatting only. `LegacyRecord.Snapshot` stands for `dict()` only where
  `==` needs it.
- `LegacyBaseModel.FromData`: `from_data(None)` in the older class raises
  `TypeError` in Python. The model takes a dictionary, so it does not model
  that case.
- Neither class enables `validate_assignment`, so `SetItem` and `Update`
  store values without validation in both classes, as pydantic does. The
  newer class and `ParseModel` use the pydantic 2 API (`model_fields`,
  `model_validate`, `field_validator`); the older class uses the pydantic 1
  API (`__fields__`, `dict()`, `validator`, and pydantic 1's "no field"
  assignment error).
- `LegacyBaseModel.FromData` reuses the pydantic 2 error records of
  `Pydantic.Validate`: a missing field is `missing` ("Field required"),
  where pydantic 1 reports `value_error.missing`. Only the error records
  differ; which inputs succeed and the values they give are the same.
- `ParseModel.ModelValidate` returns the list `customize_errors` builds as
  the errors the caller sees. This assumes
  `ValidationError.from_exception_data` keeps each entry's `msg`. It is
  pydantic-core code that is not part of this model. If it re-renders the
  message from the error type instead, the caller sees pydantic's default
  message, and the custom messages stop at the list passed to
  `from_exception_data`.
- `ValidatePhone` accepts any other keyword arguments and ignores them. In
  Python, a `validator_args` key other than `min_length` or `prefix` makes
  the call raise `TypeError`.
- The legacy demo's `validate_sec` validator (lines 139-146) and the
  examples at the end of the newer base_model.py are not modelled as
  lemmas, apart from the update, equality and item access of the legacy
  session. demo/main.py and the demo handlers are not part of this model.
- Concurrency and the Sanic request lifecycle are outside these files and
  are not modelled.

## Findings

| source | as written | input that shows it | evidently intended | confidence | as-written member | corrected member |
|---|---|---|---|---|---|---|
| sanic_agent/rest/httpx/request.py:194-197 | the sample labelled as a valid required-field instance gives only `Phone`, and it is not inside a `try` | `RequiredPhoneModel.from_data({"Phone": "13800138000"})` fails on the required `Name` | the sample also gives `Name`, so the number is accepted | medium, not executed | `PhoneDemo.RequiredSampleLacksName` | `PhoneDemo.RequiredPhoneAccepted` |
| sanic_agent/rest/httpx/request.py:158 | the digit and length tests apply to the whole value, prefix included, so a non-digit prefix rejects every number | `CustomPhoneModel.from_data({"Phone": "+8613800138000"})`, labelled as a valid international number, is rejected | the tests apply to the digits after a leading "+" | low, not executed | `PhoneDemo.CustomPhoneSampleRejected` | `PhoneDemo.CustomPhoneSampleAcceptedAsIntended` |
