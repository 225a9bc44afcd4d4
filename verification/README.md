# Field decoding and page-request validation (Dafny model)

This project models two pieces of pure logic from a content-management
backend built on SurrealDB:

- **Document decoding.** `FieldModel::try_from(Object)` and
  `FieldDataModel::try_from(Object)` turn an untyped SurrealDB document (a map
  from field names to dynamic values) into typed field records. Every scalar
  field follows one policy: when its key holds the expected variant, the
  inner value is used. When the key is absent or holds another variant, the
  field gets a default: `""` for a string, and `Datetime::default()`, the
  current time, for a timestamp. `id` is the
  rendered id component of a record link (`Thing`). `field_data` walks an
  array and decodes each element; a non-object element becomes the empty
  document first, so the array's length and order are kept.
- **Page-request validation.** `StorePageRequest::validate_errors` runs the
  two declared `length(min = 1)` rules on `name` and `identifier`. It returns
  the field-indexed error collection as data, never as an error.

Modules, one per file:

| file | module | contents |
|---|---|---|
| `wrappers.dfy` | `Wrappers` | `Option`, `Result` |
| `app_error.dfy` | `AppError` | the application error type, as one opaque case |
| `surreal_value.dfy` | `SurrealValue` | `Value` sum type, `RecordId`, `Datetime`, `Object`, `Get` |
| `field_model.dfy` | `FieldModels` | records, write-side DTOs, the two decoders |
| `field_model_properties.dfy` | `FieldModelProperties` | reference inverse (`FieldToObject`), round trips, key-framing lemmas |
| `validation.dfy` | `Validation` | `length(min)` rule interpreter and its per-field reference definition |
| `store_page_request.dfy` | `StorePageRequests` | request DTOs, the two rules, `Validate`, `ValidateErrors` |

The decoders never fail. The `?` at field_model.rs:132 would pass a nested
decode error upward, but the nested decode always returns `Ok`
(field_model.rs:186), so that path is unreachable. The model keeps it as
`Failure` arms, and `DecodeFieldDataArray` and `DecodeField` both prove
`r.Success?`.

`FieldToObject` and `FieldDataToObject` are not in the source. They are
reference inverses: the document a record would be stored as. They exist so
that the round-trip lemmas can state that the decoders lose nothing but the
link's table name.

## Model

| member | source | states |
|---|---|---|
| FieldModels.DecodeFieldData | src/models/field_model.rs:161-190 | Always `Ok`; `label` and `value` are the `Strand` contents stored under their keys, and `""` when the key is absent or holds any other variant |
| FieldModels.DecodeFieldDataArray | src/models/field_model.rs:123-136 | Always `Ok` (the `?` is dead); the result has the array's length; element i is the option decoded from element i read as a document; a non-object element gives the default option `("", "")` |
| FieldModels.DecodeField | src/models/field_model.rs:26-157 | Always `Ok`; `id` is the rendered id component of a `Thing` under `"id"` and `""` for an absent key or any other variant, including a plain string; each string field is its `Strand` or `""`; each timestamp is its `Datetime` or the clock reading `now`; `field_data` is always `Some`, empty when the key is absent or not an array, and otherwise the same length and order as the array |
| FieldModelProperties.FieldDataRoundTrip | src/models/field_model.rs:161-190 | Decoding the document an option is stored as gives the option back |
| FieldModelProperties.EmptyObjectDecodesToDefault | src/models/field_model.rs:127-132 | The empty document, which a non-object element becomes, decodes to the default option |
| FieldModelProperties.FieldDataArrayRoundTrip | src/models/field_model.rs:119-142 | Decoding the array a list of options is stored as gives the same list back, in order |
| FieldModelProperties.FieldRoundTrip | src/models/field_model.rs:26-157 | Decoding the document a field is stored as gives the field back; only `id` changes, to the store's rendering of its key, and an absent option list comes back empty |
| FieldModelProperties.FieldDataReadsOnlyItsKeys | src/models/field_model.rs:164-183 | Two documents that agree on `label` and `value` decode to the same option |
| FieldModelProperties.FieldReadsOnlyItsKeys | src/models/field_model.rs:29-142 | For one clock reading, two documents that agree on the nine named keys decode to the same field |
| FieldModelProperties.OtherKeysDoNotMatter | src/models/field_model.rs:29-156 | For one clock reading, adding, changing or removing any key outside the nine leaves the decoded field unchanged |
| Validation.Check | src/api/rest_api/handlers/page/request/store_page_request.rs:5-11 | Every entry the rule run records is a plain-field list with at least one failure, and only fields that carry a rule get an entry |
| Validation.FailuresOnSnoc | src/api/rest_api/handlers/page/request/store_page_request.rs:5-11 | Adding one rule at the end adds at most that rule's failure to each field's failures |
| Validation.CheckIsPerFieldFailures | src/api/rest_api/handlers/page/request/store_page_request.rs:5-11 | A field has an entry exactly when one of its rules fails, and the entry lists exactly those failures in rule order |
| Validation.FailuresOnNonEmpty | src/api/rest_api/handlers/page/request/store_page_request.rs:7-11 | A field's failure list is non-empty exactly when some rule on that field is violated |
| StorePageRequests.StorePageFailures | src/api/rest_api/handlers/page/request/store_page_request.rs:7-11 | The two rules record the `"The name is a required field."` failure exactly when `name` is empty, the `"The identifier is a required field."` failure exactly when `identifier` is empty, and nothing else |
| StorePageRequests.Validate | src/api/rest_api/handlers/page/request/store_page_request.rs:5-14 | `validate()` is `Ok` exactly when both fields are non-empty; otherwise its error holds an entry for each empty field, with that field's message, and no other entry |
| StorePageRequests.ValidateErrors | src/api/rest_api/handlers/page/request/store_page_request.rs:25-50 | Always `Ok`; the collection is empty exactly when both fields are non-empty; it has an entry for `name`, carrying its message, exactly when `name` is empty, and likewise for `identifier`; the walk over the entries leaves the collection as `validate()` produced it |
| StorePageRequests.ComponentContentIsNotValidated | src/api/rest_api/handlers/page/request/store_page_request.rs:13-22 | Requests that agree on `name` and `identifier` validate alike, whatever their content blocks hold |

## Left out

- Serialization derives (`Serialize`, `Deserialize`) and the JSON wire format: they come from an external library and hold no logic here.
- The id-to-string conversion of a record link (`id.to_string()`): its escaping and format rules live in the database crate, so it is the parameter `render` of `DecodeField`.
- `Datetime`: modelled as an opaque instant. The database's `Datetime::default()` reads the clock, so an absent or mistyped `created_at` or `updated_at` becomes the time of the decode.
- FieldModels.DecodeField: the clock is not modelled. The decoder takes one clock reading as its parameter `now`, and both timestamps default to it. The source reads the clock once per timestamp, so two defaulted timestamps may differ slightly there.
- FieldModelProperties.FieldReadsOnlyItsKeys: holds for one fixed clock reading `now`; two decodes at different times can differ in a defaulted timestamp.
- FieldModelProperties.OtherKeysDoNotMatter: holds for one fixed clock reading `now`, for the same reason.
- `Strand::as_string` is the identity on strings.
- The store's value type has more variants than the decoders inspect (durations, UUIDs, geometry, bytes, ...); they are collapsed into `Other`. Numbers are integers; floating point and decimals are not modelled, because nothing reads them.
- `FieldDataModel.label` is called `labelText`, because `label` is a Dafny keyword; its document key is still `"label"`.
- `Pagination` and `FieldPagination`: `Pagination` is not part of this model, and both are plain data with no behaviour.
- The application error type: it is never constructed on any reachable path, so it is one opaque case.
- The validator crate's machinery: only the meaning of `length(min = n)` is modelled, a string with fewer than n characters fails. Each failure records the code `"length"`, the message, and the `min` and `value` parameters. Nested-struct and list groupings are declared but never produced by these rules.
- `ValidateErrors`: the crate's map iteration order is unspecified, so the walk picks entries in an arbitrary order. The walk has no observable effect in the source, and the loop body is empty in the model as well.
