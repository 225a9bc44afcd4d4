/** The field records of the content-management backend and their decoders
    from untyped SurrealDB documents (`TryFrom<Object>`).

    Every scalar field follows one policy: when the key is present and holds
    the expected variant, the inner value is used; when the key is absent or
    holds any other variant, the field gets a default: `""` for a string, and
    for a timestamp `Datetime::default()`, which reads the clock. The clock
    reading is the parameter `now` of the field decoder. Decoding never
    fails. */
module FieldModels {
  import opened Wrappers
  import opened AppError
  import opened SurrealValue

  /** One label/value option of a field (a select option, say). The label is
      `labelText` because `label` is a Dafny keyword. */
  datatype FieldDataModel = FieldDataModel(labelText: string, value: string)

  /** `FieldDataModel::default()`. */
  const DefaultFieldData: FieldDataModel := FieldDataModel("", "")

  /** A stored form field. */
  datatype FieldModel = FieldModel(
    id: string,
    name: string,
    identifier: string,
    fieldType: string,
    fieldData: Option<seq<FieldDataModel>>,
    createdAt: Datetime,
    updatedAt: Datetime,
    createdBy: string,
    updatedBy: string)

  /** Write-side records: authored by callers and handed to persistence as
      they are; nothing here decodes or transforms them. */
  datatype CreatableFieldDataModel = CreatableFieldDataModel(labelText: string, value: string)

  datatype CreatableFieldModel = CreatableFieldModel(
    name: string,
    identifier: string,
    fieldType: string,
    fieldData: Option<seq<CreatableFieldDataModel>>,
    loggedInUsername: string)

  datatype UpdatableFieldDataModel = UpdatableFieldDataModel(labelText: string, value: string)

  datatype UpdatableFieldModel = UpdatableFieldModel(
    id: string,
    name: string,
    identifier: string,
    fieldType: string,
    fieldData: Option<seq<UpdatableFieldDataModel>>,
    loggedInUsername: string)

  /** The keys the field decoder reads. */
  const FieldKeys: set<string> :=
    {"id", "name", "identifier", "field_type", "created_at", "updated_at",
     "created_by", "updated_by", "field_data"}

  /** The keys the field-data decoder reads. */
  const FieldDataKeys: set<string> := {"label", "value"}

  /** A string field: the `Strand` stored under `key`, or `""`. */
  function TextOrEmpty(obj: Object, key: string): string {
    match Get(obj, key)
    case Some(Strand(text)) => text
    case _ => ""
  }

  /** A timestamp field: the `Datetime` stored under `key`, or `now`, the
      current time that `Datetime::default()` reads. */
  function DatetimeOrNow(obj: Object, key: string, now: Datetime): Datetime {
    match Get(obj, key)
    case Some(Datetime(d)) => d
    case _ => now
  }

  /** The record-id field: the rendering of the id component of the `Thing`
      stored under `key`, or `""`. The table name is dropped. `render` is the
      store's id-to-string conversion. */
  function ThingIdOrEmpty(obj: Object, key: string, render: RecordId -> string): string {
    match Get(obj, key)
    case Some(Thing(_, id)) => render(id)
    case _ => ""
  }

  /** An array element as the document it is decoded from: a nested `Object`
      as it is, anything else as the empty document. */
  function AsObject(element: Value): Object {
    match element
    case Object(fields) => fields
    case _ => EmptyObject
  }

  /** `FieldDataModel::try_from(Object)`. */
  function DecodeFieldData(obj: Object): (r: Result<FieldDataModel, Error>)
    ensures r.Success?
    ensures r.value.labelText == (if "label" in obj && obj["label"].Strand? then obj["label"].text else "")
    ensures r.value.value == (if "value" in obj && obj["value"].Strand? then obj["value"].text else "")
  {
    var labelText := TextOrEmpty(obj, "label");
    var value := TextOrEmpty(obj, "value");
    Success(FieldDataModel(labelText, value))
  }

  /** The loop over a `field_data` array: each element is read as a document,
      decoded and pushed. The `Failure` arms are the `?` on the nested decode,
      which would abort the whole walk; the contract shows they are dead.
      Length and order are kept, and a non-object element becomes the
      default option. */
  function DecodeFieldDataArray(items: seq<Value>): (r: Result<seq<FieldDataModel>, Error>)
    ensures r.Success?
    ensures |r.value| == |items|
    ensures forall i :: 0 <= i < |items| ==> DecodeFieldData(AsObject(items[i])) == Success(r.value[i])
    ensures forall i :: 0 <= i < |items| && !items[i].Object? ==> r.value[i] == DefaultFieldData
  {
    if |items| == 0 then Success([])
    else
      match DecodeFieldDataArray(items[..|items| - 1])
      case Failure(e) => Failure(e)
      case Success(decoded) =>
        match DecodeFieldData(AsObject(items[|items| - 1]))
        case Failure(e) => Failure(e)
        case Success(model) => Success(decoded + [model])
  }

  /** `FieldModel::try_from(Object)`, with `now` the clock reading that an
      absent or mistyped timestamp defaults to. */
  function DecodeField(obj: Object, render: RecordId -> string, now: Datetime): (r: Result<FieldModel, Error>)
    ensures r.Success?
    ensures r.value.id == (if "id" in obj && obj["id"].Thing? then render(obj["id"].id) else "")
    ensures r.value.name == (if "name" in obj && obj["name"].Strand? then obj["name"].text else "")
    ensures r.value.identifier ==
              (if "identifier" in obj && obj["identifier"].Strand? then obj["identifier"].text else "")
    ensures r.value.fieldType ==
              (if "field_type" in obj && obj["field_type"].Strand? then obj["field_type"].text else "")
    ensures r.value.createdAt ==
              (if "created_at" in obj && obj["created_at"].Datetime? then obj["created_at"].datetime else now)
    ensures r.value.updatedAt ==
              (if "updated_at" in obj && obj["updated_at"].Datetime? then obj["updated_at"].datetime else now)
    ensures r.value.createdBy ==
              (if "created_by" in obj && obj["created_by"].Strand? then obj["created_by"].text else "")
    ensures r.value.updatedBy ==
              (if "updated_by" in obj && obj["updated_by"].Strand? then obj["updated_by"].text else "")
    ensures r.value.fieldData.Some?
    ensures !("field_data" in obj && obj["field_data"].Array?) ==> r.value.fieldData.value == []
    ensures "field_data" in obj && obj["field_data"].Array? ==>
              var items := obj["field_data"].items;
              && |r.value.fieldData.value| == |items|
              && forall i :: 0 <= i < |items| ==>
                   DecodeFieldData(AsObject(items[i])) == Success(r.value.fieldData.value[i])
  {
    var id := ThingIdOrEmpty(obj, "id", render);
    var name := TextOrEmpty(obj, "name");
    var identifier := TextOrEmpty(obj, "identifier");
    var fieldType := TextOrEmpty(obj, "field_type");
    var createdAt := DatetimeOrNow(obj, "created_at", now);
    var updatedAt := DatetimeOrNow(obj, "updated_at", now);
    var createdBy := TextOrEmpty(obj, "created_by");
    var updatedBy := TextOrEmpty(obj, "updated_by");
    var fieldData := match Get(obj, "field_data")
                     case Some(Array(items)) => DecodeFieldDataArray(items)
                     case _ => Success([]);
    match fieldData
    case Failure(e) => Failure(e)
    case Success(models) =>
      Success(FieldModel(id, name, identifier, fieldType, Some(models),
                         createdAt, updatedAt, createdBy, updatedBy))
  }
}
