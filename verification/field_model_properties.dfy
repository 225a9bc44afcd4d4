/** Properties of the field decoders that relate several calls: a reference
    inverse (the document a record would be stored as) with the round trip
    through it, and the fact that only the named keys are read. */
module FieldModelProperties {
  import opened Wrappers
  import opened AppError
  import opened SurrealValue
  import opened FieldModels

  /** The document a field option would be stored as. */
  function FieldDataToObject(m: FieldDataModel): Object {
    map["label" := Strand(m.labelText), "value" := Strand(m.value)]
  }

  /** The array value a sequence of field options would be stored as. */
  function FieldDataToArray(models: seq<FieldDataModel>): Value {
    Array(seq(|models|, i requires 0 <= i < |models| => Object(FieldDataToObject(models[i]))))
  }

  /** The document a field would be stored as: `id` as a link into `table`
      with a string key, an absent option list as an absent key. */
  function FieldToObject(m: FieldModel, table: string): Object {
    var scalars := map[
      "id" := Thing(table, IdString(m.id)),
      "name" := Strand(m.name),
      "identifier" := Strand(m.identifier),
      "field_type" := Strand(m.fieldType),
      "created_at" := Datetime(m.createdAt),
      "updated_at" := Datetime(m.updatedAt),
      "created_by" := Strand(m.createdBy),
      "updated_by" := Strand(m.updatedBy)];
    match m.fieldData
    case Some(models) => scalars["field_data" := FieldDataToArray(models)]
    case None => scalars
  }

  /** Decoding a stored field option gives it back. */
  lemma FieldDataRoundTrip(m: FieldDataModel)
    ensures DecodeFieldData(FieldDataToObject(m)) == Success(m)
  {
  }

  /** Decoding the empty document (what a non-object array element becomes)
      gives the default option. */
  lemma EmptyObjectDecodesToDefault()
    ensures DecodeFieldData(EmptyObject) == Success(DefaultFieldData)
  {
  }

  /** Decoding a stored option list gives the list back, in order. */
  lemma FieldDataArrayRoundTrip(models: seq<FieldDataModel>)
    ensures DecodeFieldDataArray(FieldDataToArray(models).items) == Success(models)
  {
    var items := FieldDataToArray(models).items;
    var r := DecodeFieldDataArray(items);
    forall i | 0 <= i < |models|
      ensures r.value[i] == models[i]
    {
      assert AsObject(items[i]) == FieldDataToObject(models[i]);
      FieldDataRoundTrip(models[i]);
    }
    assert r.value == models;
  }

  /** Decoding a stored field gives it back, except that `id` comes back as
      the store's rendering of the string key and an absent option list
      comes back as the empty list. */
  lemma FieldRoundTrip(m: FieldModel, table: string, render: RecordId -> string, now: Datetime)
    ensures DecodeField(FieldToObject(m, table), render, now) ==
              Success(m.(id := render(IdString(m.id)),
                         fieldData := Some(if m.fieldData.Some? then m.fieldData.value else [])))
  {
    var obj := FieldToObject(m, table);
    assert obj["id"] == Thing(table, IdString(m.id));
    assert obj["name"] == Strand(m.name) && obj["identifier"] == Strand(m.identifier);
    assert obj["field_type"] == Strand(m.fieldType);
    assert obj["created_at"] == Datetime(m.createdAt) && obj["updated_at"] == Datetime(m.updatedAt);
    assert obj["created_by"] == Strand(m.createdBy) && obj["updated_by"] == Strand(m.updatedBy);
    var r := DecodeField(obj, render, now).value;
    match m.fieldData {
      case Some(models) =>
        assert obj["field_data"] == FieldDataToArray(models);
        FieldDataArrayRoundTrip(models);
        assert r.fieldData == Some(models);
      case None =>
        assert "field_data" !in obj;
    }
  }

  /** The option decoder reads nothing but `label` and `value`. */
  lemma FieldDataReadsOnlyItsKeys(a: Object, b: Object)
    requires forall k :: k in FieldDataKeys ==> Get(a, k) == Get(b, k)
    ensures DecodeFieldData(a) == DecodeFieldData(b)
  {
  }

  /** The field decoder reads nothing but its nine keys: for one clock
      reading, two documents that agree on those decode alike, whatever else
      they hold. */
  lemma FieldReadsOnlyItsKeys(a: Object, b: Object, render: RecordId -> string, now: Datetime)
    requires forall k :: k in FieldKeys ==> Get(a, k) == Get(b, k)
    ensures DecodeField(a, render, now) == DecodeField(b, render, now)
  {
  }

  /** For one clock reading, adding, changing or removing any other key
      leaves the decoded field unchanged. */
  lemma OtherKeysDoNotMatter(obj: Object, key: string, v: Value, render: RecordId -> string, now: Datetime)
    requires key !in FieldKeys
    ensures DecodeField(obj[key := v], render, now) == DecodeField(obj, render, now)
    ensures DecodeField(obj - {key}, render, now) == DecodeField(obj, render, now)
  {
  }
}
