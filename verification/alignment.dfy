/** How the simulator's output meets the reader: a record type's front-end
    schema, loaded as a reader schema, locates each identity column of a
    synthesized row, and the value found there is the record's own id. */
module Alignment {
  import opened Wrappers
  import opened JsonValue
  import SchemaUtil
  import JsonReader

  /** The attribute ids of a front-end schema, in column order. */
  function FieldIds(fields: seq<SchemaUtil.FrontEndField>): (ids: seq<string>)
    ensures |ids| == |fields|
    ensures forall k :: 0 <= k < |fields| ==> ids[k] == fields[k].id
  {
    if |fields| == 0 then [] else [fields[0].id] + FieldIds(fields[1..])
  }

  /** The reader schema entry a front-end schema describes. */
  function EntryOf(key: string, fields: seq<SchemaUtil.FrontEndField>): JsonReader.SchemaEntry {
    JsonReader.SchemaEntry(key, FieldIds(fields))
  }

  /** Reading a synthesized row through the index of its own schema: the
      column the reader picks for an identity attribute holds the record's
      id, provided every field of that id is a string field. */
  lemma {:induction false} ReaderFindsOwnId(
    g: SchemaUtil.SchemaGraph, key: string, htanId: string, parentId: Option<string>, draws: seq<int>,
    attribute: string)
    requires SchemaUtil.ExtractTemplate(g, key).Success?
    requires SchemaUtil.DrawsFit(SchemaUtil.ExtractTemplate(g, key).value, draws)
    requires SchemaUtil.IsSelfIdField(attribute)
    requires forall k :: 0 <= k < |SchemaUtil.ExtractTemplate(g, key).value| ==>
               SchemaUtil.ExtractTemplate(g, key).value[k].id == attribute ==>
               SchemaUtil.ExtractTemplate(g, key).value[k].dataType == SchemaUtil.StringType
    ensures var schema := SchemaUtil.GetFrontEndSchema(g, key).value;
            var row := SchemaUtil.GetFrontEndSimulatedValues(g, key, htanId, parentId, draws).value;
            var idx := JsonReader.LoadSchema([EntryOf(key, schema)]);
            var col := JsonReader.GetIndex(idx, key, attribute);
            && (col.Success? <==> attribute in FieldIds(schema))
            && (col.Success? ==> col.value < |row| && row[col.value] == Str(htanId))
  {
    var fields := SchemaUtil.ExtractTemplate(g, key).value;
    var schema := SchemaUtil.GetFrontEndSchema(g, key).value;
    var row := SchemaUtil.GetFrontEndSimulatedValues(g, key, htanId, parentId, draws).value;
    var col := JsonReader.GetIndex(JsonReader.LoadSchema([EntryOf(key, schema)]), key, attribute);
    SingleSchemaColumn(key, schema, attribute);
    if col.Success? {
      var c := col.value;
      assert fields[c].id == attribute;
      assert row[c] == SchemaUtil.GenerateSimulatedData(fields[c], htanId, parentId, draws[c]);
    }
  }

  /** A reader index loaded from one schema finds an attribute exactly when
      the schema lists it, at its last position. */
  lemma SingleSchemaColumn(key: string, schema: seq<SchemaUtil.FrontEndField>, attribute: string)
    ensures var col := JsonReader.GetIndex(JsonReader.LoadSchema([EntryOf(key, schema)]), key, attribute);
            && (col.Success? <==> attribute in FieldIds(schema))
            && (col.Success? ==> JsonReader.LastAt(FieldIds(schema), col.value, attribute))
  {
    var entries := [EntryOf(key, schema)];
    var idx := JsonReader.LoadSchema(entries);
    assert JsonReader.LastNamed(entries, 0, key);
    assert key in JsonReader.Names(entries);
    var k := JsonReader.LoadSchemaLast(entries, key);
    assert idx[key] == JsonReader.PositionIndex(FieldIds(schema));
  }
}
