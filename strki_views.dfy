/**
 * The page handlers of the strki version (strki.go). The form comes from
 * the database package and is a parameter; the database calls are
 * returned, with their replies as parameters, and their errors are only
 * logged.
 */
module StrkiViews {
  import opened Results
  import StrkiDatabase

  /** One form field as the edit template shows it. */
  datatype FieldWithValue = FieldWithValue(name: string, labelText: string, description: string, value: string)

  datatype DbCall =
    | GetCall(id: string)
    | GetAllCall
    | AddCall(values: map<string, string>)
    | UpdateCall(record: StrkiDatabase.DbRecord)

  /** The value handed to the template; `NoData` is a nil `interface{}`. */
  datatype TemplateData =
    | NoData
    | EditData(name: string, fields: seq<FieldWithValue>, saveURL: string)
    | ListData(editURL: string, records: seq<StrkiDatabase.DbRecord>)

  datatype Page = Page(data: TemplateData, calls: seq<DbCall>)

  /** The value a field shows: the record's value for it, "" when absent or when there is no record. */
  function ShownValue(record: Option<StrkiDatabase.DbRecord>, name: string): string
  {
    if record.Some? then Lookup(record.value.fieldValues, name) else ""
  }

  /**
   * fieldsWithValue: one entry per form field, in order, with the field's
   * name, label and description and the value the record holds for it.
   */
  method FieldsWithValue(form: StrkiDatabase.Format, record: Option<StrkiDatabase.DbRecord>)
    returns (fields: seq<FieldWithValue>)
    ensures |fields| == |form.fields|
    ensures forall i :: 0 <= i < |fields| ==>
              fields[i].name == form.fields[i].name && fields[i].labelText == form.fields[i].labelText &&
              fields[i].description == form.fields[i].description
    ensures forall i :: 0 <= i < |fields| ==>
              fields[i].value == (if record.Some? && form.fields[i].name in record.value.fieldValues
                                  then record.value.fieldValues[form.fields[i].name] else "")
  {
    fields := [];
    for i := 0 to |form.fields|
      invariant |fields| == i
      invariant forall j :: 0 <= j < i ==>
                  fields[j] == FieldWithValue(form.fields[j].name, form.fields[j].labelText,
                                              form.fields[j].description, ShownValue(record, form.fields[j].name))
    {
      var field := form.fields[i];
      var entry := FieldWithValue(field.name, field.labelText, field.description, "");
      if record.Some? {
        entry := entry.(value := Lookup(record.value.fieldValues, field.name));
      }
      fields := fields + [entry];
    }
  }

  /** EditNew: the form with every value empty, submitted to "/save". */
  method EditNew(httpURL: string, form: StrkiDatabase.Format) returns (data: TemplateData)
    ensures data.EditData? && data.name == form.name && data.saveURL == httpURL + "/save"
    ensures |data.fields| == |form.fields|
    ensures forall i :: 0 <= i < |data.fields| ==> data.fields[i].name == form.fields[i].name && data.fields[i].value == ""
    ensures forall i :: 0 <= i < |data.fields| ==>
              data.fields[i] == FieldWithValue(form.fields[i].name, form.fields[i].labelText, form.fields[i].description, "")
  {
    var fields := FieldsWithValue(form, None);
    data := EditData(form.name, fields, httpURL + "/save");
  }

  /**
   * EditExisting: the form filled in with the record the path names,
   * submitted to "/save/<id>"; when it cannot be read, the new-record form.
   */
  method EditExisting(httpURL: string, form: StrkiDatabase.Format, pathID: string,
                      reply: Result<StrkiDatabase.DbRecord, string>)
    returns (p: Page)
    ensures p.calls == [GetCall(pathID)]
    ensures p.data.EditData? && p.data.name == form.name && |p.data.fields| == |form.fields|
    ensures reply.Err? ==>
              p.data.saveURL == httpURL + "/save" &&
              forall i :: 0 <= i < |form.fields| ==> p.data.fields[i].value == ""
    ensures reply.Ok? ==>
              p.data.saveURL == httpURL + "/save/" + reply.value.dbID &&
              forall i :: 0 <= i < |form.fields| ==>
                p.data.fields[i].value == Lookup(reply.value.fieldValues, form.fields[i].name)
    ensures forall i :: 0 <= i < |form.fields| ==>
              p.data.fields[i] == FieldWithValue(form.fields[i].name, form.fields[i].labelText, form.fields[i].description,
                                                 ShownValue(if reply.Ok? then Some(reply.value) else None, form.fields[i].name))
  {
    if reply.Err? {
      var data := EditNew(httpURL, form);
      return Page(data, [GetCall(pathID)]);
    }
    var fields := FieldsWithValue(form, Some(reply.value));
    p := Page(EditData(form.name, fields, httpURL + "/save/" + reply.value.dbID), [GetCall(pathID)]);
  }

  /** List: every record with the edit link, or nil when they cannot be read. */
  function List(httpURL: string, reply: Result<seq<StrkiDatabase.DbRecord>, string>): (p: Page)
    ensures p.calls == [GetAllCall]
    ensures reply.Err? <==> p.data == NoData
    ensures reply.Ok? ==> p.data == ListData(httpURL + "/edit", reply.value)
  {
    if reply.Err? then Page(NoData, [GetAllCall])
    else Page(ListData(httpURL + "/edit", reply.value), [GetAllCall])
  }

  /** SaveNew: adds the values unvalidated, then shows the list, whether or not the add failed. */
  function SaveNew(httpURL: string, values: map<string, string>, addErr: Option<string>,
                   listReply: Result<seq<StrkiDatabase.DbRecord>, string>): (p: Page)
    ensures p.calls == [AddCall(values), GetAllCall]
    ensures p.data == List(httpURL, listReply).data
  {
    Page(List(httpURL, listReply).data, [AddCall(values)] + List(httpURL, listReply).calls)
  }

  /** SaveExisting: replaces the record the path names by the values, then shows the list. */
  function SaveExisting(httpURL: string, pathID: string, values: map<string, string>, updateErr: Option<string>,
                        listReply: Result<seq<StrkiDatabase.DbRecord>, string>): (p: Page)
    ensures p.calls == [UpdateCall(StrkiDatabase.DbRecord(pathID, values)), GetAllCall]
    ensures p.data == List(httpURL, listReply).data
  {
    Page(List(httpURL, listReply).data, [UpdateCall(StrkiDatabase.DbRecord(pathID, values))] + List(httpURL, listReply).calls)
  }

  /** Whether the store call failed makes no difference to the page after a save. */
  lemma SaveIgnoresStoreError(httpURL: string, pathID: string, values: map<string, string>,
                              e1: Option<string>, e2: Option<string>,
                              listReply: Result<seq<StrkiDatabase.DbRecord>, string>)
    ensures SaveNew(httpURL, values, e1, listReply) == SaveNew(httpURL, values, e2, listReply)
    ensures SaveExisting(httpURL, pathID, values, e1, listReply) == SaveExisting(httpURL, pathID, values, e2, listReply)
  {
  }
}
