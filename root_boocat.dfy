/**
 * The page handlers of the root boocat package (boocat.go). Each handler
 * returns the name of the template to render and the data for it. The
 * format lookup and the global database are outside this file: the found
 * format is a parameter, and every database call is returned, with its
 * reply a parameter. Errors of the database are only logged, so a reply
 * error is its message.
 */
module RootBoocat {
  import opened Results
  import RootFormat

  /** The lookup's view of a format: its label, its fields and its validation of submitted values. */
  datatype FormView = FormView(labelText: string, fields: seq<RootFormat.TemplateField>,
                               validated: map<string, string> -> (seq<RootFormat.TemplateField>, bool))

  /** The calls the handlers make on the database. */
  datatype DbCall =
    | GetRecordCall(format: string, id: string)
    | GetAllCall(format: string)
    | AddCall(format: string, values: map<string, string>)
    | UpdateCall(format: string, values: map<string, string>)

  /**
   * The value handed to the template. Go's `interface{}` distinguishes a
   * nil interface (`NoData`) from a nil map or slice inside one, which is
   * what `RecordData(None)` and `ListData(None)` are.
   */
  datatype TemplateData =
    | NoData
    | FormData(name: string, fields: seq<RootFormat.TemplateField>, submitURL: string)
    | RecordData(record: Option<Record>)
    | ListData(records: Option<seq<Record>>)

  datatype Page = Page(template: string, data: TemplateData, calls: seq<DbCall>)

  /** getRecord: the stored record, or a nil map when the database fails. */
  function GetRecord(format: string, id: string, reply: Result<Record, string>): (p: (TemplateData, DbCall))
    ensures p.1 == GetRecordCall(format, id)
    ensures reply.Ok? ==> p.0 == RecordData(Some(reply.value))
    ensures reply.Err? <==> p.0 == RecordData(None)
  {
    (RecordData(if reply.Ok? then Some(reply.value) else None), GetRecordCall(format, id))
  }

  /** list: all records of the format, or a nil slice when the database fails. */
  function List(format: string, reply: Result<seq<Record>, string>): (p: (TemplateData, DbCall))
    ensures p.1 == GetAllCall(format)
    ensures reply.Ok? ==> p.0 == ListData(Some(reply.value))
    ensures reply.Err? <==> p.0 == ListData(None)
  {
    (ListData(if reply.Ok? then Some(reply.value) else None), GetAllCall(format))
  }

  /** Get: one record when the parameters hold an "id", else the whole list. */
  function Get(format: string, params: map<string, string>,
               recordReply: Result<Record, string>, listReply: Result<seq<Record>, string>): (p: Page)
    ensures p.template == ""
    ensures IdKey in params ==> p.calls == [GetRecordCall(format, params[IdKey])] && p.data.RecordData?
    ensures IdKey !in params ==> p.calls == [GetAllCall(format)] && p.data.ListData?
    ensures p.data.RecordData? ==> (p.data.record.Some? <==> recordReply.Ok?)
    ensures p.data.ListData? ==> (p.data.records.Some? <==> listReply.Ok?)
    ensures IdKey in params ==> p.data == GetRecord(format, params[IdKey], recordReply).0
    ensures IdKey !in params ==> p.data == List(format, listReply).0
    ensures IdKey in params && recordReply.Ok? ==> p.data == RecordData(Some(recordReply.value))
    ensures IdKey !in params && listReply.Ok? ==> p.data == ListData(Some(listReply.value))
  {
    if IdKey in params then
      var (data, call) := GetRecord(format, params[IdKey], recordReply);
      Page("", data, [call])
    else
      var (data, call) := List(format, listReply);
      Page("", data, [call])
  }

  /** Update does nothing yet: no data and no database call. */
  function Update(format: string, params: map<string, string>): (p: TemplateData)
    ensures p == NoData
  {
    NoData
  }

  /** The URL a new record's form is submitted to. */
  function SaveNewURL(httpURL: string, format: string): string
  {
    httpURL + "/" + format + "/save"
  }

  /** The URL an existing record's form is submitted to. */
  function SaveExistingURL(httpURL: string, format: string, id: string): string
  {
    httpURL + "/" + format + "/" + id + "/save"
  }

  /** EditNew: the empty form of the format, or nothing for an unknown format. */
  function EditNew(httpURL: string, format: string, view: Option<FormView>): (p: Page)
    ensures p.calls == []
    ensures view.None? ==> p.template == "" && p.data == NoData
    ensures view.Some? ==>
              p.template == "/edit" &&
              p.data == FormData(view.value.labelText, view.value.fields, SaveNewURL(httpURL, format))
  {
    if view.None? then Page("", NoData, [])
    else Page("/edit", FormData(view.value.labelText, view.value.fields, SaveNewURL(httpURL, format)), [])
  }

  /**
   * SaveNew: when the submitted values pass validation they are added and
   * the record stored under the id the database returned is shown; when
   * they do not, the form is shown again with the failed fields and
   * nothing is written.
   */
  function SaveNew(httpURL: string, format: string, view: Option<FormView>, submitted: map<string, string>,
                   addReply: (string, Option<string>), getReply: Result<Record, string>): (p: Page)
    ensures view.None? ==> p == Page("", NoData, [])
    ensures view.Some? && !view.value.validated(submitted).1 ==>
              p.template == "" && p.calls == [AddCall(format, submitted), GetRecordCall(format, addReply.0)] &&
              p.data == GetRecord(format, addReply.0, getReply).0
    ensures view.Some? && view.value.validated(submitted).1 ==>
              p == Page("/edit", FormData(view.value.labelText, view.value.validated(submitted).0,
                                          SaveNewURL(httpURL, format)), [])
  {
    if view.None? then Page("", NoData, [])
    else
      var (fields, failed) := view.value.validated(submitted);
      if !failed then
        var (data, call) := GetRecord(format, addReply.0, getReply);
        Page("", data, [AddCall(format, submitted), call])
      else
        Page("/edit", FormData(view.value.labelText, fields, SaveNewURL(httpURL, format)), [])
  }

  /** A store write happens exactly when the format is known and the submitted values pass validation. */
  lemma SaveNewWritesIffValid(httpURL: string, format: string, view: Option<FormView>, submitted: map<string, string>,
                              addReply: (string, Option<string>), getReply: Result<Record, string>)
    ensures AddCall(format, submitted) in SaveNew(httpURL, format, view, submitted, addReply, getReply).calls
            <==> view.Some? && !view.value.validated(submitted).1
  {
  }

  /**
   * EditExisting: the form filled in with the stored record, submitted to
   * the record's own URL; when the record cannot be read, the empty form.
   */
  function EditExisting(httpURL: string, format: string, id: string, view: Option<FormView>,
                        reply: Result<Record, string>): (p: Page)
    ensures view.None? ==> p == Page("", NoData, [])
    ensures view.Some? && reply.Err? ==>
              p.calls == [GetRecordCall(format, id)] &&
              p.template == EditNew(httpURL, format, view).template && p.data == EditNew(httpURL, format, view).data
    ensures view.Some? && reply.Ok? ==>
              p == Page("/edit", FormData(view.value.labelText, view.value.validated(reply.value).0,
                                          SaveExistingURL(httpURL, format, Lookup(reply.value, IdKey))),
                        [GetRecordCall(format, id)])
  {
    if view.None? then Page("", NoData, [])
    else if reply.Err? then
      var fallback := EditNew(httpURL, format, view);
      Page(fallback.template, fallback.data, [GetRecordCall(format, id)])
    else
      var (fields, _) := view.value.validated(reply.value);
      Page("/edit", FormData(view.value.labelText, fields, SaveExistingURL(httpURL, format, Lookup(reply.value, IdKey))),
           [GetRecordCall(format, id)])
  }

  /**
   * SaveExisting: valid values are written and the record named by the
   * path is shown, whether or not the write succeeded; invalid values
   * bring the form back and nothing is written.
   */
  function SaveExisting(httpURL: string, format: string, id: string, view: Option<FormView>,
                        submitted: map<string, string>, getReply: Result<Record, string>): (p: Page)
    ensures view.None? ==> p == Page("", NoData, [])
    ensures view.Some? && !view.value.validated(submitted).1 ==>
              p.template == "" && p.calls == [UpdateCall(format, submitted), GetRecordCall(format, id)] &&
              p.data == GetRecord(format, id, getReply).0
    ensures view.Some? && view.value.validated(submitted).1 ==>
              p == Page("/edit", FormData(view.value.labelText, view.value.validated(submitted).0,
                                          SaveExistingURL(httpURL, format, id)), [])
  {
    if view.None? then Page("", NoData, [])
    else
      var (fields, failed) := view.value.validated(submitted);
      if !failed then
        var (data, call) := GetRecord(format, id, getReply);
        Page("", data, [UpdateCall(format, submitted), call])
      else
        Page("/edit", FormData(view.value.labelText, fields, SaveExistingURL(httpURL, format, id)), [])
  }

  /** One record of a list as the list template shows it. */
  datatype TemplateRecord = TemplateRecord(url: string, fieldValues: Record)

  /**
   * templateRecords: one entry per record, in order; the link is the base
   * URL followed by the record's "id" ("" when it has none).
   */
  method TemplateRecords(records: seq<Record>, baseURL: string) returns (t: seq<TemplateRecord>)
    ensures |t| == |records|
    ensures forall i :: 0 <= i < |records| ==>
              t[i].fieldValues == records[i] && t[i].url == baseURL + Lookup(records[i], IdKey)
  {
    t := [];
    for i := 0 to |records|
      invariant |t| == i
      invariant forall j :: 0 <= j < i ==>
                  t[j].fieldValues == records[j] && t[j].url == baseURL + Lookup(records[j], IdKey)
    {
      t := t + [TemplateRecord(baseURL + Lookup(records[i], IdKey), records[i])];
    }
  }
}
