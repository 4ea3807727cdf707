/**
 * The request handling of the web server (webserver/server.go): a path is
 * served by its template, else by its static file, else with 404; a
 * request with a template is dispatched on its method and its values to
 * one operation of the boocat service, and the service's error selects
 * the HTTP status. The service's result is a parameter. Writing the
 * response is not modelled: the handler's decision is returned.
 */
module WebserverHandlers {
  import opened Results
  import opened BoocatErrors
  import WebContent
  import WebForms

  const StatusOK: int := 200
  const StatusBadRequest: int := 400
  const StatusNotFound: int := 404
  const StatusInternalServerError: int := 500

  /** The parameter that asks for a search. */
  const SearchKey: string := "_search"
  /** The parameter an update that passed validation is flagged with. */
  const SuccessKey: string := "_success"

  /** What serves a request once the method has been looked at. */
  datatype Served = WithTemplate(template: WebContent.Template) | WithFile(file: WebContent.StaticFile) | NotFound

  /**
   * The decision of `handle`: whether a 400 was written first, and what
   * then serves the request. A 400 does not end the handling.
   */
  datatype Response = Response(badRequestWritten: bool, served: Served)

  /**
   * handle (and web/server.go's Handle): a method other than GET or POST
   * gets a 400, after which the handling goes on; the template for the
   * path wins over the static file for it, and with neither the answer is
   * 404.
   */
  function Handle(content: WebContent.Content, httpMethod: string, path: string): (r: Response)
    reads content
    ensures r.badRequestWritten <==> httpMethod != "GET" && httpMethod != "POST"
    ensures path in content.templates ==> r.served == WithTemplate(content.templates[path])
    ensures path !in content.templates && path in content.staticFiles ==>
              r.served == WithFile(content.staticFiles[path])
    ensures r.served == NotFound <==> path !in content.templates && path !in content.staticFiles
  {
    var badRequest := httpMethod != "GET" && httpMethod != "POST";
    var template := content.GetTemplate(path);
    if template.Some? then Response(badRequest, WithTemplate(template.value))
    else
      var file := content.GetFile(path);
      if file.Some? then Response(badRequest, WithFile(file.value))
      else Response(badRequest, NotFound)
  }

  /** A call from a request handler to the record service, with the format of the request's template. */
  datatype ServiceCall =
    | GetRecordCall(formatName: string, id: string)
    | ListRecordsCall(formatName: string)
    | SearchRecordsCall(formatName: string, search: string)
    | AddRecordCall(formatName: string, record: map<string, string>)
    | UpdateRecordCall(formatName: string, record: map<string, string>)

  /** The operation of the service a request with a template asks for. */
  datatype Operation = GetOne(id: string) | SearchAll(search: string) | ListAll | UpdateOne | AddOne

  /**
   * handleWithTemplate, handleGet and handlePost: a GET reads one record
   * when it names an "id" (even when it also asks for a search), else
   * searches when it has "_search", else lists; any other method is
   * treated as a POST, which updates when it names an "id" and adds
   * otherwise.
   */
  function Dispatch(httpMethod: string, params: map<string, string>): (op: Operation)
    ensures httpMethod == "GET" && IdKey in params ==> op == GetOne(params[IdKey])
    ensures httpMethod == "GET" && IdKey !in params && SearchKey in params ==> op == SearchAll(params[SearchKey])
    ensures httpMethod == "GET" && IdKey !in params && SearchKey !in params ==> op == ListAll
    ensures httpMethod != "GET" ==> (op == UpdateOne <==> IdKey in params) && (op == AddOne <==> IdKey !in params)
  {
    if httpMethod == "GET" then
      if IdKey in params then GetOne(params[IdKey])
      else if SearchKey in params then SearchAll(params[SearchKey])
      else ListAll
    else if IdKey in params then UpdateOne
    else AddOne
  }

  /** A GET never writes and any other method never only reads. */
  lemma OnlyGetReads(httpMethod: string, params: map<string, string>)
    ensures httpMethod == "GET" <==> !(Dispatch(httpMethod, params).UpdateOne? || Dispatch(httpMethod, params).AddOne?)
  {
  }

  /**
   * A request with a method other than GET or POST, on a path with a
   * template, gets its 400 and is then handled as a POST: it still adds
   * or updates a record.
   */
  lemma OtherMethodsStillWrite(content: WebContent.Content, httpMethod: string, path: string, params: map<string, string>)
    requires httpMethod != "GET" && httpMethod != "POST" && path in content.templates
    ensures Handle(content, httpMethod, path).badRequestWritten
    ensures Handle(content, httpMethod, path).served.WithTemplate?
    ensures Dispatch(httpMethod, params) == UpdateOne || Dispatch(httpMethod, params) == AddOne
  {
  }

  /** The data a template is rendered with. */
  datatype Data = NoData | RecordData(record: Record) | RecordsData(records: seq<Record>) | ParamsData(params: map<string, string>)

  /**
   * getRecord: a format or record that is not found is 404, any other
   * error is 500, and a record found is 200 with the record.
   */
  function GetRecordStatus(reply: Result<Record, Error>): (r: (int, Data))
    ensures reply.Ok? ==> r == (StatusOK, RecordData(reply.value))
    ensures reply.Err? && (Is(reply.error, FormatNotFound) || Is(reply.error, RecordNotFound)) ==>
              r == (StatusNotFound, NoData)
    ensures reply.Err? && !Is(reply.error, FormatNotFound) && !Is(reply.error, RecordNotFound) ==>
              r == (StatusInternalServerError, NoData)
  {
    if reply.Err? && Is(reply.error, FormatNotFound) then (StatusNotFound, NoData)
    else if reply.Err? && Is(reply.error, RecordNotFound) then (StatusNotFound, NoData)
    else if reply.Err? then (StatusInternalServerError, NoData)
    else (StatusOK, RecordData(reply.value))
  }

  /** listRecords and searchRecords: an unknown format is 404, any other error 500, else 200 with the records. */
  function RecordsStatus(reply: Result<seq<Record>, Error>): (r: (int, Data))
    ensures reply.Ok? ==> r == (StatusOK, RecordsData(reply.value))
    ensures reply.Err? && Is(reply.error, FormatNotFound) ==> r == (StatusNotFound, NoData)
    ensures reply.Err? && !Is(reply.error, FormatNotFound) ==> r == (StatusInternalServerError, NoData)
  {
    if reply.Err? && Is(reply.error, FormatNotFound) then (StatusNotFound, NoData)
    else if reply.Err? then (StatusInternalServerError, NoData)
    else (StatusOK, RecordsData(reply.value))
  }

  /**
   * addRecord: an unknown format is 404 and a record with an id is 400;
   * any other error, a failed validation included, is 500; success is 200
   * with no data.
   */
  function AddStatus(err: Option<Error>): (r: (int, Data))
    ensures r.1 == NoData
    ensures err.None? ==> r.0 == StatusOK
    ensures err.Some? && Is(err.value, FormatNotFound) ==> r.0 == StatusNotFound
    ensures err.Some? && Is(err.value, RecordHasID) ==> r.0 == StatusBadRequest
    ensures err.Some? && !Is(err.value, FormatNotFound) && !Is(err.value, RecordHasID) ==>
              r.0 == StatusInternalServerError
  {
    if err.None? then (StatusOK, NoData)
    else
      AtMostOneSentinel(err.value, FormatNotFound, RecordHasID);
      if Is(err.value, FormatNotFound) then (StatusNotFound, NoData)
      else if Is(err.value, RecordHasID) then (StatusBadRequest, NoData)
      else (StatusInternalServerError, NoData)
  }

  /** An error the service wrapped as unexpected is a 500 for every operation that reads. */
  lemma WrappedErrorsAreInternal(prefix: string, e: Error)
    ensures GetRecordStatus(Err(NewUnexpected(Errorfv(prefix, e)))).0 == StatusInternalServerError
    ensures RecordsStatus(Err(NewUnexpected(Errorfv(prefix, e)))).0 == StatusInternalServerError
  {
    ErrorfvHidesSentinel(prefix, e, FormatNotFound);
    ErrorfvHidesSentinel(prefix, e, RecordNotFound);
  }

  /** A record the service refuses as invalid is answered by addRecord as an internal error, not a bad request. */
  lemma AddValidationFailureIsInternal(failed: map<string, string>)
    ensures AddStatus(Some(ValidationFailed(failed))).0 == StatusInternalServerError
  {
  }

  /**
   * errors.As with a ValidationFailedError target: the failures of the
   * first ValidationFailedError in the unwrap chain, if there is one.
   */
  function AsValidationFailed(e: Error): (r: Option<map<string, string>>)
    ensures r.Some? ==> Is(e, ValidationFailed(r.value))
    ensures e.ValidationFailed? ==> r == Some(e.failed)
    ensures IsSentinel(e) ==> r.None?
  {
    match e
    case ValidationFailed(failed) => Some(failed)
    case Unexpected(inner) => AsValidationFailed(inner)
    case Wrapping(_, inner) => AsValidationFailed(inner)
    case _ => None
  }

  /**
   * updateRecord: always 200 with the request's values; a failed
   * validation adds each failure's reason under its fail key, and anything
   * else, an error of the store included, flags the values with
   * "_success".
   */
  method UpdateRecord(params: map<string, string>, err: Option<Error>) returns (status: int, data: Data)
    ensures status == StatusOK && data.ParamsData?
    ensures err.Some? && AsValidationFailed(err.value).Some? ==>
              var failed := AsValidationFailed(err.value).value;
              data.params.Keys == params.Keys + WebForms.FailKeys(failed) &&
              (forall f :: f in failed ==> data.params[FailKey(f)] == failed[f]) &&
              (forall k :: k in params && k !in WebForms.FailKeys(failed) ==> data.params[k] == params[k])
    ensures err.None? || AsValidationFailed(err.value).None? ==> data.params == params[SuccessKey := "_"]
  {
    if err.Some? && AsValidationFailed(err.value).Some? {
      var flagged := WebForms.AddValidationFails(params, AsValidationFailed(err.value).value);
      return StatusOK, ParamsData(flagged);
    }
    return StatusOK, ParamsData(params[SuccessKey := "_"]);
  }

  /** The outcome of a request with a template: an error status, or the template rendered with data. */
  datatype Outcome = ErrorStatus(status: int) | Render(template: WebContent.Template, data: Data)

  /**
   * handleWithTemplate: the operation the request asks for is run on the
   * format of the template, and a status other than 200 is written instead
   * of the template. The service's result for each operation is a
   * parameter; `call` is the call made to the service, which the reply
   * answers.
   */
  method HandleWithTemplate(template: WebContent.Template, httpMethod: string, params: map<string, string>,
                            getReply: Result<Record, Error>, listReply: Result<seq<Record>, Error>,
                            searchReply: Result<seq<Record>, Error>, addErr: Option<Error>,
                            updateErr: Option<Error>)
    returns (outcome: Outcome, call: ServiceCall)
    ensures httpMethod == "GET" && IdKey in params ==> call == GetRecordCall(template.formatName, params[IdKey])
    ensures httpMethod == "GET" && IdKey !in params && SearchKey in params ==>
              call == SearchRecordsCall(template.formatName, params[SearchKey])
    ensures httpMethod == "GET" && IdKey !in params && SearchKey !in params ==> call == ListRecordsCall(template.formatName)
    ensures httpMethod != "GET" && IdKey in params ==> call == UpdateRecordCall(template.formatName, params)
    ensures httpMethod != "GET" && IdKey !in params ==> call == AddRecordCall(template.formatName, params)
    ensures Dispatch(httpMethod, params).GetOne? ==>
              outcome == (if getReply.Ok? then Render(template, RecordData(getReply.value))
                          else ErrorStatus(GetRecordStatus(getReply).0))
    ensures Dispatch(httpMethod, params).ListAll? ==>
              outcome == (if listReply.Ok? then Render(template, RecordsData(listReply.value))
                          else ErrorStatus(RecordsStatus(listReply).0))
    ensures Dispatch(httpMethod, params).SearchAll? ==>
              outcome == (if searchReply.Ok? then Render(template, RecordsData(searchReply.value))
                          else ErrorStatus(RecordsStatus(searchReply).0))
    ensures Dispatch(httpMethod, params).AddOne? ==>
              outcome == (if addErr.None? then Render(template, NoData) else ErrorStatus(AddStatus(addErr).0))
    ensures Dispatch(httpMethod, params).UpdateOne? ==> outcome.Render? && outcome.template == template && outcome.data.ParamsData?
    ensures Dispatch(httpMethod, params).UpdateOne? && updateErr.Some? && AsValidationFailed(updateErr.value).Some? ==>
              var failed := AsValidationFailed(updateErr.value).value;
              outcome.data.params.Keys == params.Keys + WebForms.FailKeys(failed) &&
              (forall f :: f in failed ==> outcome.data.params[FailKey(f)] == failed[f]) &&
              (forall k :: k in params && k !in WebForms.FailKeys(failed) ==> outcome.data.params[k] == params[k])
    ensures Dispatch(httpMethod, params).UpdateOne? && (updateErr.None? || AsValidationFailed(updateErr.value).None?) ==>
              outcome == Render(template, ParamsData(params[SuccessKey := "_"]))
  {
    var status: int;
    var data: Data;
    var formatName := template.formatName;
    match Dispatch(httpMethod, params) {
      case GetOne(id) =>
        call := GetRecordCall(formatName, id);
        status, data := GetRecordStatus(getReply).0, GetRecordStatus(getReply).1;
      case SearchAll(search) =>
        call := SearchRecordsCall(formatName, search);
        status, data := RecordsStatus(searchReply).0, RecordsStatus(searchReply).1;
      case ListAll =>
        call := ListRecordsCall(formatName);
        status, data := RecordsStatus(listReply).0, RecordsStatus(listReply).1;
      case UpdateOne =>
        call := UpdateRecordCall(formatName, params);
        status, data := UpdateRecord(params, updateErr);
      case AddOne =>
        call := AddRecordCall(formatName, params);
        status, data := AddStatus(addErr).0, AddStatus(addErr).1;
    }
    if status != StatusOK {
      return ErrorStatus(status), call;
    }
    return Render(template, data), call;
  }
}
