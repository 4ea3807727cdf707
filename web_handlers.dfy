/**
 * The request handling of the web package (web/server.go). It serves
 * paths and dispatches requests exactly as the web server does (see
 * WebserverHandlers.Handle and WebserverHandlers.Dispatch); what differs is
 * that the service's error is compared by equality with the bare
 * sentinels, and that search, add and update do not call the service yet.
 */
module WebHandlers {
  import opened Results
  import opened ServerErrors
  import WebContent
  import WebserverHandlers

  /**
   * getRecord: no error is 200 with the record, an error EQUAL to
   * format-not-found or record-not-found is 404, and any other error, one
   * that wraps a sentinel included, is 500.
   */
  function GetRecordStatus(reply: Result<Record, Error>): (r: (int, WebserverHandlers.Data))
    ensures reply.Ok? ==> r == (WebserverHandlers.StatusOK, WebserverHandlers.RecordData(reply.value))
    ensures reply.Err? && (reply.error == FormatNotFound || reply.error == RecordNotFound) ==>
              r == (WebserverHandlers.StatusNotFound, WebserverHandlers.NoData)
    ensures reply.Err? && reply.error != FormatNotFound && reply.error != RecordNotFound ==>
              r == (WebserverHandlers.StatusInternalServerError, WebserverHandlers.NoData)
  {
    if reply.Ok? then (WebserverHandlers.StatusOK, WebserverHandlers.RecordData(reply.value))
    else match reply.error
      case FormatNotFound => (WebserverHandlers.StatusNotFound, WebserverHandlers.NoData)
      case RecordNotFound => (WebserverHandlers.StatusNotFound, WebserverHandlers.NoData)
      case _ => (WebserverHandlers.StatusInternalServerError, WebserverHandlers.NoData)
  }

  /** listRecords: no error is 200 with the records, an error equal to format-not-found is 404, any other 500. */
  function ListStatus(reply: Result<seq<Record>, Error>): (r: (int, WebserverHandlers.Data))
    ensures reply.Ok? ==> r == (WebserverHandlers.StatusOK, WebserverHandlers.RecordsData(reply.value))
    ensures reply.Err? && reply.error == FormatNotFound ==> r == (WebserverHandlers.StatusNotFound, WebserverHandlers.NoData)
    ensures reply.Err? && reply.error != FormatNotFound ==>
              r == (WebserverHandlers.StatusInternalServerError, WebserverHandlers.NoData)
  {
    if reply.Ok? then (WebserverHandlers.StatusOK, WebserverHandlers.RecordsData(reply.value))
    else if reply.error == FormatNotFound then (WebserverHandlers.StatusNotFound, WebserverHandlers.NoData)
    else (WebserverHandlers.StatusInternalServerError, WebserverHandlers.NoData)
  }

  /**
   * On an error that wraps nothing, such as every error the service
   * returns, comparing by equality gives the status errors.Is would give.
   */
  lemma {:induction false} EqualityAgreesWithIs(e: Error)
    requires Unwrap(e).None?
    ensures GetRecordStatus(Err(e)).0 ==
            if Is(e, FormatNotFound) || Is(e, RecordNotFound) then WebserverHandlers.StatusNotFound
            else WebserverHandlers.StatusInternalServerError
    ensures ListStatus(Err(e)).0 ==
            if Is(e, FormatNotFound) then WebserverHandlers.StatusNotFound
            else WebserverHandlers.StatusInternalServerError
  {
    assert Is(e, FormatNotFound) <==> e == FormatNotFound;
    assert Is(e, RecordNotFound) <==> e == RecordNotFound;
  }

  /** A not-found error wrapped with %w is a not-found error to errors.Is, but a 500 here. */
  lemma WrappedNotFoundIsInternal(prefix: string)
    ensures Is(Wrapping(prefix, FormatNotFound), FormatNotFound)
    ensures GetRecordStatus(Err(Wrapping(prefix, FormatNotFound))).0 == WebserverHandlers.StatusInternalServerError
    ensures ListStatus(Err(Wrapping(prefix, FormatNotFound))).0 == WebserverHandlers.StatusInternalServerError
  {
    assert Unwrap(Wrapping(prefix, FormatNotFound)) == Some(FormatNotFound);
  }

  /**
   * handleWithTemplate, handleGet and handlePost: the operation the
   * request asks for is run on the format of the template, and a status
   * other than 200 is written instead of the template. Search, add and
   * update answer 200 with no data and make no call; the service's result
   * for reading one record and for the list are parameters, and `call` is
   * the call they answer.
   */
  function HandleWithTemplate(template: WebContent.Template, httpMethod: string, params: map<string, string>,
                              getReply: Result<Record, Error>, listReply: Result<seq<Record>, Error>)
    : (r: (WebserverHandlers.Outcome, Option<WebserverHandlers.ServiceCall>))
    ensures WebserverHandlers.Dispatch(httpMethod, params).GetOne? ==>
              r.0 == (if getReply.Ok? then WebserverHandlers.Render(template, WebserverHandlers.RecordData(getReply.value))
                      else WebserverHandlers.ErrorStatus(GetRecordStatus(getReply).0))
    ensures WebserverHandlers.Dispatch(httpMethod, params).ListAll? ==>
              r.0 == (if listReply.Ok? then WebserverHandlers.Render(template, WebserverHandlers.RecordsData(listReply.value))
                      else WebserverHandlers.ErrorStatus(ListStatus(listReply).0))
    ensures !WebserverHandlers.Dispatch(httpMethod, params).GetOne? && !WebserverHandlers.Dispatch(httpMethod, params).ListAll? ==>
              r.0 == WebserverHandlers.Render(template, WebserverHandlers.NoData)
    ensures httpMethod == "GET" && IdKey in params ==>
              r.1 == Some(WebserverHandlers.GetRecordCall(template.formatName, params[IdKey]))
    ensures httpMethod == "GET" && IdKey !in params && WebserverHandlers.SearchKey !in params ==>
              r.1 == Some(WebserverHandlers.ListRecordsCall(template.formatName))
    ensures r.1.None? <==> httpMethod != "GET" || (IdKey !in params && WebserverHandlers.SearchKey in params)
  {
    var (status, data, call) :=
      match WebserverHandlers.Dispatch(httpMethod, params)
      case GetOne(id) =>
        (GetRecordStatus(getReply).0, GetRecordStatus(getReply).1,
         Some(WebserverHandlers.GetRecordCall(template.formatName, id)))
      case ListAll =>
        (ListStatus(listReply).0, ListStatus(listReply).1, Some(WebserverHandlers.ListRecordsCall(template.formatName)))
      case _ => (WebserverHandlers.StatusOK, WebserverHandlers.NoData, None);
    if status != WebserverHandlers.StatusOK then (WebserverHandlers.ErrorStatus(status), call)
    else (WebserverHandlers.Render(template, data), call)
  }

  /** Whatever the service would do, a write through this package always renders the template with no data and calls nothing. */
  lemma WritesAlwaysSucceed(template: WebContent.Template, params: map<string, string>,
                            getReply: Result<Record, Error>, listReply: Result<seq<Record>, Error>)
    ensures HandleWithTemplate(template, "POST", params, getReply, listReply) ==
            (WebserverHandlers.Render(template, WebserverHandlers.NoData), None)
  {
  }
}
