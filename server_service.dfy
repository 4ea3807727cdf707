/**
 * The record service of the server package (server/server.go). The
 * package-level database is set by `Initialize`; the formats come from the
 * server/formats registry, passed here as a parameter. As in
 * BoocatService, the database's reply is a parameter and the call made is
 * returned. Errors the service does not classify become the data-less
 * InternalServerError (the Go code only logs their text).
 */
module ServerService {
  import opened Results
  import opened ServerErrors
  import BoocatFormats
  import ServerFormats

  type DatabaseHandle = nat

  datatype StoreCall =
    | GetRecordCall(formatName: string, id: string)
    | GetAllRecordsCall(formatName: string)
    | SearchRecordCall(formatName: string, search: string)
    | AddRecordCall(formatName: string, record: Record)
    | UpdateRecordCall(formatName: string, record: Record)

  /** server/formats keeps a registry of formats; a missing name gives the zero format. */
  function FormatFor(registry: map<string, BoocatFormats.Format>, name: string): BoocatFormats.Format
  {
    if name in registry then registry[name] else BoocatFormats.ZeroFormat
  }

  /** Calling a Go method on the nil database panics, so every operation needs one set. */
  class Server {
    var db: Option<DatabaseHandle>

    constructor ()
      ensures db == None
    {
      db := None;
    }

    /** Initialize */
    method Initialize(handle: DatabaseHandle)
      modifies this
      ensures db == Some(handle)
    {
      db := Some(handle);
    }

    /** GetRecord: format-not-found and record-not-found pass through; any other error is internal. */
    method GetRecord(formatName: string, id: string, reply: Result<Record, Error>)
      returns (r: Result<Record, Error>, call: StoreCall)
      requires db.Some?
      ensures call == GetRecordCall(formatName, id)
      ensures reply.Ok? ==> r == reply
      ensures reply.Err? && Is(reply.error, FormatNotFound) ==> r == Err(FormatNotFound)
      ensures reply.Err? && Is(reply.error, RecordNotFound) ==> r == Err(RecordNotFound)
      ensures reply.Err? && !Is(reply.error, FormatNotFound) && !Is(reply.error, RecordNotFound) ==>
                r == Err(InternalServer)
    {
      call := GetRecordCall(formatName, id);
      if reply.Err? {
        AtMostOneSentinel(reply.error, FormatNotFound, RecordNotFound);
      }
      if reply.Ok? {
        r := reply;
      } else if Is(reply.error, FormatNotFound) {
        r := Err(FormatNotFound);
      } else if Is(reply.error, RecordNotFound) {
        r := Err(RecordNotFound);
      } else {
        r := Err(InternalServer);
      }
    }

    /** ListRecords: format-not-found passes through; any other error is internal. */
    method ListRecords(formatName: string, reply: Result<seq<Record>, Error>)
      returns (r: Result<seq<Record>, Error>, call: StoreCall)
      requires db.Some?
      ensures call == GetAllRecordsCall(formatName)
      ensures reply.Ok? ==> r == reply
      ensures reply.Err? && Is(reply.error, FormatNotFound) ==> r == Err(FormatNotFound)
      ensures reply.Err? && !Is(reply.error, FormatNotFound) ==> r == Err(InternalServer)
    {
      call := GetAllRecordsCall(formatName);
      if reply.Ok? {
        r := reply;
      } else if Is(reply.error, FormatNotFound) {
        r := Err(FormatNotFound);
      } else {
        r := Err(InternalServer);
      }
    }

    /** SearchRecords: as ListRecords, for the database's search. */
    method SearchRecords(formatName: string, search: string, reply: Result<seq<Record>, Error>)
      returns (r: Result<seq<Record>, Error>, call: StoreCall)
      requires db.Some?
      ensures call == SearchRecordCall(formatName, search)
      ensures reply.Ok? ==> r == reply
      ensures reply.Err? && Is(reply.error, FormatNotFound) ==> r == Err(FormatNotFound)
      ensures reply.Err? && !Is(reply.error, FormatNotFound) ==> r == Err(InternalServer)
    {
      call := SearchRecordCall(formatName, search);
      if reply.Ok? {
        r := reply;
      } else if Is(reply.error, FormatNotFound) {
        r := Err(FormatNotFound);
      } else {
        r := Err(InternalServer);
      }
    }

    /**
     * AddRecord: a record that fails validation gives ValidationFailedError
     * and the database is not called; otherwise format-not-found and has-id
     * pass through and any other error is internal.
     */
    method AddRecord(registry: map<string, BoocatFormats.Format>, formatName: string, record: Record,
                     reply: Result<string, Error>)
      returns (r: Result<string, Error>, call: Option<StoreCall>)
      requires db.Some?
      ensures !BoocatFormats.Accepts(FormatFor(registry, formatName), record) ==>
                call == None && r == Err(ValidationFailed(BoocatFormats.Validate(FormatFor(registry, formatName), record)))
      ensures BoocatFormats.Accepts(FormatFor(registry, formatName), record) ==>
                call == Some(AddRecordCall(FormatFor(registry, formatName).name, record))
      ensures call.Some? && reply.Ok? ==> r == reply
      ensures call.Some? && reply.Err? && Is(reply.error, FormatNotFound) ==> r == Err(FormatNotFound)
      ensures call.Some? && reply.Err? && Is(reply.error, RecordHasID) ==> r == Err(RecordHasID)
      ensures call.Some? && reply.Err? && !Is(reply.error, FormatNotFound) && !Is(reply.error, RecordHasID) ==>
                r == Err(InternalServer)
    {
      var format := FormatFor(registry, formatName);
      var failed := BoocatFormats.Validate(format, record);
      BoocatFormats.ValidateEmptyIffAccepts(format, record);
      if |failed| > 0 {
        return Err(ValidationFailed(failed)), None;
      }
      call := Some(AddRecordCall(format.name, record));
      if reply.Err? {
        AtMostOneSentinel(reply.error, FormatNotFound, RecordHasID);
      }
      if reply.Ok? {
        r := reply;
      } else if Is(reply.error, FormatNotFound) {
        r := Err(FormatNotFound);
      } else if Is(reply.error, RecordHasID) {
        r := Err(RecordHasID);
      } else {
        r := Err(InternalServer);
      }
    }

    /**
     * UpdateRecord: as AddRecord, with format-not-found and doesn't-have-id
     * passed through. The record is sent as submitted: fillFromDatabase is
     * not applied.
     */
    method UpdateRecord(registry: map<string, BoocatFormats.Format>, formatName: string, record: Record,
                        reply: Option<Error>)
      returns (r: Option<Error>, call: Option<StoreCall>)
      requires db.Some?
      ensures !BoocatFormats.Accepts(FormatFor(registry, formatName), record) ==>
                call == None && r == Some(ValidationFailed(BoocatFormats.Validate(FormatFor(registry, formatName), record)))
      ensures BoocatFormats.Accepts(FormatFor(registry, formatName), record) ==>
                call == Some(UpdateRecordCall(FormatFor(registry, formatName).name, record))
      ensures call.Some? && reply.None? ==> r == None
      ensures call.Some? && reply.Some? && Is(reply.value, FormatNotFound) ==> r == Some(FormatNotFound)
      ensures call.Some? && reply.Some? && Is(reply.value, RecordDoesntHaveID) ==> r == Some(RecordDoesntHaveID)
      ensures call.Some? && reply.Some? && !Is(reply.value, FormatNotFound) && !Is(reply.value, RecordDoesntHaveID) ==>
                r == Some(InternalServer)
    {
      var format := FormatFor(registry, formatName);
      var failed := BoocatFormats.Validate(format, record);
      BoocatFormats.ValidateEmptyIffAccepts(format, record);
      if |failed| > 0 {
        return Some(ValidationFailed(failed)), None;
      }
      call := Some(UpdateRecordCall(format.name, record));
      if reply.Some? {
        AtMostOneSentinel(reply.value, FormatNotFound, RecordDoesntHaveID);
      }
      if reply.None? {
        r := None;
      } else if Is(reply.value, FormatNotFound) {
        r := Some(FormatNotFound);
      } else if Is(reply.value, RecordDoesntHaveID) {
        r := Some(RecordDoesntHaveID);
      } else {
        r := Some(InternalServer);
      }
    }

    /**
     * fillFromDatabase: a record missing some field of the format is merged
     * with the stored record of the same id (incoming values win); a
     * complete record, or one whose stored record cannot be read, is
     * returned unchanged.
     */
    method FillFromDatabase(record: Record, format: BoocatFormats.Format, reply: Result<Record, Error>)
      returns (filled: Record, call: Option<StoreCall>)
      requires db.Some?
      ensures !ServerFormats.IncompleteRecord(format.fields.Keys, record) ==> call == None && filled == record
      ensures ServerFormats.IncompleteRecord(format.fields.Keys, record) ==>
                call == Some(GetRecordCall(format.name, Lookup(record, IdKey)))
      ensures call.Some? && reply.Ok? ==> filled == ServerFormats.Merge(format.fields.Keys, record, reply.value)
      ensures call.Some? && reply.Err? ==> filled == record
      ensures forall k :: k in record && (k in format.fields || k == IdKey) ==> k in filled && filled[k] == record[k]
      ensures reply.Ok? && !ServerFormats.IncompleteRecord(format.fields.Keys, reply.value) ==>
                !ServerFormats.IncompleteRecord(format.fields.Keys, filled)
    {
      filled, call := record, None;
      if ServerFormats.IncompleteRecord(format.fields.Keys, record) {
        call := Some(GetRecordCall(format.name, Lookup(record, IdKey)));
        if reply.Ok? {
          filled := ServerFormats.Merge(format.fields.Keys, record, reply.value);
          if !ServerFormats.IncompleteRecord(format.fields.Keys, reply.value) {
            ServerFormats.MergeComplete(format.fields.Keys, record, reply.value);
          }
          forall k | k in record && (k in format.fields || k == IdKey)
            ensures k in filled && filled[k] == record[k]
          {
            ServerFormats.MergeValue(format.fields.Keys, record, reply.value, k);
          }
        }
      }
    }
  }
}
