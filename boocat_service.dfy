/**
 * The record service of the boocat package (boocat/boocat.go). A `Boocat`
 * value holds the registered formats and the database it talks to. Each
 * operation validates where it must, makes at most one call to the
 * database, and maps the database's errors into the error taxonomy of
 * BoocatErrors.
 *
 * The database is outside the model: every operation takes the reply the
 * database would give as a parameter and returns, besides its own result,
 * the call it made (`None` when it made none), so that "the database is
 * not called" can be stated.
 */
module BoocatService {
  import opened Results
  import opened BoocatErrors
  import BoocatFormats

  /** Which database the service was given; the database itself is not modelled. */
  type DatabaseHandle = nat

  /** A call from the service to the database interface. */
  datatype StoreCall =
    | GetRecordCall(formatName: string, id: string)
    | GetAllRecordsCall(formatName: string)
    | SearchRecordCall(formatName: string, search: string)
    | AddRecordCall(formatName: string, record: Record)
    | UpdateRecordCall(formatName: string, record: Record)

  const DatabaseNotSet: Error := NewUnexpected(Plain("database not set"))

  class Boocat {
    var formats: map<string, BoocatFormats.Format>
    var db: Option<DatabaseHandle>

    /** The zero `Boocat`: no formats and no database. */
    constructor ()
      ensures formats == map[] && db == None
    {
      formats := map[];
      db := None;
    }

    /** SetDatabase */
    method SetDatabase(handle: DatabaseHandle)
      modifies this
      ensures db == Some(handle)
      ensures formats == old(formats)
    {
      db := Some(handle);
    }

    /** SetFormat: registers `format` under `name`; every other entry is unchanged. */
    method SetFormat(name: string, format: BoocatFormats.Format)
      modifies this
      ensures name in formats && formats[name] == format
      ensures forall other :: other != name ==> (other in formats <==> other in old(formats))
      ensures forall other :: other != name && other in formats ==> formats[other] == old(formats)[other]
      ensures db == old(db)
    {
      formats := formats[name := format];
    }

    /** The format registered under `name`, or the zero format. */
    function FormatFor(name: string): (f: BoocatFormats.Format)
      reads this
    {
      if name in formats then formats[name] else BoocatFormats.ZeroFormat
    }

    /**
     * GetRecord: the database's record, or its error mapped: format-not-found
     * and record-not-found pass through, anything else is wrapped as an
     * UnexpectedError.
     */
    method GetRecord(formatName: string, id: string, reply: Result<Record, Error>)
      returns (r: Result<Record, Error>, call: Option<StoreCall>)
      ensures db.None? ==> call == None && r == Err(DatabaseNotSet)
      ensures db.Some? ==> call == Some(GetRecordCall(formatName, id))
      ensures db.Some? && reply.Ok? ==> r == reply
      ensures db.Some? && reply.Err? && Is(reply.error, FormatNotFound) ==> r == Err(FormatNotFound)
      ensures db.Some? && reply.Err? && Is(reply.error, RecordNotFound) ==> r == Err(RecordNotFound)
      ensures db.Some? && reply.Err? && !Is(reply.error, FormatNotFound) && !Is(reply.error, RecordNotFound) ==>
                r == Err(NewUnexpected(Errorfv("getting record from database: ", reply.error)))
    {
      if db.None? {
        return Err(DatabaseNotSet), None;
      }
      call := Some(GetRecordCall(formatName, id));
      if reply.Err? {
        AtMostOneSentinel(reply.error, FormatNotFound, RecordNotFound);
      }
      if reply.Ok? {
        r := reply;
      } else if Is(reply.error, FormatNotFound) {
        r := Err(FormatNotFound);
      } else if Is(reply.error, RecordNotFound) {
        r := Err(RecordNotFound);
      } else {
        r := Err(NewUnexpected(Errorfv("getting record from database: ", reply.error)));
      }
    }

    /** ListRecords: the database's records, or format-not-found, or an UnexpectedError. */
    method ListRecords(formatName: string, reply: Result<seq<Record>, Error>)
      returns (r: Result<seq<Record>, Error>, call: Option<StoreCall>)
      ensures db.None? ==> call == None && r == Err(DatabaseNotSet)
      ensures db.Some? ==> call == Some(GetAllRecordsCall(formatName))
      ensures db.Some? && reply.Ok? ==> r == reply
      ensures db.Some? && reply.Err? && Is(reply.error, FormatNotFound) ==> r == Err(FormatNotFound)
      ensures db.Some? && reply.Err? && !Is(reply.error, FormatNotFound) ==>
                r == Err(NewUnexpected(Errorfv("getting records from database: ", reply.error)))
    {
      if db.None? {
        return Err(DatabaseNotSet), None;
      }
      call := Some(GetAllRecordsCall(formatName));
      if reply.Ok? {
        r := reply;
      } else if Is(reply.error, FormatNotFound) {
        r := Err(FormatNotFound);
      } else {
        r := Err(NewUnexpected(Errorfv("getting records from database: ", reply.error)));
      }
    }

    /** SearchRecords: as ListRecords, for the database's search. */
    method SearchRecords(formatName: string, search: string, reply: Result<seq<Record>, Error>)
      returns (r: Result<seq<Record>, Error>, call: Option<StoreCall>)
      ensures db.None? ==> call == None && r == Err(DatabaseNotSet)
      ensures db.Some? ==> call == Some(SearchRecordCall(formatName, search))
      ensures db.Some? && reply.Ok? ==> r == reply
      ensures db.Some? && reply.Err? && Is(reply.error, FormatNotFound) ==> r == Err(FormatNotFound)
      ensures db.Some? && reply.Err? && !Is(reply.error, FormatNotFound) ==>
                r == Err(NewUnexpected(Errorfv("getting records from database: ", reply.error)))
    {
      if db.None? {
        return Err(DatabaseNotSet), None;
      }
      call := Some(SearchRecordCall(formatName, search));
      if reply.Ok? {
        r := reply;
      } else if Is(reply.error, FormatNotFound) {
        r := Err(FormatNotFound);
      } else {
        r := Err(NewUnexpected(Errorfv("getting records from database: ", reply.error)));
      }
    }

    /**
     * AddRecord: validation gates the write. When the record fails the
     * format's validation the database is not called; otherwise the record
     * goes to the database under the format's own name, and the database's
     * format-not-found and has-id errors pass through while any other error
     * is wrapped.
     */
    method AddRecord(formatName: string, record: Record, reply: Result<string, Error>)
      returns (r: Result<string, Error>, call: Option<StoreCall>)
      ensures db.None? ==> call == None && r == Err(DatabaseNotSet)
      ensures db.Some? && !BoocatFormats.Accepts(FormatFor(formatName), record) ==>
                call == None && r == Err(ValidationFailed(BoocatFormats.Validate(FormatFor(formatName), record)))
      ensures db.Some? && BoocatFormats.Accepts(FormatFor(formatName), record) ==>
                call == Some(AddRecordCall(FormatFor(formatName).name, record))
      ensures call.Some? && reply.Ok? ==> r == reply
      ensures call.Some? && reply.Err? && Is(reply.error, FormatNotFound) ==> r == Err(FormatNotFound)
      ensures call.Some? && reply.Err? && Is(reply.error, RecordHasID) ==> r == Err(RecordHasID)
      ensures call.Some? && reply.Err? && !Is(reply.error, FormatNotFound) && !Is(reply.error, RecordHasID) ==>
                r == Err(NewUnexpected(Errorfv("adding record to database: ", reply.error)))
    {
      if db.None? {
        return Err(DatabaseNotSet), None;
      }
      var format := FormatFor(formatName);
      var failed := BoocatFormats.Validate(format, record);
      BoocatFormats.ValidateEmptyIffAccepts(format, record);
      if |failed| > 0 {
        return Err(ValidationFailed(failed)), None;
      }
      call := Some(AddRecordCall(format.name, record));
      if reply.Err? {
        AtMostOneSentinel(reply.error, FormatNotFound, RecordHasID);
      }
      if reply.Err? && Is(reply.error, FormatNotFound) {
        r := Err(FormatNotFound);
      } else if reply.Err? && Is(reply.error, RecordHasID) {
        r := Err(RecordHasID);
      } else if reply.Err? {
        r := Err(NewUnexpected(Errorfv("adding record to database: ", reply.error)));
      } else {
        r := reply;
      }
    }

    /**
     * UpdateRecord: as AddRecord, except that only format-not-found and
     * doesn't-have-id pass through; a record-not-found from the database is
     * wrapped as an UnexpectedError like any other error.
     */
    method UpdateRecord(formatName: string, record: Record, reply: Option<Error>)
      returns (r: Option<Error>, call: Option<StoreCall>)
      ensures db.None? ==> call == None && r == Some(DatabaseNotSet)
      ensures db.Some? && !BoocatFormats.Accepts(FormatFor(formatName), record) ==>
                call == None && r == Some(ValidationFailed(BoocatFormats.Validate(FormatFor(formatName), record)))
      ensures db.Some? && BoocatFormats.Accepts(FormatFor(formatName), record) ==>
                call == Some(UpdateRecordCall(FormatFor(formatName).name, record))
      ensures call.Some? && reply.None? ==> r == None
      ensures call.Some? && reply.Some? && Is(reply.value, FormatNotFound) ==> r == Some(FormatNotFound)
      ensures call.Some? && reply.Some? && Is(reply.value, RecordDoesntHaveID) ==> r == Some(RecordDoesntHaveID)
      ensures call.Some? && reply.Some? && !Is(reply.value, FormatNotFound) && !Is(reply.value, RecordDoesntHaveID) ==>
                r == Some(NewUnexpected(Errorfv("updating record in database: ", reply.value)))
    {
      if db.None? {
        return Some(DatabaseNotSet), None;
      }
      var format := FormatFor(formatName);
      var failed := BoocatFormats.Validate(format, record);
      BoocatFormats.ValidateEmptyIffAccepts(format, record);
      if |failed| > 0 {
        return Some(ValidationFailed(failed)), None;
      }
      call := Some(UpdateRecordCall(format.name, record));
      if reply.Some? {
        AtMostOneSentinel(reply.value, FormatNotFound, RecordDoesntHaveID);
      }
      if reply.None? {
        r := None;
      } else if Is(reply.value, FormatNotFound) {
        r := Some(FormatNotFound);
      } else if Is(reply.value, RecordDoesntHaveID) {
        r := Some(RecordDoesntHaveID);
      } else {
        r := Some(NewUnexpected(Errorfv("updating record in database: ", reply.value)));
      }
    }
  }

  /**
   * For a format name that was never registered, the zero format is used:
   * a record with any field besides "id" fails validation, each such field
   * with "not a field of format ''", and the database is not called.
   */
  lemma UnregisteredFormatRejects(bc: Boocat, formatName: string, record: Record)
    requires formatName !in bc.formats
    requires exists name :: name in record && name != IdKey
    ensures !BoocatFormats.Accepts(bc.FormatFor(formatName), record)
    ensures BoocatFormats.Validate(bc.FormatFor(formatName), record).Keys == record.Keys - {IdKey}
  {
    BoocatFormats.ZeroFormatRejectsEveryField(record);
  }
}
