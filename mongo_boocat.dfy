/**
 * The MongoDB adapter of the boocat package (boocat/mongodb/mongodb.go;
 * boocat/mongodb/database.go is an earlier copy of the same code). Records
 * live in one collection per format, named after the format. The adapter
 * checks its arguments, makes at most one driver call, and converts what
 * comes back; the driver's reply is a parameter and the call made is
 * returned, as in the record services.
 */
module MongoBoocat {
  import opened Results
  import opened BoocatErrors
  import BoocatFormats
  import opened MongoIndexes

  /** The reason a reference validator gives for a record it cannot read. */
  function NotFoundReason(formatName: string, value: string): string
  {
    "record of format '" + formatName + "' and ID '" + value + "' not found"
  }

  class MongoDB {
    /** The collection of each format, by format name. */
    var collections: map<string, string>
    /** The MongoDB server the client is connected to. */
    const server: IndexServer

    /** NewMongoDB: a connected client with no collections yet. */
    constructor NewMongoDB(server: IndexServer)
      ensures this.server == server && collections == map[]
    {
      this.server := server;
      collections := map[];
    }

    /**
     * InitializeCollections: one collection per format, keyed by the
     * format's name, each with its text index reconciled with the format's
     * searchable fields. Collections of no format keep their indexes.
     */
    method InitializeCollections(formats: map<string, BoocatFormats.Format>, createdName: string -> string)
      requires server.Valid()
      modifies this, server
      ensures server.Valid()
      ensures Initialized(server, formats, formats.Keys, collections)
      ensures forall c :: c !in collections ==> server.Listing(c) == old(server.Listing(c))
    {
      collections := MongoIndexes.InitializeCollections(server, formats, createdName);
    }

    /**
     * AddRecord: a record that has an id is refused before the format is
     * looked up; otherwise the record is inserted into the format's
     * collection and the driver's answer (the new document's id) is returned.
     */
    method AddRecord(formatName: string, record: Record, reply: Result<string, Error>)
      returns (r: Result<string, Error>, call: Option<DriverCall>)
      ensures IdKey in record ==> call == None && r == Err(RecordHasID)
      ensures IdKey !in record && formatName !in collections ==> call == None && r == Err(FormatNotFound)
      ensures IdKey !in record && formatName in collections ==>
                call == Some(InsertOne(collections[formatName], record)) && r == reply
    {
      if IdKey in record {
        return Err(RecordHasID), None;
      }
      if formatName !in collections {
        return Err(FormatNotFound), None;
      }
      call := Some(InsertOne(collections[formatName], record));
      r := reply;
    }

    /**
     * UpdateRecord: an empty or missing id is refused first, then an unknown
     * format; otherwise the document with that id is replaced by the other
     * fields, and anything but exactly one matched document is
     * record-not-found.
     */
    method UpdateRecord(formatName: string, record: Record, reply: ReplaceReply<Error>)
      returns (err: Option<Error>, call: Option<DriverCall>)
      ensures Lookup(record, IdKey) == "" ==> call == None && err == Some(RecordDoesntHaveID)
      ensures Lookup(record, IdKey) != "" && formatName !in collections ==> call == None && err == Some(FormatNotFound)
      ensures Lookup(record, IdKey) != "" && formatName in collections ==>
                call == Some(ReplaceOne(collections[formatName], record[IdKey], record - {IdKey}))
      ensures call.Some? && reply.matchedCount != 1 ==> err == Some(RecordNotFound)
      ensures call.Some? && reply.matchedCount == 1 ==> err == reply.err
    {
      var split := SplitID(record);
      var id, fields := split.0, split.1;
      if id == "" {
        return Some(RecordDoesntHaveID), None;
      }
      if formatName !in collections {
        return Some(FormatNotFound), None;
      }
      assert fields == record - {IdKey};
      call := Some(ReplaceOne(collections[formatName], id, fields));
      if reply.matchedCount != 1 {
        return Some(RecordNotFound), call;
      }
      err := reply.err;
    }

    /**
     * GetRecord: the document with the id, converted to a record; no
     * document is record-not-found, and any other driver error is returned
     * as it is.
     */
    method GetRecord(formatName: string, id: string, reply: FindReply<Error>)
      returns (r: Result<Record, Error>, call: Option<DriverCall>)
      ensures formatName !in collections ==> call == None && r == Err(FormatNotFound)
      ensures formatName in collections ==> call == Some(FindOne(collections[formatName], id))
      ensures call.Some? && reply.Found? ==> r == Ok(DocumentToRecord(reply.document))
      ensures call.Some? && reply.NoDocuments? ==> r == Err(RecordNotFound)
      ensures call.Some? && reply.FindFailed? ==> r == Err(reply.err)
    {
      if formatName !in collections {
        return Err(FormatNotFound), None;
      }
      call := Some(FindOne(collections[formatName], id));
      match reply
      case NoDocuments => r := Err(RecordNotFound);
      case FindFailed(e) => r := Err(e);
      case Found(document) => r := Ok(DocumentToRecord(document));
    }

    /** GetAllRecords: every document of the format's collection, converted, in the order the cursor gives. */
    method GetAllRecords(formatName: string, reply: Result<seq<Record>, Error>)
      returns (r: Result<seq<Record>, Error>, call: Option<DriverCall>)
      ensures formatName !in collections ==> call == None && r == Err(FormatNotFound)
      ensures formatName in collections ==> call == Some(FindAll(collections[formatName]))
      ensures call.Some? && reply.Err? ==> r == reply
      ensures call.Some? && reply.Ok? ==>
                r.Ok? && |r.value| == |reply.value| &&
                forall i :: 0 <= i < |reply.value| ==> r.value[i] == DocumentToRecord(reply.value[i])
    {
      if formatName !in collections {
        return Err(FormatNotFound), None;
      }
      call := Some(FindAll(collections[formatName]));
      if reply.Err? {
        return reply, call;
      }
      var records := DocumentsToRecords(reply.value);
      r := Ok(records);
    }

    /** SearchRecord: the documents the collection's text index matches, converted, in cursor order. */
    method SearchRecord(formatName: string, search: string, reply: Result<seq<Record>, Error>)
      returns (r: Result<seq<Record>, Error>, call: Option<DriverCall>)
      ensures formatName !in collections ==> call == None && r == Err(FormatNotFound)
      ensures formatName in collections ==> call == Some(FindText(collections[formatName], search))
      ensures call.Some? && reply.Err? ==> r == reply
      ensures call.Some? && reply.Ok? ==>
                r.Ok? && |r.value| == |reply.value| &&
                forall i :: 0 <= i < |reply.value| ==> r.value[i] == DocumentToRecord(reply.value[i])
    {
      if formatName !in collections {
        return Err(FormatNotFound), None;
      }
      call := Some(FindText(collections[formatName], search));
      if reply.Err? {
        return reply, call;
      }
      var records := DocumentsToRecords(reply.value);
      r := Ok(records);
    }

    /**
     * ReferenceValidator: a value is a valid reference exactly when
     * GetRecord reads a record under it; otherwise the reason names the
     * format and the value.
     */
    method ReferenceValidate(formatName: string, value: string, reply: FindReply<Error>) returns (reason: string)
      ensures reason == "" <==> formatName in collections && reply.Found?
      ensures reason != "" ==> reason == NotFoundReason(formatName, value)
    {
      var r, _ := GetRecord(formatName, value, reply);
      if r.Err? {
        return NotFoundReason(formatName, value);
      }
      return "";
    }
  }
}
