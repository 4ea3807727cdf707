/**
 * The MongoDB database of the server package (server/database/database.go).
 * It is the boocat adapter with two differences: `Initialize` connects and
 * reconciles in one step, and AddRecord and UpdateRecord check the format
 * before the record's id. The driver's reply is a parameter and the call
 * made is returned.
 */
module ServerDatabase {
  import opened Results
  import opened ServerErrors
  import BoocatFormats
  import opened MongoIndexes

  /** The reason a reference validator gives for a record it cannot read. */
  function NotFoundReason(formatName: string, value: string): string
  {
    "record of format '" + formatName + "' and ID '" + value + "' not found"
  }

  class MongoDB {
    /** The collection of each format, by format name. */
    var collections: map<string, string>
    /** The MongoDB server the client is connected to. */
    const server: IndexServer

    /**
     * Initialize: connects to the server and gives every format its
     * collection, keyed by the format's name, with its text index
     * reconciled with the format's searchable fields.
     */
    constructor Initialize(server: IndexServer, formats: map<string, BoocatFormats.Format>, createdName: string -> string)
      requires server.Valid()
      modifies server
      ensures this.server == server && server.Valid()
      ensures Initialized(server, formats, formats.Keys, collections)
      ensures forall c :: c !in collections ==> server.Listing(c) == old(server.Listing(c))
    {
      var initialized := MongoIndexes.InitializeCollections(server, formats, createdName);
      this.server := server;
      collections := initialized;
    }

    /**
     * AddRecord: an unknown format is refused before a record that has an
     * id; otherwise the record is inserted and the driver's answer (the new
     * document's id) is returned.
     */
    method AddRecord(formatName: string, record: Record, reply: Result<string, Error>)
      returns (r: Result<string, Error>, call: Option<DriverCall>)
      ensures formatName !in collections ==> call == None && r == Err(FormatNotFound)
      ensures formatName in collections && IdKey in record ==> call == None && r == Err(RecordHasID)
      ensures formatName in collections && IdKey !in record ==>
                call == Some(InsertOne(collections[formatName], record)) && r == reply
    {
      if formatName !in collections {
        return Err(FormatNotFound), None;
      }
      if IdKey in record {
        return Err(RecordHasID), None;
      }
      call := Some(InsertOne(collections[formatName], record));
      r := reply;
    }

    /**
     * UpdateRecord: an unknown format is refused before an empty or missing
     * id; otherwise the document with that id is replaced by the other
     * fields, and anything but exactly one matched document is
     * record-not-found.
     */
    method UpdateRecord(formatName: string, record: Record, reply: ReplaceReply<Error>)
      returns (err: Option<Error>, call: Option<DriverCall>)
      ensures formatName !in collections ==> call == None && err == Some(FormatNotFound)
      ensures formatName in collections && Lookup(record, IdKey) == "" ==> call == None && err == Some(RecordDoesntHaveID)
      ensures formatName in collections && Lookup(record, IdKey) != "" ==>
                call == Some(ReplaceOne(collections[formatName], record[IdKey], record - {IdKey}))
      ensures call.Some? && reply.matchedCount != 1 ==> err == Some(RecordNotFound)
      ensures call.Some? && reply.matchedCount == 1 ==> err == reply.err
    {
      if formatName !in collections {
        return Some(FormatNotFound), None;
      }
      var split := SplitID(record);
      var id, fields := split.0, split.1;
      if id == "" {
        return Some(RecordDoesntHaveID), None;
      }
      assert fields == record - {IdKey};
      call := Some(ReplaceOne(collections[formatName], id, fields));
      if reply.matchedCount != 1 {
        return Some(RecordNotFound), call;
      }
      err := reply.err;
    }

    /**
     * GetRecord: the document with the id, converted to a record; no
     * document is record-not-found, and any other driver error is returned
     * as it is.
     */
    method GetRecord(formatName: string, id: string, reply: FindReply<Error>)
      returns (r: Result<Record, Error>, call: Option<DriverCall>)
      ensures formatName !in collections ==> call == None && r == Err(FormatNotFound)
      ensures formatName in collections ==> call == Some(FindOne(collections[formatName], id))
      ensures call.Some? && reply.Found? ==> r == Ok(DocumentToRecord(reply.document))
      ensures call.Some? && reply.NoDocuments? ==> r == Err(RecordNotFound)
      ensures call.Some? && reply.FindFailed? ==> r == Err(reply.err)
    {
      if formatName !in collections {
        return Err(FormatNotFound), None;
      }
      call := Some(FindOne(collections[formatName], id));
      match reply
      case NoDocuments => r := Err(RecordNotFound);
      case FindFailed(e) => r := Err(e);
      case Found(document) => r := Ok(DocumentToRecord(document));
    }

    /** GetAllRecords: every document of the format's collection, converted, in the order the cursor gives. */
    method GetAllRecords(formatName: string, reply: Result<seq<Record>, Error>)
      returns (r: Result<seq<Record>, Error>, call: Option<DriverCall>)
      ensures formatName !in collections ==> call == None && r == Err(FormatNotFound)
      ensures formatName in collections ==> call == Some(FindAll(collections[formatName]))
      ensures call.Some? && reply.Err? ==> r == reply
      ensures call.Some? && reply.Ok? ==>
                r.Ok? && |r.value| == |reply.value| &&
                forall i :: 0 <= i < |reply.value| ==> r.value[i] == DocumentToRecord(reply.value[i])
    {
      if formatName !in collections {
        return Err(FormatNotFound), None;
      }
      call := Some(FindAll(collections[formatName]));
      if reply.Err? {
        return reply, call;
      }
      var records := DocumentsToRecords(reply.value);
      r := Ok(records);
    }

    /** SearchRecord: the documents the collection's text index matches, converted, in cursor order. */
    method SearchRecord(formatName: string, search: string, reply: Result<seq<Record>, Error>)
      returns (r: Result<seq<Record>, Error>, call: Option<DriverCall>)
      ensures formatName !in collections ==> call == None && r == Err(FormatNotFound)
      ensures formatName in collections ==> call == Some(FindText(collections[formatName], search))
      ensures call.Some? && reply.Err? ==> r == reply
      ensures call.Some? && reply.Ok? ==>
                r.Ok? && |r.value| == |reply.value| &&
                forall i :: 0 <= i < |reply.value| ==> r.value[i] == DocumentToRecord(reply.value[i])
    {
      if formatName !in collections {
        return Err(FormatNotFound), None;
      }
      call := Some(FindText(collections[formatName], search));
      if reply.Err? {
        return reply, call;
      }
      var records := DocumentsToRecords(reply.value);
      r := Ok(records);
    }

    /**
     * ReferenceValidator: a value is a valid reference exactly when
     * GetRecord reads a record under it; otherwise the reason names the
     * format and the value.
     */
    method ReferenceValidate(formatName: string, value: string, reply: FindReply<Error>) returns (reason: string)
      ensures reason == "" <==> formatName in collections && reply.Found?
      ensures reason != "" ==> reason == NotFoundReason(formatName, value)
    {
      var r, _ := GetRecord(formatName, value, reply);
      if r.Err? {
        return NotFoundReason(formatName, value);
      }
      return "";
    }
  }
}
