/**
 * The MongoDB database of the strki version (database/database.go). A
 * record is a `Record{DbID, FieldValues}`: the document's "_id" apart from
 * its other fields. Every store method refuses a format that has no
 * collection with the plain error "format not found"; errors here are
 * plain messages. The driver's reply is a parameter and the call made is
 * returned. Regular expressions are kept as their pattern text; compiling
 * and matching them is not modelled.
 */
module StrkiDatabase {
  import opened Results
  import MongoIndexes

  const FormatNotFound: string := "format not found"

  /** Record: the database id and the field values. */
  datatype DbRecord = DbRecord(dbID: string, fieldValues: map<string, string>)

  /** FormatField: the validator is the pattern of its regular expression. */
  datatype FormatField = FormatField(name: string, labelText: string, description: string, pattern: string)

  datatype Format = Format(name: string, fields: seq<FormatField>)

  const NamePattern: string := "([A-Z][a-z]* )*([A-Z][a-z]*)"
  const YearPattern: string := "[1|2][0-9]{3}"

  function FieldNames(f: Format): seq<string>
  {
    seq(|f.fields|, i requires 0 <= i < |f.fields| => f.fields[i].name)
  }

  /** GetFormat: the fixed author and book formats; any other id is "format not found". */
  function GetFormat(id: string): (r: Result<Format, string>)
    ensures r.Ok? <==> id == "author" || id == "book"
    ensures r.Err? ==> r.error == FormatNotFound
    ensures r.Ok? ==> r.value.name == id && |r.value.fields| == 2 && r.value.fields[0].name == "name"
  {
    var nameField := FormatField("name", "Name", "A-Z,a-z", NamePattern);
    if id == "author" then
      Ok(Format("author", [nameField, FormatField("birthdate", "Year of birth", "A year", YearPattern)]))
    else if id == "book" then
      Ok(Format("book", [nameField, FormatField("year", "Year", "A year", YearPattern)]))
    else Err(FormatNotFound)
  }

  /** The author format has the fields name and birthdate, the book format name and year, both checked as years by the same pattern. */
  lemma GetFormatFields()
    ensures FieldNames(GetFormat("author").value) == ["name", "birthdate"]
    ensures FieldNames(GetFormat("book").value) == ["name", "year"]
    ensures GetFormat("author").value.fields[1].pattern == GetFormat("book").value.fields[1].pattern == YearPattern
    ensures GetFormat("author").value.fields[0] == GetFormat("book").value.fields[0]
  {
  }

  /**
   * documentToRecord: "_id" becomes DbID ("" when absent) and every other
   * key goes into FieldValues; the document itself is left as it is.
   */
  function DocumentToRecord(doc: map<string, string>): (r: DbRecord)
    ensures r.dbID == Lookup(doc, "_id")
    ensures "_id" !in r.fieldValues && r.fieldValues.Keys == doc.Keys - {"_id"}
    ensures forall k :: k in r.fieldValues ==> r.fieldValues[k] == doc[k]
  {
    DbRecord(Lookup(doc, "_id"), map key | key in doc && key != "_id" :: doc[key])
  }

  /** The document a record is stored as. */
  function RecordToDocument(r: DbRecord): map<string, string>
  {
    r.fieldValues["_id" := r.dbID]
  }

  /** A document with an "_id" survives conversion to a record and back. */
  lemma DocumentRoundTrip(doc: map<string, string>)
    requires "_id" in doc
    ensures RecordToDocument(DocumentToRecord(doc)) == doc
  {
    var back := RecordToDocument(DocumentToRecord(doc));
    assert back.Keys == doc.Keys;
  }

  /** A record whose fields do not use "_id" survives conversion to a document and back. */
  lemma RecordRoundTrip(r: DbRecord)
    requires "_id" !in r.fieldValues
    ensures DocumentToRecord(RecordToDocument(r)) == r
  {
    var back := DocumentToRecord(RecordToDocument(r));
    assert back.fieldValues.Keys == r.fieldValues.Keys;
  }

  /** documentsToRecords: one record per document, in order. */
  method DocumentsToRecords(docs: seq<map<string, string>>) returns (records: seq<DbRecord>)
    ensures |records| == |docs|
    ensures forall i :: 0 <= i < |docs| ==> records[i] == DocumentToRecord(docs[i])
  {
    records := [];
    for i := 0 to |docs|
      invariant |records| == i
      invariant forall j :: 0 <= j < i ==> records[j] == DocumentToRecord(docs[j])
    {
      records := records + [DocumentToRecord(docs[i])];
    }
  }

  class MongoDB {
    /** The collection of each format, by format name. */
    var collections: map<string, string>

    /** Connect: one collection per listed format, named after it. */
    constructor Connect(formats: seq<string>)
      ensures forall f :: f in collections <==> f in formats
      ensures forall f :: f in collections ==> collections[f] == f
    {
      var made: map<string, string> := map[];
      for i := 0 to |formats|
        invariant forall f :: f in made <==> f in formats[..i]
        invariant forall f :: f in made ==> made[f] == f
      {
        made := made[formats[i] := formats[i]];
      }
      assert formats[..|formats|] == formats;
      collections := made;
    }

    /** AddRecord: inserts the values into the format's collection. */
    method AddRecord(format: string, values: map<string, string>, reply: Option<string>)
      returns (err: Option<string>, call: Option<MongoIndexes.DriverCall>)
      ensures format !in collections ==> call == None && err == Some(FormatNotFound)
      ensures format in collections ==> call == Some(MongoIndexes.InsertOne(collections[format], values)) && err == reply
    {
      if format in collections {
        return reply, Some(MongoIndexes.InsertOne(collections[format], values));
      }
      return Some(FormatNotFound), None;
    }

    /** UpdateRecord: replaces the document with the record's DbID by its field values. */
    method UpdateRecord(format: string, record: DbRecord, reply: Option<string>)
      returns (err: Option<string>, call: Option<MongoIndexes.DriverCall>)
      ensures format !in collections ==> call == None && err == Some(FormatNotFound)
      ensures format in collections ==>
                call == Some(MongoIndexes.ReplaceOne(collections[format], record.dbID, record.fieldValues)) && err == reply
    {
      if format in collections {
        return reply, Some(MongoIndexes.ReplaceOne(collections[format], record.dbID, record.fieldValues));
      }
      return Some(FormatNotFound), None;
    }

    /** GetAllRecords: every document of the collection, converted, in cursor order. */
    method GetAllRecords(format: string, reply: Result<seq<map<string, string>>, string>)
      returns (r: Result<seq<DbRecord>, string>, call: Option<MongoIndexes.DriverCall>)
      ensures format !in collections ==> call == None && r == Err(FormatNotFound)
      ensures format in collections ==> call == Some(MongoIndexes.FindAll(collections[format]))
      ensures call.Some? && reply.Err? ==> r == Err(reply.error)
      ensures call.Some? && reply.Ok? ==>
                r.Ok? && |r.value| == |reply.value| &&
                forall i :: 0 <= i < |reply.value| ==> r.value[i] == DocumentToRecord(reply.value[i])
    {
      if format in collections {
        call := Some(MongoIndexes.FindAll(collections[format]));
        if reply.Err? {
          return Err(reply.error), call;
        }
        var records := DocumentsToRecords(reply.value);
        return Ok(records), call;
      }
      return Err(FormatNotFound), None;
    }

    /** GetRecord: the document with the id, converted; any driver error is returned as it is. */
    method GetRecord(format: string, id: string, reply: Result<map<string, string>, string>)
      returns (r: Result<DbRecord, string>, call: Option<MongoIndexes.DriverCall>)
      ensures format !in collections ==> call == None && r == Err(FormatNotFound)
      ensures format in collections ==> call == Some(MongoIndexes.FindOne(collections[format], id))
      ensures call.Some? && reply.Err? ==> r == Err(reply.error)
      ensures call.Some? && reply.Ok? ==> r == Ok(DocumentToRecord(reply.value))
    {
      if format in collections {
        call := Some(MongoIndexes.FindOne(collections[format], id));
        if reply.Err? {
          return Err(reply.error), call;
        }
        return Ok(DocumentToRecord(reply.value)), call;
      }
      return Err(FormatNotFound), None;
    }
  }
}
