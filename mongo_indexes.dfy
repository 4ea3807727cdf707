/**
 * The logic the MongoDB adapters share (boocat/mongodb/mongodb.go, and its
 * copies boocat/mongodb/database.go and server/database/database.go): the
 * text-index search over a collection's index listing, the model of the
 * text index a format needs, the startup reconciliation of the two, and the
 * conversions between records and documents.
 *
 * The MongoDB server is an `IndexServer`: a listing of index documents per
 * collection, changed only by the two driver calls the adapters make,
 * `DropOne` and `CreateOne`.
 */
module MongoIndexes {
  import opened Results
  import BoocatFormats

  /** A decoded BSON value, as far as the index documents need one. */
  datatype Bson = Str(s: string) | Doc(entries: map<string, Bson>) | OtherValue

  /** One entry of `Indexes().List`, decoded into a `bson.M`. */
  type IndexDoc = map<string, Bson>

  /** textIndex: the name of a text index and the fields it covers. */
  datatype TextIndex = TextIndex(name: string, fields: set<string>)

  /** An index document whose "key" has `_fts == "text"` and whose "name" is a string. */
  predicate IsTextIndex(d: IndexDoc)
  {
    "key" in d && d["key"].Doc? && "_fts" in d["key"].entries && d["key"].entries["_fts"] == Str("text") &&
    "name" in d && d["name"].Str?
  }

  /** The keys of the "weights" document, or none when there is no such document. */
  function WeightFields(d: IndexDoc): (fields: set<string>)
    ensures "weights" in d && d["weights"].Doc? ==> fields == d["weights"].entries.Keys
    ensures !("weights" in d && d["weights"].Doc?) ==> fields == {}
  {
    if "weights" in d && d["weights"].Doc? then d["weights"].entries.Keys else {}
  }

  function TextIndexOf(d: IndexDoc): TextIndex
    requires IsTextIndex(d)
  {
    TextIndex(d["name"].s, WeightFields(d))
  }

  /** The first text index of a listing, if any. */
  function FirstTextIndex(listing: seq<IndexDoc>): (r: Option<TextIndex>)
    ensures r.None? <==> forall i :: 0 <= i < |listing| ==> !IsTextIndex(listing[i])
    ensures r.Some? ==> exists i :: 0 <= i < |listing| && IsTextIndex(listing[i]) && r.value == TextIndexOf(listing[i]) &&
                                    forall j :: 0 <= j < i ==> !IsTextIndex(listing[j])
  {
    if listing == [] then None
    else if IsTextIndex(listing[0]) then Some(TextIndexOf(listing[0]))
    else
      var r := FirstTextIndex(listing[1..]);
      assert forall j :: 1 <= j < |listing| ==> listing[j] == listing[1..][j - 1];
      r
  }

  /** findTextIndex: walks the listing and stops at the first text index. */
  method FindTextIndex(listing: seq<IndexDoc>) returns (index: TextIndex, found: bool)
    ensures found <==> FirstTextIndex(listing).Some?
    ensures found ==> index == FirstTextIndex(listing).value
    ensures !found ==> index == TextIndex("", {})
  {
    var i := 0;
    while i < |listing|
      invariant 0 <= i <= |listing|
      invariant forall j :: 0 <= j < i ==> !IsTextIndex(listing[j])
    {
      if IsTextIndex(listing[i]) {
        var k :| 0 <= k < |listing| && IsTextIndex(listing[k]) && FirstTextIndex(listing).value == TextIndexOf(listing[k]) &&
                 forall j :: 0 <= j < k ==> !IsTextIndex(listing[j]);
        assert k == i;
        return TextIndexOf(listing[i]), true;
      }
      i := i + 1;
    }
    return TextIndex("", {}), false;
  }

  /** The field names of an index model's keys. */
  function KeyNames(keys: seq<(string, string)>): set<string>
  {
    set i | 0 <= i < |keys| :: keys[i].0
  }

  lemma KeyNamesAppend(keys: seq<(string, string)>, key: (string, string))
    ensures KeyNames(keys + [key]) == KeyNames(keys) + {key.0}
  {
    var extended := keys + [key];
    forall x | x in KeyNames(extended)
      ensures x in KeyNames(keys) + {key.0}
    {
      var i :| 0 <= i < |extended| && extended[i].0 == x;
      if i < |keys| {
        assert extended[i] == keys[i];
      }
    }
    forall x | x in KeyNames(keys)
      ensures x in KeyNames(extended)
    {
      var i :| 0 <= i < |keys| && keys[i].0 == x;
      assert extended[i] == keys[i];
    }
    assert extended[|keys|] == key;
  }

  /** The keys are distinct field names, each indexed as "text". */
  predicate TextKeys(keys: seq<(string, string)>)
  {
    (forall i :: 0 <= i < |keys| ==> keys[i].1 == "text") &&
    (forall i, j :: 0 <= i < j < |keys| ==> keys[i].0 != keys[j].0)
  }

  /**
   * textIndexModel: one key per searchable field, each with value "text", in
   * the order the searchable set is walked.
   */
  method TextIndexModel(format: BoocatFormats.Format) returns (keys: seq<(string, string)>)
    ensures TextKeys(keys)
    ensures KeyNames(keys) == format.searchable
    ensures |keys| == |format.searchable|
  {
    keys := [];
    var rest := format.searchable;
    while rest != {}
      invariant rest <= format.searchable
      invariant TextKeys(keys)
      invariant KeyNames(keys) == format.searchable - rest
      invariant |keys| + |rest| == |format.searchable|
      decreases |rest|
    {
      var field :| field in rest;
      KeyNamesAppend(keys, (field, "text"));
      keys := keys + [(field, "text")];
      rest := rest - {field};
    }
  }

  /** The index document the server lists for a text index created from `keys` under `name`. */
  function CreatedIndexDoc(keys: seq<(string, string)>, name: string): (d: IndexDoc)
    ensures IsTextIndex(d) && TextIndexOf(d) == TextIndex(name, KeyNames(keys))
  {
    map["key" := Doc(map["_fts" := Str("text"), "_ftsx" := OtherValue]),
        "name" := Str(name),
        "weights" := Doc(map f | f in KeyNames(keys) :: OtherValue)]
  }

  /** A collection holds at most one text index, as MongoDB enforces. */
  predicate AtMostOneTextIndex(listing: seq<IndexDoc>)
  {
    forall i, j :: 0 <= i < |listing| && 0 <= j < |listing| && IsTextIndex(listing[i]) && IsTextIndex(listing[j]) ==> i == j
  }

  /** The listing without the indexes named `name`. */
  function Dropped(listing: seq<IndexDoc>, name: string): (r: seq<IndexDoc>)
    ensures forall d :: d in r <==> d in listing && !("name" in d && d["name"] == Str(name))
    ensures |r| <= |listing|
  {
    if listing == [] then []
    else
      var rest := Dropped(listing[1..], name);
      assert forall d :: d in listing <==> d == listing[0] || d in listing[1..];
      if "name" in listing[0] && listing[0]["name"] == Str(name) then rest else [listing[0]] + rest
  }

  /** What reconciliation does for one format. */
  datatype IndexAction = Keep | Recreate(dropName: string) | Create

  /**
   * The reconciliation decision: with no text index, create one; with one
   * whose fields differ from the searchable fields, drop and re-create it;
   * otherwise leave it.
   */
  function ReconcileAction(format: BoocatFormats.Format, found: Option<TextIndex>): (a: IndexAction)
    ensures found.None? ==> a == Create
    ensures found.Some? && found.value.fields == format.searchable ==> a == Keep
    ensures found.Some? && found.value.fields != format.searchable ==> a == Recreate(found.value.name)
  {
    match found
    case None => Create
    case Some(index) =>
      BoocatFormats.SearchableAreIffEqual(format, index.fields);
      if BoocatFormats.SearchableAre(format, index.fields) then Keep else Recreate(index.name)
  }

  /** The listing after an action, the new index being created from `keys` under `name`. */
  function AfterAction(listing: seq<IndexDoc>, action: IndexAction, keys: seq<(string, string)>, name: string): seq<IndexDoc>
  {
    match action
    case Keep => listing
    case Recreate(dropName) => Dropped(listing, dropName) + [CreatedIndexDoc(keys, name)]
    case Create => listing + [CreatedIndexDoc(keys, name)]
  }

  /** A listing whose first text index covers exactly the format's searchable fields. */
  predicate Reconciled(listing: seq<IndexDoc>, format: BoocatFormats.Format)
  {
    AtMostOneTextIndex(listing) && FirstTextIndex(listing).Some? && FirstTextIndex(listing).value.fields == format.searchable
  }

  /** Appending a text index to a listing without one makes it the only, and first, text index. */
  lemma AppendToNoTextIndex(listing: seq<IndexDoc>, keys: seq<(string, string)>, name: string)
    requires forall i :: 0 <= i < |listing| ==> !IsTextIndex(listing[i])
    ensures var after := listing + [CreatedIndexDoc(keys, name)];
            AtMostOneTextIndex(after) && FirstTextIndex(after) == Some(TextIndex(name, KeyNames(keys)))
  {
    var after := listing + [CreatedIndexDoc(keys, name)];
    assert forall i :: 0 <= i < |listing| ==> after[i] == listing[i];
    assert IsTextIndex(after[|listing|]);
    var i :| 0 <= i < |after| && IsTextIndex(after[i]) && FirstTextIndex(after).value == TextIndexOf(after[i]);
    assert i == |listing|;
  }

  /**
   * Reconciliation leaves the collection with the text index the format
   * needs, so a second pass over a server that lists back what was created
   * keeps it: reconciliation is idempotent.
   */
  lemma ReconcileIdempotent(format: BoocatFormats.Format, listing: seq<IndexDoc>, keys: seq<(string, string)>, name: string)
    requires AtMostOneTextIndex(listing)
    requires KeyNames(keys) == format.searchable
    ensures var after := AfterAction(listing, ReconcileAction(format, FirstTextIndex(listing)), keys, name);
            Reconciled(after, format) && ReconcileAction(format, FirstTextIndex(after)) == Keep &&
            AfterAction(after, Keep, keys, name) == after
  {
    var action := ReconcileAction(format, FirstTextIndex(listing));
    match action
    case Keep =>
    case Create =>
      AppendToNoTextIndex(listing, keys, name);
    case Recreate(dropName) =>
      var k :| 0 <= k < |listing| && IsTextIndex(listing[k]) && FirstTextIndex(listing).value == TextIndexOf(listing[k]);
      var dropped := Dropped(listing, dropName);
      forall i | 0 <= i < |dropped|
        ensures !IsTextIndex(dropped[i])
      {
        assert dropped[i] in listing;
        var j :| 0 <= j < |listing| && listing[j] == dropped[i];
      }
      AppendToNoTextIndex(dropped, keys, name);
  }

  /** The MongoDB server's index listings, one per collection. */
  class IndexServer {
    var indexes: map<string, seq<IndexDoc>>

    constructor (indexes: map<string, seq<IndexDoc>>)
      ensures this.indexes == indexes
    {
      this.indexes := indexes;
    }

    /** A collection the server has never seen lists no index. */
    function Listing(collection: string): (listing: seq<IndexDoc>)
      reads this
      ensures collection !in indexes ==> listing == []
      ensures collection in indexes ==> listing == indexes[collection]
    {
      if collection in indexes then indexes[collection] else []
    }

    /** Every collection holds at most one text index. */
    predicate Valid()
      reads this
    {
      forall c :: c in indexes ==> AtMostOneTextIndex(indexes[c])
    }

    /** Indexes().DropOne: removes the index of that name from one collection. */
    method DropOne(collection: string, name: string)
      modifies this
      ensures indexes == old(indexes)[collection := Dropped(old(Listing(collection)), name)]
    {
      indexes := indexes[collection := Dropped(Listing(collection), name)];
    }

    /** Indexes().CreateOne: adds a text index built from `keys` to one collection. */
    method CreateOne(collection: string, keys: seq<(string, string)>, name: string)
      modifies this
      ensures indexes == old(indexes)[collection := old(Listing(collection)) + [CreatedIndexDoc(keys, name)]]
    {
      indexes := indexes[collection := Listing(collection) + [CreatedIndexDoc(keys, name)]];
    }
  }

  /**
   * The collections of every format after reconciliation: each format's
   * collection is named after it, and its listing has been reconciled with
   * some format of that name.
   */
  ghost predicate Initialized(server: IndexServer, formats: map<string, BoocatFormats.Format>, done: set<string>,
                              collections: map<string, string>)
    reads server
  {
    (forall k :: k in done && k in formats ==> formats[k].name in collections) &&
    (forall n :: n in collections ==>
       (collections[n] == n &&
        exists k :: k in done && k in formats && formats[k].name == n && Reconciled(server.Listing(n), formats[k])))
  }

  /**
   * The body of the reconciliation loop for one format: find the text index
   * of the format's collection, and create, re-create or keep it. The name
   * the server gives a created index is `createdName` applied to the
   * collection. Only that collection's listing changes.
   */
  method ReconcileFormat(server: IndexServer, format: BoocatFormats.Format, createdName: string -> string)
    requires server.Valid()
    modifies server
    ensures server.Valid()
    ensures Reconciled(server.Listing(format.name), format)
    ensures forall c :: c != format.name ==> server.Listing(c) == old(server.Listing(c))
  {
    var name := format.name;
    var before := server.Listing(name);
    var index, ok := FindTextIndex(before);
    var keys := TextIndexModel(format);
    ghost var action := ReconcileAction(format, FirstTextIndex(before));
    BoocatFormats.SearchableAreIffEqual(format, index.fields);
    if ok {
      if !BoocatFormats.SearchableAre(format, index.fields) {
        assert action == Recreate(index.name);
        server.DropOne(name, index.name);
        server.CreateOne(name, keys, createdName(name));
      } else {
        assert action == Keep;
      }
    } else {
      assert action == Create;
      server.CreateOne(name, keys, createdName(name));
    }
    assert server.Listing(name) == AfterAction(before, action, keys, createdName(name));
    ReconcileIdempotent(format, before, keys, createdName(name));
  }

  /**
   * The reconciliation loop of InitializeCollections (and of Initialize in
   * server/database): every format, in map order, gets its collection,
   * named after the format, and has that collection's text index reconciled.
   */
  method InitializeCollections(server: IndexServer, formats: map<string, BoocatFormats.Format>, createdName: string -> string)
    returns (collections: map<string, string>)
    requires server.Valid()
    modifies server
    ensures server.Valid()
    ensures Initialized(server, formats, formats.Keys, collections)
    ensures forall c :: c !in collections ==> server.Listing(c) == old(server.Listing(c))
  {
    collections := map[];
    var rest := formats.Keys;
    while rest != {}
      invariant rest <= formats.Keys
      invariant server.Valid()
      invariant Initialized(server, formats, formats.Keys - rest, collections)
      invariant forall c :: c !in collections ==> server.Listing(c) == old(server.Listing(c))
      decreases |rest|
    {
      var k :| k in rest;
      var format := formats[k];
      ghost var done := formats.Keys - rest;
      label LoopStart:
      ReconcileFormat(server, format, createdName);
      collections := collections[format.name := format.name];
      rest := rest - {k};
      forall n | n in collections
        ensures collections[n] == n &&
                exists k' :: k' in formats.Keys - rest && k' in formats && formats[k'].name == n &&
                             Reconciled(server.Listing(n), formats[k'])
      {
        if n != format.name {
          var k' :| k' in done && k' in formats && formats[k'].name == n && Reconciled(old@LoopStart(server.Listing(n)), formats[k']);
        }
      }
    }
  }

  /** A call from an adapter to a collection of the MongoDB driver. */
  datatype DriverCall =
    | InsertOne(collection: string, document: Record)
    | ReplaceOne(collection: string, id: string, replacement: Record)
    | FindOne(collection: string, id: string)
    | FindAll(collection: string)
    | FindText(collection: string, search: string)

  /** What FindOne(...).Decode reports: the document, no document, or another error. */
  datatype FindReply<E> = Found(document: Record) | NoDocuments | FindFailed(err: E)

  /** What ReplaceOne reports: how many documents matched, and its error. */
  datatype ReplaceReply<E> = ReplaceReply(matchedCount: int, err: Option<E>)

  /** splitID: the "id" value ("" when absent) and every other field, unchanged. */
  function SplitID(record: Record): (r: (string, Record))
    ensures r.0 == Lookup(record, IdKey)
    ensures IdKey !in r.1 && r.1.Keys == record.Keys - {IdKey}
    ensures forall k :: k in r.1 ==> r.1[k] == record[k]
  {
    (Lookup(record, IdKey), map name | name in record && name != IdKey :: record[name])
  }

  /** Putting the id back into what splitID separated gives the record again. */
  lemma SplitIDJoin(record: Record)
    requires IdKey in record
    ensures SplitID(record).1[IdKey := SplitID(record).0] == record
  {
  }

  /** documentToRecord: "_id" becomes "id"; a document without "_id" is kept as it is. */
  function DocumentToRecord(doc: Record): (r: Record)
    ensures "_id" !in doc ==> r == doc
    ensures "_id" in doc ==> "_id" !in r && IdKey in r && r[IdKey] == doc["_id"] &&
                             r.Keys == doc.Keys - {"_id"} + {IdKey} &&
                             forall k :: k in r && k != IdKey ==> r[k] == doc[k]
  {
    if "_id" in doc then (doc - {"_id"})[IdKey := doc["_id"]] else doc
  }

  /**
   * A stored document without an "id" field of its own converts to a record
   * from which splitID recovers the document's "_id" and its other fields.
   */
  lemma SplitConvertedDocument(doc: Record)
    requires "_id" in doc && IdKey !in doc
    ensures SplitID(DocumentToRecord(doc)) == (doc["_id"], doc - {"_id"})
  {
    var r := DocumentToRecord(doc);
    var split := SplitID(r);
    assert split.0 == doc["_id"];
    assert split.1.Keys == (doc - {"_id"}).Keys;
    assert forall k :: k in split.1 ==> split.1[k] == (doc - {"_id"})[k];
    assert split.1 == doc - {"_id"};
  }

  /** documentsToRecords: one record per document, in order. */
  method DocumentsToRecords(docs: seq<Record>) returns (records: seq<Record>)
    ensures |records| == |docs|
    ensures forall i :: 0 <= i < |docs| ==> records[i] == DocumentToRecord(docs[i])
  {
    records := [];
    for i := 0 to |docs|
      invariant |records| == i
      invariant forall j :: 0 <= j < i ==> records[j] == DocumentToRecord(docs[j])
    {
      records := records + [DocumentToRecord(docs[i])];
    }
  }
}
