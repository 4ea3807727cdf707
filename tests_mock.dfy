/**
 * The in-memory database of the HTTP-level tests (tests/mockdb.go): one
 * record set per format, each with its own id counter. Ids are the set's
 * name followed by the counter's decimal value. Errors are plain messages.
 * Its `matchesSearch` is the same code as in boocat/boocat_test.go and is
 * BoocatMock.MatchesSearch.
 */
module TestsMock {
  import opened Results
  import opened GoStd
  import BoocatMock

  /** The id a record set with this name gives its `n`-th record. */
  function IdFor(name: string, n: nat): string
  {
    name + Itoa(n)
  }

  /** Two counter values give the same id only when they are equal. */
  lemma IdForInjective(name: string, a: nat, b: nat)
    ensures IdFor(name, a) == IdFor(name, b) ==> a == b
  {
    if IdFor(name, a) == IdFor(name, b) {
      assert Itoa(a) == IdFor(name, a)[|name|..];
      assert Itoa(b) == IdFor(name, b)[|name|..];
      ItoaInjective(a, b);
    }
  }

  /** Every stored record holds its own key under "id". */
  ghost predicate KeyedById(records: map<string, Record>)
  {
    forall id :: id in records ==> IdKey in records[id] && records[id][IdKey] == id
  }

  /** A listing of a record map: every entry is stored under its id, and no id repeats. */
  ghost predicate ListsOnce(s: seq<Record>, records: map<string, Record>)
  {
    (forall i :: 0 <= i < |s| ==> IdKey in s[i] && s[i][IdKey] in records && records[s[i][IdKey]] == s[i]) &&
    (forall i, j :: 0 <= i < j < |s| ==> s[i][IdKey] != s[j][IdKey])
  }

  function IdsOf(s: seq<Record>): set<string>
    requires forall i :: 0 <= i < |s| ==> IdKey in s[i]
  {
    set i | 0 <= i < |s| :: s[i][IdKey]
  }

  /** A listing without repeated ids has as many ids as entries. */
  lemma {:induction false} IdsOfSize(s: seq<Record>)
    requires forall i :: 0 <= i < |s| ==> IdKey in s[i]
    requires forall i, j :: 0 <= i < j < |s| ==> s[i][IdKey] != s[j][IdKey]
    ensures |IdsOf(s)| == |s|
  {
    if s != [] {
      var n := |s| - 1;
      IdsOfSize(s[..n]);
      assert IdsOf(s) == IdsOf(s[..n]) + {s[n][IdKey]};
      assert s[n][IdKey] !in IdsOf(s[..n]);
    }
  }

  /** A listing as long as the map names every stored record. */
  lemma ListingCoversAll(s: seq<Record>, records: map<string, Record>)
    requires ListsOnce(s, records) && |s| == |records|
    ensures IdsOf(s) == records.Keys
    ensures forall id :: id in records ==> exists i :: 0 <= i < |s| && s[i] == records[id]
  {
    IdsOfSize(s);
    SubsetOfSameSize(IdsOf(s), records.Keys);
    forall id | id in records
      ensures exists i :: 0 <= i < |s| && s[i] == records[id]
    {
      assert id in IdsOf(s);
      var i :| 0 <= i < |s| && s[i][IdKey] == id;
      assert s[i] == records[id];
    }
  }

  /** `s` lists a record stored under `id`. */
  ghost predicate Listed(s: seq<Record>, id: string)
  {
    exists i :: 0 <= i < |s| && IdKey in s[i] && s[i][IdKey] == id
  }

  /**
   * The state of a search over `records` with `rest` still to visit: `s`
   * lists, once each, exactly the visited records that match.
   */
  ghost predicate SearchProgress(s: seq<Record>, records: map<string, Record>, rest: set<string>, search: string)
  {
    ListsOnce(s, records) &&
    (forall i :: 0 <= i < |s| ==> s[i][IdKey] !in rest && BoocatMock.MatchesSearch(s[i], search)) &&
    (forall id :: id in records && id !in rest && BoocatMock.MatchesSearch(records[id], search) ==> Listed(s, id))
  }

  /** Visiting one more stored record, and listing it when it matches, keeps the search's state. */
  lemma SearchStep(s: seq<Record>, records: map<string, Record>, rest: set<string>, search: string, id: string)
    requires KeyedById(records) && rest <= records.Keys && id in rest
    requires SearchProgress(s, records, rest, search)
    ensures BoocatMock.MatchesSearch(records[id], search) ==>
              SearchProgress(s + [records[id]], records, rest - {id}, search)
    ensures !BoocatMock.MatchesSearch(records[id], search) ==>
              SearchProgress(s, records, rest - {id}, search)
  {
    var t := if BoocatMock.MatchesSearch(records[id], search) then s + [records[id]] else s;
    forall other | other in records && other !in rest - {id} && BoocatMock.MatchesSearch(records[other], search)
      ensures Listed(t, other)
    {
      if other == id {
        assert t[|t| - 1][IdKey] == id;
      } else {
        var i :| 0 <= i < |s| && IdKey in s[i] && s[i][IdKey] == other;
        assert t[i] == s[i];
      }
    }
  }

  class RecordSet {
    var name: string
    var lastIDNumber: nat
    var records: map<string, Record>

    constructor (name: string)
      ensures this.name == name && lastIDNumber == 0 && records == map[]
    {
      this.name := name;
      lastIDNumber := 0;
      records := map[];
    }

    /** lastID */
    function LastID(): (id: string)
      reads this
    {
      IdFor(name, lastIDNumber)
    }

    /** nextID: advance the counter and give the id for its new value. */
    method NextID() returns (id: string)
      modifies this
      ensures lastIDNumber == old(lastIDNumber) + 1
      ensures id == IdFor(name, lastIDNumber) && id == LastID()
      ensures name == old(name) && records == old(records)
      ensures forall k :: 0 <= k <= old(lastIDNumber) ==> id != IdFor(name, k)
    {
      lastIDNumber := lastIDNumber + 1;
      id := LastID();
      forall k | 0 <= k <= old(lastIDNumber)
        ensures id != IdFor(name, k)
      {
        IdForInjective(name, lastIDNumber, k);
      }
    }
  }

  class MockDB {
    var recordSets: map<string, RecordSet>

    ghost predicate Valid()
      reads this, recordSets.Values
    {
      (forall f, g :: f in recordSets && g in recordSets && f != g ==> recordSets[f] != recordSets[g]) &&
      (forall f :: f in recordSets ==> KeyedById(recordSets[f].records))
    }

    /** NewDB: empty "author" and "book" sets with their counters at zero. */
    constructor NewDB()
      ensures Valid()
      ensures recordSets.Keys == {"author", "book"}
      ensures fresh(recordSets["author"]) && fresh(recordSets["book"])
      ensures forall f :: f in recordSets ==>
                recordSets[f].name == f && recordSets[f].lastIDNumber == 0 && recordSets[f].records == map[]
    {
      var author := new RecordSet("author");
      var book := new RecordSet("book");
      recordSets := map["author" := author, "book" := book];
    }

    /**
     * AddRecord: an unknown format is refused first, then a record that
     * already has an id. Otherwise the set's next id is written into the
     * caller's record (`written` is that record afterwards), which is
     * stored under the id.
     */
    method AddRecord(formatName: string, record: Record) returns (r: Result<string, string>, written: Record)
      requires Valid()
      modifies recordSets.Values
      ensures Valid()
      ensures formatName !in recordSets ==> r == Err("format not found") && written == record
      ensures formatName in recordSets && IdKey in record ==> r == Err("new record cannot have id") && written == record
      ensures formatName in recordSets && IdKey !in record ==>
                var rs := recordSets[formatName];
                rs.lastIDNumber == old(rs.lastIDNumber) + 1 &&
                r == Ok(IdFor(rs.name, rs.lastIDNumber)) &&
                written == record[IdKey := r.value] &&
                rs.records == old(rs.records)[r.value := written] &&
                rs.name == old(rs.name) &&
                LastID(formatName) == r.value
      ensures r.Err? ==> forall f :: f in recordSets ==> unchanged(recordSets[f])
      ensures forall f :: f in recordSets && f != formatName ==> unchanged(recordSets[f])
    {
      if formatName !in recordSets {
        return Err("format not found"), record;
      }
      var rs := recordSets[formatName];
      if IdKey in record {
        return Err("new record cannot have id"), record;
      }
      var id := rs.NextID();
      written := record[IdKey := id];
      rs.records := rs.records[id := written];
      r := Ok(id);
    }

    /**
     * UpdateRecord: an unknown format is refused first, then a record
     * without an id; otherwise the record is stored under its id, whether
     * or not a record with that id existed.
     */
    method UpdateRecord(formatName: string, record: Record) returns (err: Option<string>)
      requires Valid()
      modifies recordSets.Values
      ensures Valid()
      ensures formatName !in recordSets ==> err == Some("format not found")
      ensures formatName in recordSets && IdKey !in record ==> err == Some("record doesn't have id")
      ensures formatName in recordSets && IdKey in record ==>
                err == None &&
                recordSets[formatName].records == old(recordSets[formatName].records)[record[IdKey] := record] &&
                recordSets[formatName].lastIDNumber == old(recordSets[formatName].lastIDNumber) &&
                recordSets[formatName].name == old(recordSets[formatName].name)
      ensures err.Some? ==> forall f :: f in recordSets ==> unchanged(recordSets[f])
      ensures forall f :: f in recordSets && f != formatName ==> unchanged(recordSets[f])
    {
      if formatName !in recordSets {
        return Some("format not found");
      }
      var rs := recordSets[formatName];
      if IdKey !in record {
        return Some("record doesn't have id");
      }
      rs.records := rs.records[record[IdKey] := record];
      err := None;
    }

    /** GetRecord: fails exactly when the format or the id is unknown. */
    function GetRecord(formatName: string, id: string): (r: Result<Record, string>)
      reads this, recordSets.Values
      ensures r.Ok? <==> formatName in recordSets && id in recordSets[formatName].records
      ensures r.Ok? ==> r.value == recordSets[formatName].records[id]
      ensures formatName !in recordSets ==> r == Err("format not found")
      ensures formatName in recordSets && id !in recordSets[formatName].records ==> r == Err("unknown record " + id)
    {
      if formatName !in recordSets then Err("format not found")
      else if id in recordSets[formatName].records then Ok(recordSets[formatName].records[id])
      else Err("unknown record " + id)
    }

    /**
     * GetAllRecords: every record of the format once, in the map's
     * (unspecified) iteration order.
     */
    method GetAllRecords(formatName: string) returns (r: Result<seq<Record>, string>)
      requires Valid()
      ensures formatName !in recordSets ==> r == Err("format not found")
      ensures formatName in recordSets ==>
                r.Ok? && |r.value| == |recordSets[formatName].records| &&
                ListsOnce(r.value, recordSets[formatName].records)
    {
      if formatName !in recordSets {
        return Err("format not found");
      }
      var records := recordSets[formatName].records;
      var slice: seq<Record> := [];
      var rest := records.Keys;
      while rest != {}
        invariant rest <= records.Keys
        invariant ListsOnce(slice, records)
        invariant forall i :: 0 <= i < |slice| ==> slice[i][IdKey] !in rest
        invariant |slice| + |rest| == |records|
        decreases |rest|
      {
        var id :| id in rest;
        assert IdKey in records[id] && records[id][IdKey] == id;
        slice := slice + [records[id]];
        rest := rest - {id};
      }
      r := Ok(slice);
    }

    /**
     * SearchRecord: once each, the records of the format that match the
     * term, and no others.
     */
    method SearchRecord(formatName: string, search: string) returns (r: Result<seq<Record>, string>)
      requires Valid()
      ensures formatName !in recordSets ==> r == Err("format not found")
      ensures formatName in recordSets ==>
                r.Ok? && SearchProgress(r.value, recordSets[formatName].records, {}, search)
    {
      if formatName !in recordSets {
        return Err("format not found");
      }
      var records := recordSets[formatName].records;
      var slice: seq<Record> := [];
      var rest := records.Keys;
      while rest != {}
        invariant rest <= records.Keys
        invariant SearchProgress(slice, records, rest, search)
        decreases |rest|
      {
        var id :| id in rest;
        SearchStep(slice, records, rest, search, id);
        if BoocatMock.MatchesSearch(records[id], search) {
          slice := slice + [records[id]];
        }
        rest := rest - {id};
      }
      r := Ok(slice);
    }

    /** ReferenceValidator: a value is a valid reference exactly when GetRecord finds it. */
    function ReferenceValidate(formatName: string, value: string): (ok: bool)
      reads this, recordSets.Values
      ensures ok <==> formatName in recordSets && value in recordSets[formatName].records
    {
      GetRecord(formatName, value).Ok?
    }

    /** LastID: the id of the format's most recent add, or "" for an unknown format. */
    function LastID(formatName: string): (id: string)
      reads this, recordSets.Values
      ensures formatName !in recordSets ==> id == ""
      ensures formatName in recordSets ==> id == IdFor(recordSets[formatName].name, recordSets[formatName].lastIDNumber)
    {
      if formatName !in recordSets then "" else recordSets[formatName].LastID()
    }
  }
}
