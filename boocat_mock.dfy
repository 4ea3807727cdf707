/**
 * The in-memory database the boocat package's tests run against
 * (boocat/boocat_test.go): one slice of records per format, where a
 * record's id is the decimal form of its position in the slice. Also the
 * search predicate and the year validator those tests use.
 */
module BoocatMock {
  import opened Results
  import opened GoStd
  import opened BoocatErrors

  /** The error for an id that strconv.Atoi rejects (Go quotes the id with %q and adds strconv's own text). */
  function ConvertError(id: string): Error
  {
    Plain("couldn't convert id \"" + id + "\" to integer")
  }

  /** GetRecord on a value of the store. */
  function Get(records: map<string, seq<Record>>, formatName: string, id: string): (r: Result<Record, Error>)
    ensures r.Ok? <==> formatName in records && Atoi(id).Some? && 0 <= Atoi(id).value < |records[formatName]|
    ensures r.Ok? ==> r.value == records[formatName][Atoi(id).value]
    ensures formatName !in records ==> r == Err(FormatNotFound)
    ensures formatName in records && Atoi(id).None? ==> r == Err(ConvertError(id))
    ensures formatName in records && Atoi(id).Some? && !(0 <= Atoi(id).value < |records[formatName]|) ==>
              r == Err(RecordNotFound)
  {
    if formatName !in records then Err(FormatNotFound)
    else
      var i := Atoi(id);
      if i.None? then Err(ConvertError(id))
      else if i.value < 0 || i.value >= |records[formatName]| then Err(RecordNotFound)
      else Ok(records[formatName][i.value])
  }

  /** Every stored record carries an id that parses to its own position. */
  ghost predicate IdsArePositions(records: map<string, seq<Record>>)
  {
    forall f, i :: PositionId(records, f, i)
  }

  ghost predicate PositionId(records: map<string, seq<Record>>, f: string, i: int)
  {
    f in records && 0 <= i < |records[f]| ==> IdKey in records[f][i] && Atoi(records[f][i][IdKey]) == Some(i)
  }

  /** In such a store every record is found again under its own id. */
  lemma GetByOwnId(records: map<string, seq<Record>>, f: string, i: int)
    requires IdsArePositions(records)
    requires f in records && 0 <= i < |records[f]|
    ensures IdKey in records[f][i] && Get(records, f, records[f][i][IdKey]) == Ok(records[f][i])
  {
    assert PositionId(records, f, i);
  }

  /** Appending a record whose id parses to the new last position keeps ids as positions. */
  lemma AppendKeepsIds(records: map<string, seq<Record>>, f: string, rec: Record)
    requires IdsArePositions(records) && f in records
    requires IdKey in rec && Atoi(rec[IdKey]) == Some(|records[f]|)
    ensures IdsArePositions(records[f := records[f] + [rec]])
  {
    var after := records[f := records[f] + [rec]];
    forall g, j
      ensures PositionId(after, g, j)
    {
      if g in after && 0 <= j < |after[g]| && (g != f || j != |records[f]|) {
        assert after[g][j] == records[g][j];
        assert PositionId(records, g, j);
      }
    }
  }

  /** After a record is appended, the decimal form of its position finds it. */
  lemma GetAfterAppend(records: map<string, seq<Record>>, f: string, rec: Record)
    requires f in records && |records[f]| <= MaxInt64
    ensures Get(records[f := records[f] + [rec]], f, Itoa(|records[f]|)) == Ok(rec)
  {
    AtoiItoa(|records[f]|);
  }

  /** Replacing slot `i` by a record whose id parses to `i` keeps ids as positions. */
  lemma ReplaceKeepsIds(records: map<string, seq<Record>>, f: string, i: int, rec: Record)
    requires IdsArePositions(records) && f in records && 0 <= i < |records[f]|
    requires IdKey in rec && Atoi(rec[IdKey]) == Some(i)
    ensures IdsArePositions(records[f := records[f][i := rec]])
  {
    var after := records[f := records[f][i := rec]];
    forall g, j
      ensures PositionId(after, g, j)
    {
      if g in after && 0 <= j < |after[g]| && (g != f || j != i) {
        assert after[g][j] == records[g][j];
        assert PositionId(records, g, j);
      }
    }
  }

  /** matchesSearch: some value of the record contains the term, ignoring ASCII case. */
  predicate MatchesSearch(record: Record, search: string)
  {
    exists name :: name in record && Contains(ToLower(record[name]), ToLower(search))
  }

  /** The search is case-insensitive: lower-casing the term first changes nothing. */
  lemma MatchesSearchIgnoresCase(record: Record, search: string)
    ensures MatchesSearch(record, ToLower(search)) <==> MatchesSearch(record, search)
  {
    ToLowerIdempotent(search);
  }

  /** The empty term occurs in every value, so it matches every record with a field. */
  lemma EmptySearchMatchesAny(record: Record)
    requires |record| > 0
    ensures MatchesSearch(record, "")
  {
    var name :| name in record;
    assert OccursAt(ToLower(record[name]), ToLower(""), 0);
  }

  /** The records of `s` that match, in their order. */
  function Filter(s: seq<Record>, search: string): (r: seq<Record>)
    ensures |r| <= |s|
    ensures forall x :: x in r <==> x in s && MatchesSearch(x, search)
  {
    if s == [] then []
    else
      var rest := Filter(s[..|s| - 1], search);
      assert s == s[..|s| - 1] + [s[|s| - 1]];
      if MatchesSearch(s[|s| - 1], search) then rest + [s[|s| - 1]] else rest
  }

  class MockDB {
    var records: map<string, seq<Record>>

    /** Ids are positions, and no slice is longer than a Go int can count. */
    ghost predicate Valid()
      reads this
    {
      IdsArePositions(records) && forall f :: f in records ==> |records[f]| <= MaxInt64
    }

    /** NewDB: empty slices for "author" and "book". */
    constructor NewDB()
      ensures records == map["author" := [], "book" := []]
      ensures Valid()
    {
      records := map["author" := [], "book" := []];
    }

    /**
     * AddRecord: a record that already has an id is refused before the
     * format is looked up. Otherwise the id is the decimal form of the
     * slice's length; it is written into the caller's record, which is
     * appended. `written` is the caller's record after the call.
     */
    method AddRecord(formatName: string, record: Record) returns (r: Result<string, Error>, written: Record)
      requires Valid()
      requires formatName in records ==> |records[formatName]| < MaxInt64
      modifies this
      ensures Valid()
      ensures IdKey in record ==> r == Err(RecordHasID) && written == record && records == old(records)
      ensures IdKey !in record && formatName !in old(records) ==>
                r == Err(FormatNotFound) && written == record && records == old(records)
      ensures IdKey !in record && formatName in old(records) ==>
                r == Ok(Itoa(|old(records)[formatName]|)) && written == record[IdKey := r.value] &&
                records == old(records)[formatName := old(records)[formatName] + [written]]
      ensures r.Ok? ==> Get(records, formatName, r.value) == Ok(written)
    {
      if IdKey in record {
        return Err(RecordHasID), record;
      }
      if formatName !in records {
        return Err(FormatNotFound), record;
      }
      var n := |records[formatName]|;
      var id := Itoa(n);
      written := record[IdKey := id];
      AtoiItoa(n);
      GetAfterAppend(records, formatName, written);
      AppendKeepsIds(records, formatName, written);
      records := records[formatName := records[formatName] + [written]];
      r := Ok(id);
    }

    /**
     * UpdateRecord: the id must be present and the format known; the id
     * must parse as an integer naming a slot of the slice, whose record is
     * then replaced; the slice keeps its length.
     */
    method UpdateRecord(formatName: string, record: Record) returns (err: Option<Error>)
      requires Valid()
      modifies this
      ensures Valid()
      ensures IdKey !in record ==> err == Some(RecordDoesntHaveID) && records == old(records)
      ensures IdKey in record && formatName !in old(records) ==> err == Some(FormatNotFound) && records == old(records)
      ensures IdKey in record && formatName in old(records) && Atoi(record[IdKey]).None? ==>
                err == Some(ConvertError(record[IdKey])) && records == old(records)
      ensures IdKey in record && formatName in old(records) && Atoi(record[IdKey]).Some? &&
              !(0 <= Atoi(record[IdKey]).value < |old(records)[formatName]|) ==>
                err == Some(RecordNotFound) && records == old(records)
      ensures err.None? ==>
                IdKey in record && formatName in old(records) && Atoi(record[IdKey]).Some? &&
                0 <= Atoi(record[IdKey]).value < |old(records)[formatName]| &&
                records == old(records)[formatName := old(records)[formatName][Atoi(record[IdKey]).value := record]]
      ensures err.None? ==> Get(records, formatName, record[IdKey]) == Ok(record)
    {
      if IdKey !in record {
        return Some(RecordDoesntHaveID);
      }
      if formatName !in records {
        return Some(FormatNotFound);
      }
      var slice := records[formatName];
      var i := Atoi(record[IdKey]);
      if i.None? {
        return Some(ConvertError(record[IdKey]));
      }
      if i.value < 0 || i.value >= |slice| {
        return Some(RecordNotFound);
      }
      ReplaceKeepsIds(records, formatName, i.value, record);
      records := records[formatName := slice[i.value := record]];
      err := None;
    }

    /** GetRecord */
    function GetRecord(formatName: string, id: string): (r: Result<Record, Error>)
      reads this
    {
      Get(records, formatName, id)
    }

    /** GetAllRecords: the format's whole slice, in order. */
    function GetAllRecords(formatName: string): (r: Result<seq<Record>, Error>)
      reads this
      ensures formatName in records <==> r.Ok?
      ensures r.Ok? ==> r.value == records[formatName]
      ensures r.Err? ==> r.error == FormatNotFound
    {
      if formatName in records then Ok(records[formatName]) else Err(FormatNotFound)
    }

    /** SearchRecord: the records of the format that match the term, in stored order. */
    method SearchRecord(formatName: string, search: string) returns (r: Result<seq<Record>, Error>)
      ensures formatName !in records ==> r == Err(FormatNotFound)
      ensures formatName in records ==> r == Ok(Filter(records[formatName], search))
    {
      if formatName !in records {
        return Err(FormatNotFound);
      }
      var slice := records[formatName];
      var result: seq<Record> := [];
      var i := 0;
      while i < |slice|
        invariant 0 <= i <= |slice|
        invariant result == Filter(slice[..i], search)
      {
        assert slice[..i + 1][..i] == slice[..i];
        if MatchesSearch(slice[i], search) {
          result := result + [slice[i]];
        }
        i := i + 1;
      }
      assert slice[..|slice|] == slice;
      r := Ok(result);
    }

    /** ReferenceValidator: "" when the referenced record exists, else the lookup error's message. */
    function ReferenceValidate(formatName: string, value: string): (reason: string)
      reads this
      ensures reason == "" <==> GetRecord(formatName, value).Ok?
    {
      var r := GetRecord(formatName, value);
      if r.Ok? then ""
      else
        assert r.error in {FormatNotFound, RecordNotFound, ConvertError(value)};
        Message(r.error)
    }
  }

  /**
   * validateYear of the tests: "" for an integer of at least 0, "not a valid
   * year number" for what is not an integer, and "Invalid year" for a
   * negative one.
   */
  function ValidateYear(value: string): (reason: string)
    ensures reason == "" <==> Atoi(value).Some? && Atoi(value).value >= 0
    ensures Atoi(value).None? ==> reason == "not a valid year number"
    ensures Atoi(value).Some? && Atoi(value).value < 0 ==> reason == "Invalid year"
  {
    var year := Atoi(value);
    if year.None? then "not a valid year number"
    else if year.value < 0 then "Invalid year"
    else ""
  }
}
