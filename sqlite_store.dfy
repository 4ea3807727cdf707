/**
 * The SQLite adapter of the boocat package (boocat/sqlite/sqlite.go) over
 * its table of rows. Writes run in a transaction: the table changes only
 * when the transaction commits, and a transaction that returns before its
 * commit is rolled back.
 *
 * What the driver does is decided by the table where the table decides it
 * (whether an id is in use, how many rows an UPDATE affects, what a SELECT
 * reads) and is a parameter otherwise: the random ids drawn, the answer to
 * the multi-row INSERT, and the outcomes of Commit and Rollback.
 */
module SqliteStore {
  import opened Results
  import opened GoStd
  import opened BoocatErrors
  import opened SqliteRows

  const RecordIDSize: nat := 20
  const NewRecordIDMaxAttempts: nat := 5

  /** The 62 symbols randomString draws from. */
  const IDSymbols: string := "1234567890abcdefghijklmnopqrstuvwxyzABCDEFGHIJKLMNOPQRSTUVWXYZ"

  /** A string randomString(recordIDSize) can return. */
  predicate IsRandomID(s: string)
  {
    |s| == RecordIDSize && forall i :: 0 <= i < |s| ==> s[i] in IDSymbols
  }

  /** What the multi-row INSERT reports: the number of rows affected, or which step failed. */
  datatype ExecReply = Affected(rows: int) | ExecFailed(err: Error) | RowsAffectedFailed(err: Error)

  const RollbackPrefix: string := "rolling transaction back: "

  /**
   * inTransaction's deferred function, as written. `fnErr` is what the
   * transaction's function returned, `commitCalled` whether it called
   * Commit, and `rollbackErr` what Rollback returns for a transaction that
   * is still open. After a Commit, whether it succeeded or not,
   * database/sql's Rollback returns ErrTxDone; and a failed Rollback is
   * reported by wrapping `err`, the nil error of BeginTx, which fmt prints
   * as "%!w(<nil>)".
   */
  function InTransactionAsWritten(fnErr: Option<Error>, commitCalled: bool, rollbackErr: Option<Error>): (ferr: Option<Error>)
    ensures commitCalled ==> ferr == Some(Plain(RollbackPrefix + "%!w(<nil>)"))
    ensures !commitCalled && rollbackErr.None? ==> ferr == fnErr
  {
    var rollbackFailed := commitCalled || rollbackErr.Some?;
    if rollbackFailed then Some(Plain(RollbackPrefix + "%!w(<nil>)")) else fnErr
  }

  /** As written, a transaction that commits successfully is reported as failed. */
  lemma CommittedTransactionReportsError(rollbackErr: Option<Error>)
    ensures InTransactionAsWritten(None, true, rollbackErr).Some?
    ensures Message(InTransactionAsWritten(None, true, rollbackErr).value) == "rolling transaction back: %!w(<nil>)"
  {
  }

  /**
   * inTransaction as intended: the function's own result, except that a
   * failed Rollback of a transaction that was never committed is reported,
   * wrapping the Rollback's error. The ErrTxDone of a Rollback after Commit
   * is not a failure.
   */
  function InTransaction(fnErr: Option<Error>, commitCalled: bool, rollbackErr: Option<Error>): (ferr: Option<Error>)
    ensures commitCalled ==> ferr == fnErr
    ensures !commitCalled && rollbackErr.Some? ==> ferr == Some(Wrapping(RollbackPrefix, rollbackErr.value))
    ensures !commitCalled && rollbackErr.None? ==> ferr == fnErr
  {
    if !commitCalled && rollbackErr.Some? then Some(Wrapping(RollbackPrefix, rollbackErr.value)) else fnErr
  }

  /**
   * The intended transaction reports success exactly when its function
   * does and, if it never committed, its Rollback did too; a failed
   * Rollback keeps the Rollback's error reachable through Unwrap.
   */
  lemma InTransactionSucceedsIffFunctionDoes(fnErr: Option<Error>, commitCalled: bool, rollbackErr: Option<Error>)
    ensures InTransaction(fnErr, commitCalled, rollbackErr).None? <==>
              fnErr.None? && (commitCalled || rollbackErr.None?)
    ensures !commitCalled && rollbackErr.Some? ==>
              Unwrap(InTransaction(fnErr, commitCalled, rollbackErr).value) == rollbackErr
  {
  }

  /** The fmt.Errorf("...: %w", err) wrappers of the adapter. */
  function Wrap(prefix: string, e: Error): (r: Error)
    ensures Unwrap(r) == Some(e) && Message(r) == prefix + Message(e)
  {
    Wrapping(prefix, e)
  }

  /** A failure of the driver while running one UPDATE statement. */
  datatype StatementFault = ExecFault(err: Error) | RowsAffectedFault(err: Error)

  /**
   * The UPDATE of `field` of record `id` fails: the driver reports a fault
   * for it, or it does not affect exactly one row.
   */
  predicate UpdateFails(table: seq<Row>, formatName: string, id: string, field: string,
                        faults: map<string, StatementFault>)
  {
    field in faults || Count(table, formatName, id, field) != 1
  }

  /** The error UpdateRecord's transaction returns for a failing UPDATE of `field`. */
  function UpdateError(table: seq<Row>, formatName: string, id: string, field: string,
                       faults: map<string, StatementFault>): Error
  {
    if field in faults then
      match faults[field]
      case ExecFault(e) => Wrap("executing statement: ", e)
      case RowsAffectedFault(e) => Wrap("getting affected rows after updating: ", e)
    else Plain("updated " + FormatInt(Count(table, formatName, id, field)) + " rows, should have been 1")
  }

  /** Every UPDATE of the record's fields succeeds. */
  predicate UpdatesApply(table: seq<Row>, formatName: string, id: string, fields: Record,
                         faults: map<string, StatementFault>)
  {
    forall field :: field in fields ==> !UpdateFails(table, formatName, id, field, faults)
  }

  /**
   * The loop of UpdateRecord's transaction: field by field, in map order,
   * run the UPDATE for that field of record `id` on the transaction's view
   * of the table, and stop at the first field whose UPDATE fails. `faults`
   * holds the driver failures, by field.
   */
  method ApplyUpdates(table: seq<Row>, formatName: string, id: string, fields: Record,
                      faults: map<string, StatementFault>)
    returns (pending: seq<Row>, fnErr: Option<Error>)
    ensures fnErr.None? <==> UpdatesApply(table, formatName, id, fields, faults)
    ensures fnErr.None? ==> pending == Updated(table, formatName, id, fields)
    ensures fnErr.Some? ==>
              exists field :: field in fields && UpdateFails(table, formatName, id, field, faults) &&
                              fnErr.value == UpdateError(table, formatName, id, field, faults)
  {
    pending := table;
    fnErr := None;
    var applied: map<string, string> := map[];
    var rest := fields.Keys;
    UpdatedNothing(table, formatName, id);
    while rest != {}
      invariant rest <= fields.Keys
      invariant applied.Keys == fields.Keys - rest
      invariant forall field :: field in applied ==> applied[field] == fields[field]
      invariant forall field :: field in applied ==> !UpdateFails(table, formatName, id, field, faults)
      invariant pending == Updated(table, formatName, id, applied)
      decreases |rest|
    {
      var field :| field in rest;
      // The UPDATE runs on the transaction's view, which has the same rows as `table` up to values.
      SameKeysSameCount(table, pending, formatName, id, field);
      if field in faults || Count(pending, formatName, id, field) != 1 {
        assert field in fields && UpdateFails(table, formatName, id, field, faults);
        return pending, Some(UpdateError(table, formatName, id, field, faults));
      }
      UpdatedOneMore(table, formatName, id, applied, field, fields[field]);
      pending := Updated(pending, formatName, id, map[field := fields[field]]);
      applied := applied[field := fields[field]];
      rest := rest - {field};
    }
    assert applied == fields;
  }

  /** The driver's Scan of the row read in position `at` (from 0) fails with `err`. */
  datatype ScanFailure = ScanFailure(at: nat, err: Error)

  /** The Scan failure happens within the first `n` rows read. */
  predicate ScanFails(scan: Option<ScanFailure>, n: nat)
  {
    scan.Some? && scan.value.at < n
  }

  /**
   * newRecordID finds a free id: some draw is used by no row, every earlier
   * draw is in use, and no Scan up to that attempt fails.
   */
  predicate FreshIdFound(table: seq<Row>, draws: seq<string>, scan: Option<ScanFailure>)
  {
    exists i :: 0 <= i < |draws| && !IdInUse(table, draws[i]) &&
                (forall j :: 0 <= j < i ==> IdInUse(table, draws[j])) && !ScanFails(scan, i + 1)
  }

  /** GetAllRecords' second loop: each group, with its id added under "id", once, in map order. */
  method RecordsOfGroups(grouped: map<string, map<string, string>>) returns (records: seq<Record>)
    ensures |records| == |grouped|
    ensures forall i :: 0 <= i < |records| ==>
              IdKey in records[i] && records[i][IdKey] in grouped &&
              records[i] == grouped[records[i][IdKey]][IdKey := records[i][IdKey]]
    ensures forall i, j :: 0 <= i < j < |records| ==> records[i][IdKey] != records[j][IdKey]
    ensures forall id :: id in grouped ==> exists i :: 0 <= i < |records| && records[i][IdKey] == id
  {
    records := [];
    var rest := grouped.Keys;
    while rest != {}
      invariant rest <= grouped.Keys
      invariant |records| + |rest| == |grouped|
      invariant forall i :: 0 <= i < |records| ==>
                  (IdKey in records[i] && records[i][IdKey] in grouped && records[i][IdKey] !in rest &&
                   records[i] == grouped[records[i][IdKey]][IdKey := records[i][IdKey]])
      invariant forall i, j :: 0 <= i < j < |records| ==> records[i][IdKey] != records[j][IdKey]
      invariant forall id :: id in grouped && id !in rest ==> exists i :: 0 <= i < |records| && records[i][IdKey] == id
      decreases |rest|
    {
      var id :| id in rest;
      var record := grouped[id][IdKey := id];
      ghost var before := records;
      records := records + [record];
      rest := rest - {id};
      forall other | other in grouped && other !in rest
        ensures exists i :: 0 <= i < |records| && records[i][IdKey] == other
      {
        if other == id {
          assert records[|records| - 1][IdKey] == id;
        } else {
          var i :| 0 <= i < |before| && before[i][IdKey] == other;
          assert records[i] == before[i];
        }
      }
    }
  }

  class SqliteDB {
    /** The committed content of `field_values`. */
    var rows: seq<Row>

    constructor Open(rows: seq<Row>)
      ensures this.rows == rows
    {
      this.rows := rows;
    }

    /**
     * newRecordID: up to five random ids, the first one no row uses is
     * taken; when all five are in use the attempt fails. `scan` is a Scan
     * that fails, at the attempt it names, with an error other than
     * sql.ErrNoRows.
     */
    method NewRecordID(table: seq<Row>, draws: seq<string>, scan: Option<ScanFailure>) returns (r: Result<string, Error>)
      requires |draws| == NewRecordIDMaxAttempts
      ensures r.Ok? <==> FreshIdFound(table, draws, scan)
      ensures r.Ok? ==> exists i :: 0 <= i < |draws| && draws[i] == r.value && !IdInUse(table, r.value) &&
                                   forall j :: 0 <= j < i ==> IdInUse(table, draws[j])
      ensures r == Err(Plain("failed after 5 attempts")) <==>
                (forall i :: 0 <= i < |draws| ==> IdInUse(table, draws[i])) && !ScanFails(scan, |draws|)
      ensures r.Err? && r != Err(Plain("failed after 5 attempts")) ==>
                ScanFails(scan, |draws|) && r.error == Wrap("scanning row: ", scan.value.err) &&
                forall j :: 0 <= j < scan.value.at ==> IdInUse(table, draws[j])
    {
      for i := 0 to NewRecordIDMaxAttempts
        invariant forall j :: 0 <= j < i ==> IdInUse(table, draws[j])
        invariant !ScanFails(scan, i)
      {
        var newID := draws[i];
        if scan.Some? && scan.value.at == i {
          return Err(Wrap("scanning row: ", scan.value.err));
        }
        if !IdInUse(table, newID) {
          return Ok(newID);
        }
      }
      assert "failed after " + Itoa(NewRecordIDMaxAttempts) + " attempts" == "failed after 5 attempts";
      return Err(Plain("failed after " + Itoa(NewRecordIDMaxAttempts) + " attempts"));
    }

    /** The rows the INSERT statement lists, one per field of the record, in map order. */
    method InsertedRows(formatName: string, id: string, record: Record) returns (inserted: seq<Row>)
      ensures RowsOf(inserted, formatName, id, record)
    {
      inserted := [];
      var rest := record.Keys;
      while rest != {}
        invariant rest <= record.Keys
        invariant |inserted| + |rest| == |record|
        invariant forall i :: 0 <= i < |inserted| ==>
                    (inserted[i].format == formatName && inserted[i].recordID == id && inserted[i].field in record &&
                     inserted[i].field !in rest && inserted[i].value == record[inserted[i].field])
        invariant forall i, j :: 0 <= i < j < |inserted| ==> inserted[i].field != inserted[j].field
        decreases |rest|
      {
        var field :| field in rest;
        inserted := inserted + [Row(formatName, id, field, record[field])];
        rest := rest - {field};
      }
    }

    /**
     * AddRecord: a record that has an id is refused before any transaction.
     * Otherwise a fresh id is drawn, the record's rows are inserted under it,
     * the insert must affect as many rows as the record has fields, and the
     * transaction commits. The returned id is the named result `newID`,
     * which nothing assigns: it is always "". `storedID` is the id the rows
     * are stored under, the one the caller was evidently meant to get. `err` is the result with the
     * intended transaction (InTransaction); `errAsWritten` is what the
     * code as written returns (InTransactionAsWritten), which is an error
     * for every record without an id, a stored one included.
     */
    method AddRecord(formatName: string, record: Record, draws: seq<string>, scan: Option<ScanFailure>,
                     exec: ExecReply, commitErr: Option<Error>, rollbackErr: Option<Error>)
      returns (newID: string, storedID: string, err: Option<Error>, errAsWritten: Option<Error>)
      requires |draws| == NewRecordIDMaxAttempts && forall i :: 0 <= i < |draws| ==> IsRandomID(draws[i])
      // With no field the INSERT has no VALUES row, a statement SQLite refuses.
      requires record == map[] ==> exec.ExecFailed?
      modifies this
      ensures newID == ""
      ensures IdKey in record ==> err == Some(RecordHasID) && errAsWritten == err && rows == old(rows)
      ensures err.Some? ==> rows == old(rows)
      ensures err.None? <==>
                IdKey !in record && FreshIdFound(old(rows), draws, scan) && exec == Affected(|record|) && commitErr.None?
      ensures err.None? ==>
                |rows| == |old(rows)| + |record| && rows[..|old(rows)|] == old(rows) &&
                exists id :: id in draws && IsRandomID(id) && !IdInUse(old(rows), id) &&
                             RowsOf(rows[|old(rows)|..], formatName, id, record)
      ensures err.None? ==>
                storedID != newID && storedID in draws && IsRandomID(storedID) && !IdInUse(old(rows), storedID) &&
                RowsOf(rows[|old(rows)|..], formatName, storedID, record)
      ensures (IdKey !in record && FreshIdFound(old(rows), draws, scan) && exec == Affected(|record|) &&
               commitErr.Some?) ==>
                err == Some(Wrap("commiting transaction: ", commitErr.value))
      ensures IdKey !in record && (forall i :: 0 <= i < |draws| ==> IdInUse(old(rows), draws[i])) &&
              !ScanFails(scan, |draws|) ==>
                err == InTransaction(Some(Wrap("getting new record ID: ", Plain("failed after 5 attempts"))), false, rollbackErr)
      ensures IdKey !in record && FreshIdFound(old(rows), draws, scan) && exec.ExecFailed? ==>
                err == InTransaction(Some(Wrap("executing statement: ", exec.err)), false, rollbackErr)
      ensures IdKey !in record && FreshIdFound(old(rows), draws, scan) && exec.RowsAffectedFailed? ==>
                err == InTransaction(Some(Wrap("getting affected rows after inserting: ", exec.err)), false, rollbackErr)
      ensures (IdKey !in record && FreshIdFound(old(rows), draws, scan) && exec.Affected? &&
               exec.rows != |record|) ==>
                err == InTransaction(Some(Plain("inserted " + FormatInt(exec.rows) + " rows, should have been " + Itoa(|record|))),
                                     false, rollbackErr)
      ensures (IdKey !in record && !(FreshIdFound(old(rows), draws, scan) && exec == Affected(|record|)) &&
               rollbackErr.Some?) ==>
                err == Some(Wrapping(RollbackPrefix, rollbackErr.value))
      ensures IdKey !in record ==> errAsWritten.Some?
      ensures IdKey !in record && ((FreshIdFound(old(rows), draws, scan) && exec == Affected(|record|)) || rollbackErr.Some?) ==>
                errAsWritten == Some(Plain(RollbackPrefix + "%!w(<nil>)"))
      ensures (IdKey !in record && !(FreshIdFound(old(rows), draws, scan) && exec == Affected(|record|)) &&
               rollbackErr.None?) ==>
                errAsWritten == err
    {
      newID := "";
      storedID := "";
      if IdKey in record {
        return newID, storedID, Some(RecordHasID), Some(RecordHasID);
      }
      var fnErr: Option<Error>;
      var commitCalled := false;
      var id := NewRecordID(rows, draws, scan);
      if id.Err? {
        fnErr := Some(Wrap("getting new record ID: ", id.error));
      } else {
        storedID := id.value;
        var inserted := InsertedRows(formatName, id.value, record);
        match exec
        case ExecFailed(e) =>
          fnErr := Some(Wrap("executing statement: ", e));
        case RowsAffectedFailed(e) =>
          fnErr := Some(Wrap("getting affected rows after inserting: ", e));
        case Affected(n) =>
          if n != |record| {
            fnErr := Some(Plain("inserted " + FormatInt(n) + " rows, should have been " + Itoa(|record|)));
          } else {
            commitCalled := true;
            if commitErr.Some? {
              fnErr := Some(Wrap("commiting transaction: ", commitErr.value));
            } else {
              assert inserted == (rows + inserted)[|rows|..];
              rows := rows + inserted;
              fnErr := None;
            }
          }
      }
      err := InTransaction(fnErr, commitCalled, rollbackErr);
      errAsWritten := InTransactionAsWritten(fnErr, commitCalled, rollbackErr);
    }

    /**
     * UpdateRecord: a record without an id is refused. Otherwise "id" is
     * removed from the caller's map (`fields` is that map afterwards) and,
     * field by field in map order, the row of that field of the record is
     * updated; a field whose UPDATE fails aborts the transaction. When every
     * UPDATE succeeded, the transaction commits. `err` is the result with
     * the intended transaction, `errAsWritten` the one the code as written
     * returns.
     */
    method UpdateRecord(formatName: string, record: Record, faults: map<string, StatementFault>,
                        commitErr: Option<Error>, rollbackErr: Option<Error>)
      returns (err: Option<Error>, errAsWritten: Option<Error>, fields: Record)
      modifies this
      ensures IdKey !in record ==>
                err == Some(RecordDoesntHaveID) && errAsWritten == err && fields == record && rows == old(rows)
      ensures IdKey in record ==> fields == record - {IdKey}
      ensures err.Some? ==> rows == old(rows)
      ensures err.None? <==>
                IdKey in record && UpdatesApply(old(rows), formatName, record[IdKey], fields, faults) && commitErr.None?
      ensures err.None? ==> rows == Updated(old(rows), formatName, record[IdKey], fields)
      ensures (IdKey in record && UpdatesApply(old(rows), formatName, record[IdKey], fields, faults) &&
               commitErr.Some?) ==>
                err == Some(Wrap("commiting transaction: ", commitErr.value))
      ensures (IdKey in record && !UpdatesApply(old(rows), formatName, record[IdKey], fields, faults) &&
               rollbackErr.Some?) ==>
                err == Some(Wrapping(RollbackPrefix, rollbackErr.value))
      ensures IdKey in record && !UpdatesApply(old(rows), formatName, record[IdKey], fields, faults) &&
              rollbackErr.None? ==>
                err.Some? && exists field :: field in fields && UpdateFails(old(rows), formatName, record[IdKey], field, faults) &&
                                             err.value == UpdateError(old(rows), formatName, record[IdKey], field, faults)
      ensures IdKey in record ==> errAsWritten.Some?
      ensures IdKey in record && (UpdatesApply(old(rows), formatName, record[IdKey], fields, faults) || rollbackErr.Some?) ==>
                errAsWritten == Some(Plain(RollbackPrefix + "%!w(<nil>)"))
      ensures (IdKey in record && !UpdatesApply(old(rows), formatName, record[IdKey], fields, faults) &&
               rollbackErr.None?) ==>
                errAsWritten == err
    {
      if IdKey !in record {
        return Some(RecordDoesntHaveID), Some(RecordDoesntHaveID), record;
      }
      var id := record[IdKey];
      fields := record - {IdKey};
      var pending, fnErr := ApplyUpdates(rows, formatName, id, fields, faults);
      var commitCalled := false;
      if fnErr.None? {
        commitCalled := true;
        if commitErr.Some? {
          fnErr := Some(Wrap("commiting transaction: ", commitErr.value));
        } else {
          rows := pending;
        }
      }
      err := InTransaction(fnErr, commitCalled, rollbackErr);
      errAsWritten := InTransactionAsWritten(fnErr, commitCalled, rollbackErr);
    }

    /**
     * GetRecord: the fields of the record's rows plus "id". An id with no
     * rows is not an error: the record is just {"id": id}. The query fails
     * with `queryErr` when that is given, and `scan` is a Scan that fails.
     */
    method GetRecord(formatName: string, id: string, queryErr: Option<Error>, scan: Option<ScanFailure>)
      returns (r: Result<Record, Error>)
      ensures queryErr.Some? ==> r == Err(Wrap("executing statement: ", queryErr.value))
      ensures queryErr.None? && ScanFails(scan, Selected(rows, formatName, Some(id))) ==>
                r == Err(Wrap("reading from rows: ", scan.value.err))
      ensures r.Ok? <==> queryErr.None? && !ScanFails(scan, Selected(rows, formatName, Some(id)))
      ensures r.Ok? ==> r.value == Fields(rows, formatName, id)[IdKey := id]
      ensures r.Ok? ==> forall field :: field != IdKey ==> (field in r.value <==> Count(rows, formatName, id, field) > 0)
    {
      if queryErr.Some? {
        return Err(Wrap("executing statement: ", queryErr.value));
      }
      var record: map<string, string> := map[];
      var scanned := 0;
      for i := 0 to |rows|
        invariant record == Fields(rows[..i], formatName, id)
        invariant scanned == Selected(rows[..i], formatName, Some(id))
        invariant !ScanFails(scan, scanned)
      {
        FieldsStep(rows, formatName, id, i);
        SelectedStep(rows, formatName, Some(id), i);
        var row := rows[i];
        if row.format == formatName && row.recordID == id {
          if scan.Some? && scan.value.at == scanned {
            SelectedPrefix(rows, formatName, Some(id), i + 1);
            return Err(Wrap("reading from rows: ", scan.value.err));
          }
          record := record[row.field := row.value];
          scanned := scanned + 1;
        }
      }
      assert rows[..|rows|] == rows;
      r := Ok(record[IdKey := id]);
    }

    /**
     * GetAllRecords: the format's rows grouped by record id, one record per
     * distinct id, each with its fields plus "id", in map order; or the
     * error of the query or of a Scan.
     */
    method GetAllRecords(formatName: string, queryErr: Option<Error>, scan: Option<ScanFailure>)
      returns (r: Result<seq<Record>, Error>)
      ensures queryErr.Some? ==> r == Err(Wrap("executing statement: ", queryErr.value))
      ensures queryErr.None? && ScanFails(scan, Selected(rows, formatName, None)) ==>
                r == Err(Wrap("reading from rows: ", scan.value.err))
      ensures r.Ok? <==> queryErr.None? && !ScanFails(scan, Selected(rows, formatName, None))
      ensures r.Ok? ==> |r.value| == |RecordIDs(rows, formatName)|
      ensures r.Ok? ==> forall i :: 0 <= i < |r.value| ==>
                IdKey in r.value[i] && r.value[i][IdKey] in RecordIDs(rows, formatName) &&
                r.value[i] == Fields(rows, formatName, r.value[i][IdKey])[IdKey := r.value[i][IdKey]]
      ensures r.Ok? ==> forall i, j :: 0 <= i < j < |r.value| ==> r.value[i][IdKey] != r.value[j][IdKey]
      ensures r.Ok? ==> forall id :: id in RecordIDs(rows, formatName) ==> exists i :: 0 <= i < |r.value| && r.value[i][IdKey] == id
    {
      if queryErr.Some? {
        return Err(Wrap("executing statement: ", queryErr.value));
      }
      var grouped, scanErr := GroupRows(formatName, scan);
      if scanErr.Some? {
        return Err(scanErr.value);
      }
      var records := RecordsOfGroups(grouped);
      r := Ok(records);
    }

    /** GetAllRecords' first loop: the format's rows grouped by record id, or the error of a Scan. */
    method GroupRows(formatName: string, scan: Option<ScanFailure>)
      returns (grouped: map<string, map<string, string>>, scanErr: Option<Error>)
      ensures scanErr.Some? <==> ScanFails(scan, Selected(rows, formatName, None))
      ensures scanErr.Some? ==> scanErr == Some(Wrap("reading from rows: ", scan.value.err))
      ensures scanErr.None? ==> grouped == Grouped(rows, formatName)
    {
      grouped := map[];
      scanErr := None;
      var scanned := 0;
      for i := 0 to |rows|
        invariant grouped == Grouped(rows[..i], formatName)
        invariant scanned == Selected(rows[..i], formatName, None)
        invariant !ScanFails(scan, scanned)
      {
        GroupedStep(rows, formatName, i);
        SelectedStep(rows, formatName, None, i);
        var row := rows[i];
        if row.format == formatName {
          if scan.Some? && scan.value.at == scanned {
            SelectedPrefix(rows, formatName, None, i + 1);
            return grouped, Some(Wrap("reading from rows: ", scan.value.err));
          }
          var before := if row.recordID in grouped then grouped[row.recordID] else map[];
          grouped := grouped[row.recordID := before[row.field := row.value]];
          scanned := scanned + 1;
        }
      }
      assert rows[..|rows|] == rows;
    }

    /** SearchRecord: not implemented by this adapter; always no records and no error. */
    method SearchRecord(formatName: string, value: string) returns (r: Result<seq<Record>, Error>)
      ensures r == Ok([])
    {
      r := Ok([]);
    }

    /**
     * ReferenceValidator: "" when GetRecord succeeds, else the not-found
     * reason. GetRecord fails only when the driver does, so an id that no
     * row holds is accepted.
     */
    method ReferenceValidate(formatName: string, value: string, queryErr: Option<Error>, scan: Option<ScanFailure>)
      returns (reason: string)
      ensures reason == "" <==> queryErr.None? && !ScanFails(scan, Selected(rows, formatName, Some(value)))
      ensures reason != "" ==> reason == "record of format '" + formatName + "' and ID '" + value + "' not found"
    {
      var r := GetRecord(formatName, value, queryErr, scan);
      if r.Err? {
        return "record of format '" + formatName + "' and ID '" + value + "' not found";
      }
      return "";
    }
  }
}
