/**
 * The table of the SQLite adapter (boocat/sqlite/sqlite.go): every field of
 * every record is one row `(format, record_id, field, value)` of the table
 * `field_values`. The table is a sequence in storage order; the queries
 * read it in that order, which is one of the orders SQLite may use.
 */
module SqliteRows {
  import opened Results

  datatype Row = Row(format: string, recordID: string, field: string, value: string)

  /** Some row of any format uses the record id, which is what `selectRecordIDSQL` asks. */
  predicate IdInUse(rows: seq<Row>, id: string)
  {
    exists i :: 0 <= i < |rows| && rows[i].recordID == id
  }

  /** The row holds `field` of record `id` of format `format`. */
  predicate Holds(r: Row, format: string, id: string, field: string)
  {
    r.format == format && r.recordID == id && r.field == field
  }

  /** The number of rows `updateFieldValueSQL` affects for one field. */
  function Count(rows: seq<Row>, format: string, id: string, field: string): (n: nat)
    ensures n <= |rows|
  {
    if rows == [] then 0
    else
      var n := Count(rows[..|rows| - 1], format, id, field);
      if Holds(rows[|rows| - 1], format, id, field) then n + 1 else n
  }

  /** An UPDATE matches no row exactly when no row holds that format, record id and field. */
  lemma {:induction false} CountNone(rows: seq<Row>, format: string, id: string, field: string)
    ensures Count(rows, format, id, field) == 0 <==> forall i :: 0 <= i < |rows| ==> !Holds(rows[i], format, id, field)
    decreases |rows|
  {
    if rows != [] {
      var n := |rows| - 1;
      CountNone(rows[..n], format, id, field);
      assert forall i :: 0 <= i < n ==> rows[..n][i] == rows[i];
    }
  }

  /** Two tables whose rows agree on format, record id and field, position by position. */
  predicate SameKeys(a: seq<Row>, b: seq<Row>)
  {
    |a| == |b| && forall i :: 0 <= i < |a| ==> a[i].format == b[i].format && a[i].recordID == b[i].recordID && a[i].field == b[i].field
  }

  lemma {:induction false} SameKeysSameCount(a: seq<Row>, b: seq<Row>, format: string, id: string, field: string)
    requires SameKeys(a, b)
    ensures Count(a, format, id, field) == Count(b, format, id, field)
  {
    if a != [] {
      SameKeysSameCount(a[..|a| - 1], b[..|b| - 1], format, id, field);
    }
  }

  /**
   * The table after `updateFieldValueSQL` ran for every field of `values`:
   * each row of record `id` of the format whose field is in `values` takes
   * that value.
   */
  function Updated(rows: seq<Row>, format: string, id: string, values: map<string, string>): (r: seq<Row>)
    ensures SameKeys(rows, r)
  {
    seq(|rows|, i requires 0 <= i < |rows| =>
      if rows[i].format == format && rows[i].recordID == id && rows[i].field in values
      then rows[i].(value := values[rows[i].field])
      else rows[i])
  }

  /** Updating one more field composes with the fields already updated. */
  lemma UpdatedOneMore(rows: seq<Row>, format: string, id: string, values: map<string, string>, field: string, value: string)
    requires field !in values
    ensures Updated(Updated(rows, format, id, values), format, id, map[field := value]) ==
            Updated(rows, format, id, values[field := value])
  {
  }

  /** Updating no field leaves the table as it is. */
  lemma UpdatedNothing(rows: seq<Row>, format: string, id: string)
    ensures Updated(rows, format, id, map[]) == rows
  {
  }

  /**
   * The fields of record `id` of the format, read row by row; a later row
   * for the same field overwrites an earlier one.
   */
  function Fields(rows: seq<Row>, format: string, id: string): (m: map<string, string>)
    ensures forall field :: field in m <==> Count(rows, format, id, field) > 0
  {
    if rows == [] then map[]
    else
      var last := rows[|rows| - 1];
      var m := Fields(rows[..|rows| - 1], format, id);
      if last.format == format && last.recordID == id then m[last.field := last.value] else m
  }

  /** Reading one more row of the record sets its field to its value; other rows change nothing. */
  lemma FieldsStep(rows: seq<Row>, format: string, id: string, i: nat)
    requires i < |rows|
    ensures Fields(rows[..i + 1], format, id) ==
              if rows[i].format == format && rows[i].recordID == id
              then Fields(rows[..i], format, id)[rows[i].field := rows[i].value]
              else Fields(rows[..i], format, id)
  {
    assert rows[..i + 1][..i] == rows[..i];
  }

  /** A field held by exactly one row reads as that row's value. */
  lemma {:induction false} FieldsValue(rows: seq<Row>, format: string, id: string, i: int)
    requires 0 <= i < |rows| && rows[i].format == format && rows[i].recordID == id
    requires Count(rows, format, id, rows[i].field) == 1
    ensures Fields(rows, format, id)[rows[i].field] == rows[i].value
  {
    var n := |rows| - 1;
    var field := rows[i].field;
    if i < n {
      assert rows[..n][i] == rows[i];
      CountNone(rows[..n], format, id, field);
      if !Holds(rows[n], format, id, field) {
        FieldsValue(rows[..n], format, id, i);
      }
    }
  }

  /** The row is one `selectRecordSQL` returns (with an id) or `selectFormatRecordsSQL` returns (without). */
  predicate Selects(r: Row, format: string, id: Option<string>)
  {
    r.format == format && (id.None? || r.recordID == id.value)
  }

  /** The number of rows the SELECT returns, which is how many times the read loop scans. */
  function Selected(rows: seq<Row>, format: string, id: Option<string>): (n: nat)
    ensures n <= |rows|
  {
    if rows == [] then 0
    else
      var n := Selected(rows[..|rows| - 1], format, id);
      if Selects(rows[|rows| - 1], format, id) then n + 1 else n
  }

  /** Reading one more row counts it exactly when the query selects it. */
  lemma SelectedStep(rows: seq<Row>, format: string, id: Option<string>, i: nat)
    requires i < |rows|
    ensures Selected(rows[..i + 1], format, id) == Selected(rows[..i], format, id) + (if Selects(rows[i], format, id) then 1 else 0)
  {
    assert rows[..i + 1][..i] == rows[..i];
  }

  /** The SELECT returns no row exactly when no row matches it. */
  lemma {:induction false} SelectedNone(rows: seq<Row>, format: string, id: Option<string>)
    ensures Selected(rows, format, id) == 0 <==> forall i :: 0 <= i < |rows| ==> !Selects(rows[i], format, id)
    decreases |rows|
  {
    if rows != [] {
      var n := |rows| - 1;
      SelectedNone(rows[..n], format, id);
      assert forall i :: 0 <= i < n ==> rows[..n][i] == rows[i];
    }
  }

  /** A prefix of the table returns no more rows than the table. */
  lemma {:induction false} SelectedPrefix(rows: seq<Row>, format: string, id: Option<string>, i: nat)
    requires i <= |rows|
    ensures Selected(rows[..i], format, id) <= Selected(rows, format, id)
    decreases |rows| - i
  {
    if i < |rows| {
      SelectedStep(rows, format, id, i);
      SelectedPrefix(rows, format, id, i + 1);
    } else {
      assert rows[..i] == rows;
    }
  }

  /** The record ids of the format's rows. */
  function RecordIDs(rows: seq<Row>, format: string): set<string>
  {
    set i | 0 <= i < |rows| && rows[i].format == format :: rows[i].recordID
  }

  /** Reading one more row adds its record id when it is of the format. */
  lemma RecordIDsStep(rows: seq<Row>, format: string)
    requires rows != []
    ensures var last := rows[|rows| - 1];
            RecordIDs(rows, format) == RecordIDs(rows[..|rows| - 1], format) + (if last.format == format then {last.recordID} else {})
  {
    var n := |rows| - 1;
    assert forall i :: 0 <= i < n ==> rows[..n][i] == rows[i];
  }

  /** The format's rows grouped by record id, as GetAllRecords' first loop builds them. */
  function Grouped(rows: seq<Row>, format: string): (g: map<string, map<string, string>>)
    ensures g.Keys == RecordIDs(rows, format)
    ensures forall id :: id in g ==> g[id] == Fields(rows, format, id)
  {
    if rows == [] then map[]
    else
      var n := |rows| - 1;
      var last := rows[n];
      var g := Grouped(rows[..n], format);
      RecordIDsStep(rows, format);
      if last.format == format then
        var before := if last.recordID in g then g[last.recordID] else map[];
        NoFieldsWithoutRows(rows[..n], format, last.recordID);
        g[last.recordID := before[last.field := last.value]]
      else g
  }

  /** A record id no row of the format holds has no fields. */
  lemma {:induction false} NoFieldsWithoutRows(rows: seq<Row>, format: string, id: string)
    ensures id !in RecordIDs(rows, format) ==> Fields(rows, format, id) == map[]
    decreases |rows|
  {
    if rows != [] && id !in RecordIDs(rows, format) {
      RecordIDsStep(rows, format);
      NoFieldsWithoutRows(rows[..|rows| - 1], format, id);
    }
  }

  /** Reading one more row of the format adds its field to its record's group; other rows change nothing. */
  lemma GroupedStep(rows: seq<Row>, format: string, i: nat)
    requires i < |rows|
    ensures var g := Grouped(rows[..i], format); var row := rows[i];
            Grouped(rows[..i + 1], format) ==
              if row.format == format then
                g[row.recordID := (if row.recordID in g then g[row.recordID] else map[])[row.field := row.value]]
              else g
  {
    assert rows[..i + 1][..i] == rows[..i];
  }


  /** The rows a record is inserted as: one per field, all with the format and the new id. */
  predicate RowsOf(s: seq<Row>, format: string, id: string, record: Record)
  {
    |s| == |record| &&
    (forall i :: 0 <= i < |s| ==> s[i].format == format && s[i].recordID == id && s[i].field in record &&
                                  s[i].value == record[s[i].field]) &&
    (forall i, j :: 0 <= i < j < |s| ==> s[i].field != s[j].field)
  }
}
