/** The change log: row snapshots without personal fields, their difference, and how logging
    shares the business transaction. Which statements fail is a parameter. */
module ChangeLog {
  import opened Wrappers

  datatype Column = Column(name: string)

  /** A normalised JSON value; SQL NULL and a missing field both read as Null. */
  datatype Value = Null | Val(text: string)

  type Row = map<Column, Value>

  datatype Change = Change(before: Value, after: Value)

  // ---------- differences ----------

  function Get(r: Row, c: Column): Value {
    if c in r then r[c] else Null
  }

  /** Two rows are the same when every field reads the same. */
  ghost predicate Same(a: Row, b: Row) {
    forall c :: Get(a, c) == Get(b, c)
  }

  function Diff(o: Row, n: Row): map<Column, Change> {
    map c | c in o.Keys + n.Keys && Get(o, c) != Get(n, c) :: Change(Get(o, c), Get(n, c))
  }

  function Patch(r: Row, d: map<Column, Change>): Row {
    map c | c in r.Keys + d.Keys :: if c in d then d[c].after else r[c]
  }

  function Unpatch(r: Row, d: map<Column, Change>): Row {
    map c | c in r.Keys + d.Keys :: if c in d then d[c].before else r[c]
  }

  /** Applying a difference to the old row gives the new one, undoing it gives the old one, and
      it is empty only between rows that are the same. */
  lemma DiffIsExact(o: Row, n: Row)
    ensures Same(Patch(o, Diff(o, n)), n)
    ensures Same(Unpatch(n, Diff(o, n)), o)
    ensures Diff(o, n) == map[] <==> Same(o, n)
    ensures o.Keys == n.Keys ==> Patch(o, Diff(o, n)) == n && (Diff(o, n) == map[] <==> o == n)
  {
    if Diff(o, n) == map[] {
      forall c ensures Get(o, c) == Get(n, c) {
        assert c in Diff(o, n) <==> c in o.Keys + n.Keys && Get(o, c) != Get(n, c);
      }
    }
    if o.Keys == n.Keys && Same(o, n) {
      forall c | c in o ensures o[c] == n[c] {
        assert Get(o, c) == Get(n, c);
      }
    }
    if o.Keys == n.Keys {
      forall c | c in n ensures Patch(o, Diff(o, n))[c] == n[c] {
        assert Get(o, c) == o[c] && Get(n, c) == n[c];
      }
    }
  }

  /** compute_diff: one pass over the keys in some order. */
  method ComputeDiff(o: Row, n: Row) returns (out: map<Column, Change>)
    ensures out == Diff(o, n)
  {
    var keys := o.Keys + n.Keys;
    out := map[];
    while keys != {}
      invariant keys <= o.Keys + n.Keys
      invariant out == map c | c in (o.Keys + n.Keys) - keys && Get(o, c) != Get(n, c) :: Change(Get(o, c), Get(n, c))
      decreases |keys|
    {
      var c :| c in keys;
      keys := keys - {c};
      if Get(o, c) != Get(n, c) {
        out := out[c := Change(Get(o, c), Get(n, c))];
      }
    }
  }

  // ---------- one connection ----------

  datatype Entry =
    | Inserted(pk: int, after: Row)
    | Updated(pk: int, before: Row, after: Row, changed: map<Column, Change>)
    | Deleted(pk: int, before: Row)

  /** A transaction on the tracked table and the log. Once a statement has failed the server
      refuses every further one until a rollback. */
  datatype Txn = Txn(rows: map<int, Row>, log: seq<Entry>, aborted: bool)

  /** A table of the tracker: its columns, the personal ones, and whether it is on the white list. */
  datatype Table = Table(columns: set<Column>, personal: set<Column>, listed: bool)

  /** Which statement of a tracked call fails: the snapshots, the business statement, the log INSERT. */
  datatype Fails = Fails(before: bool, body: bool, after: bool, log: bool)

  datatype Op = Insert(pk: int, row: Row) | Update(pk: int, row: Row) | Delete(pk: int)

  function Strip(t: Table, r: Row): Row {
    map c | c in r && c !in t.personal :: r[c]
  }

  /** capture_before: errors are swallowed, but the SELECT that raised them has aborted the transaction. */
  function Capture(x: Txn, t: Table, pk: int, fails: bool): (Txn, Option<Row>) {
    if !t.listed || x.aborted then (x, None)
    else if fails then (x.(aborted := true), None)
    else (x, if pk in x.rows then Some(Strip(t, x.rows[pk])) else None)
  }

  /** record_change: SAVEPOINT, INSERT, and ROLLBACK TO SAVEPOINT when it fails. */
  function Record(x: Txn, e: Entry, fails: bool): Txn {
    if x.aborted || fails then x else x.(log := x.log + [e])
  }

  /** The business statement. */
  function Execute(x: Txn, op: Op, fails: bool): Txn {
    if x.aborted then x
    else if fails then x.(aborted := true)
    else
      match op
      case Insert(pk, row) => x.(rows := x.rows[pk := row])
      case Update(pk, row) => if pk in x.rows then x.(rows := x.rows[pk := row]) else x
      case Delete(pk) => x.(rows := x.rows - {pk})
  }

  function TrackedUpdate(x: Txn, t: Table, op: Op, f: Fails): Txn
    requires op.Update?
  {
    var (x1, before) := Capture(x, t, op.pk, f.before);
    var x2 := Execute(x1, op, f.body);
    if x1.aborted || f.body || before.None? then x2
    else
      var (x3, after) := Capture(x2, t, op.pk, f.after);
      if after.None? || Diff(before.value, after.value) == map[] then x3
      else Record(x3, Updated(op.pk, before.value, after.value, Diff(before.value, after.value)), f.log)
  }

  /** track_delete, called before the DELETE. */
  function LogDelete(x: Txn, t: Table, pk: int, f: Fails): Txn {
    var (x1, before) := Capture(x, t, pk, f.before);
    if before.None? || before.value == map[] then x1 else Record(x1, Deleted(pk, before.value), f.log)
  }

  /** track_insert, called after the INSERT. */
  function LogInsert(x: Txn, t: Table, pk: int, f: Fails): Txn {
    var (x1, row) := Capture(x, t, pk, f.after);
    if row.None? then x1 else Record(x1, Inserted(pk, row.value), f.log)
  }

  function Tracked(x: Txn, t: Table, op: Op, f: Fails): Txn {
    match op
    case Update(_, _) => TrackedUpdate(x, t, op, f)
    case Delete(pk) => Execute(LogDelete(x, t, pk, f), op, f.body)
    case Insert(pk, _) =>
      var done := Execute(x, op, f.body);
      if x.aborted || f.body then done else LogInsert(done, t, pk, f)
  }

  class Connection {
    var txn: Txn
    const table: Table

    constructor (rows: map<int, Row>, table: Table)
      ensures txn == Txn(rows, [], false) && this.table == table
    {
      txn := Txn(rows, [], false);
      this.table := table;
    }

    /** One SQL statement with an effect on the transaction; it raises when the server refuses it. */
    method Statement(effect: Txn, fails: bool) returns (raised: bool)
      modifies this`txn
      ensures raised == (old(txn).aborted || fails)
      ensures txn == if old(txn).aborted then old(txn) else if fails then old(txn).(aborted := true) else effect
    {
      raised := txn.aborted || fails;
      if !txn.aborted {
        txn := if fails then txn.(aborted := true) else effect;
      }
    }

    method CaptureBefore(pk: int, fails: bool) returns (row: Option<Row>)
      modifies this`txn
      ensures (txn, row) == Capture(old(txn), table, pk, fails)
    {
      if !table.listed {
        return None;
      }
      var raised := Statement(txn, fails);
      if raised || pk !in txn.rows {
        return None;
      }
      row := Some(Strip(table, txn.rows[pk]));
    }

    method RecordChange(e: Entry, fails: bool)
      modifies this`txn
      ensures txn == Record(old(txn), e, fails)
    {
      var refused := Statement(txn, false);
      if refused {
        return;
      }
      var savepoint := txn;
      var raised := Statement(txn.(log := txn.log + [e]), fails);
      if raised {
        txn := savepoint;
      }
    }

    method Business(op: Op, fails: bool) returns (raised: bool)
      modifies this`txn
      ensures txn == Execute(old(txn), op, fails) && raised == (old(txn).aborted || fails)
    {
      raised := Statement(if txn.aborted then txn else Execute(txn, op, false), fails);
    }

    /** with track_update(...): the business statement */
    method TrackUpdate(op: Op, f: Fails) returns (raised: bool)
      requires op.Update?
      modifies this`txn
      ensures txn == Tracked(old(txn), table, op, f)
    {
      var before := CaptureBefore(op.pk, f.before);
      raised := Business(op, f.body);
      if raised || before.None? {
        return;
      }
      var after := CaptureBefore(op.pk, f.after);
      if after.None? {
        return;
      }
      var diff := ComputeDiff(before.value, after.value);
      if diff != map[] {
        RecordChange(Updated(op.pk, before.value, after.value, diff), f.log);
      }
    }

    method TrackDelete(pk: int, f: Fails)
      modifies this`txn
      ensures txn == LogDelete(old(txn), table, pk, f)
    {
      var before := CaptureBefore(pk, f.before);
      if before.None? || before.value == map[] {
        return;
      }
      RecordChange(Deleted(pk, before.value), f.log);
    }

    method TrackInsert(pk: int, f: Fails)
      modifies this`txn
      ensures txn == LogInsert(old(txn), table, pk, f)
    {
      var row := CaptureBefore(pk, f.after);
      if row.Some? {
        RecordChange(Inserted(pk, row.value), f.log);
      }
    }

    /** A tracked statement as the services write it. */
    method TrackedStatement(op: Op, f: Fails) returns (raised: bool)
      modifies this`txn
      ensures txn == Tracked(old(txn), table, op, f)
    {
      match op {
        case Update(_, _) => raised := TrackUpdate(op, f);
        case Delete(pk) =>
          TrackDelete(pk, f);
          raised := Business(op, f.body);
        case Insert(pk, _) =>
          raised := Business(op, f.body);
          if !raised {
            TrackInsert(pk, f);
          }
      }
    }
  }

  // ---------- does tracking disturb the business transaction? ----------

  /** What the caller sees of a transaction: its rows and whether it can still commit. */
  ghost predicate Undisturbed(tracked: Txn, untracked: Txn) {
    tracked.rows == untracked.rows && tracked.aborted == untracked.aborted
  }

  /** A failing log INSERT never disturbs it. */
  lemma LogFailureIsHarmless(x: Txn, t: Table, op: Op, body: bool, log: bool)
    ensures Undisturbed(Tracked(x, t, op, Fails(false, body, false, log)), Execute(x, op, body))
  {
  }

  /** The business statement takes effect and can commit as if untracked exactly unless a
      snapshot SELECT that is really sent fails: these run outside any savepoint. */
  lemma UndisturbedExactly(x: Txn, t: Table, op: Op, f: Fails)
    requires !x.aborted
    ensures Undisturbed(Tracked(x, t, op, f), Execute(x, op, f.body)) <==>
            f.body || !t.listed ||
            match op
            case Update(pk, _) => !f.before && (pk in x.rows ==> !f.after)
            case Delete(_) => !f.before
            case Insert(_, _) => !f.after
  {
  }

  /** A failing snapshot loses an update that untracked code would have committed. */
  lemma SnapshotFailureExists()
    ensures exists x: Txn, t: Table, op: Op, f: Fails ::
              && !x.aborted && !f.body && !f.log && op.Update?
              && !Execute(x, op, f.body).aborted && Tracked(x, t, op, f).aborted
  {
    var x, t, op, f := Txn(map[], [], false), Table({}, {}, true), Update(1, map[]), Fails(true, false, false, false);
    assert !Execute(x, op, f.body).aborted && Tracked(x, t, op, f).aborted;
  }

  // ---------- replaying the log ----------

  function Visible(t: Table, rows: map<int, Row>): map<int, Row> {
    map pk | pk in rows :: Strip(t, rows[pk])
  }

  /** Replays an entry; an update is replayed from its changed fields alone. */
  function Replay1(rows: map<int, Row>, e: Entry): map<int, Row> {
    match e
    case Inserted(pk, after) => rows[pk := after]
    case Updated(pk, _, _, changed) => if pk in rows then rows[pk := Patch(rows[pk], changed)] else rows
    case Deleted(pk, _) => rows - {pk}
  }

  function Replay(rows: map<int, Row>, log: seq<Entry>): map<int, Row> {
    if log == [] then rows else Replay1(Replay(rows, log[..|log| - 1]), log[|log| - 1])
  }

  /** Takes an entry back; a deleted row comes back from its snapshot. */
  function Undo1(rows: map<int, Row>, e: Entry): map<int, Row> {
    match e
    case Inserted(pk, _) => rows - {pk}
    case Updated(pk, _, _, changed) => if pk in rows then rows[pk := Unpatch(rows[pk], changed)] else rows
    case Deleted(pk, before) => rows[pk := before]
  }

  /** Takes a log back, the last entry first. */
  function Undo(rows: map<int, Row>, log: seq<Entry>): map<int, Row>
    decreases |log|
  {
    if log == [] then rows else Undo(Undo1(rows, log[|log| - 1]), log[..|log| - 1])
  }

  /** The snapshots of an entry are the rows before and after it. */
  predicate Truthful(e: Entry, before: map<int, Row>, after: map<int, Row>) {
    match e
    case Inserted(pk, row) => pk !in before && pk in after && after[pk] == row
    case Updated(pk, o, n, _) => pk in before && before[pk] == o && pk in after && after[pk] == n
    case Deleted(pk, row) => pk in before && before[pk] == row && pk !in after
  }

  const ALL_GOOD := Fails(false, false, false, false)

  function RunOps(x: Txn, t: Table, ops: seq<Op>): Txn {
    if ops == [] then x else Tracked(RunOps(x, t, ops[..|ops| - 1]), t, ops[|ops| - 1], ALL_GOOD)
  }

  ghost predicate FullRows(t: Table, rows: map<int, Row>) {
    forall pk :: pk in rows ==> rows[pk].Keys == t.columns
  }

  /** Statements write whole rows, and INSERT takes a new key. */
  ghost predicate WellFormed(t: Table, x: Txn, op: Op) {
    match op
    case Insert(pk, row) => pk !in x.rows && row.Keys == t.columns
    case Update(_, row) => row.Keys == t.columns
    case Delete(_) => true
  }

  ghost predicate AllWellFormed(x: Txn, t: Table, ops: seq<Op>) {
    forall i :: 0 <= i < |ops| ==> WellFormed(t, RunOps(x, t, ops[..i]), ops[i])
  }

  lemma VisibleUpdate(t: Table, rows: map<int, Row>, pk: int, row: Row)
    ensures Visible(t, rows[pk := row]) == Visible(t, rows)[pk := Strip(t, row)]
  {
  }

  lemma VisibleSame(t: Table, rows: map<int, Row>, pk: int)
    requires pk in rows
    ensures Visible(t, rows)[pk := Strip(t, rows[pk])] == Visible(t, rows)
  {
  }

  lemma UpdateReplays(t: Table, rows: map<int, Row>, pk: int, row: Row)
    requires FullRows(t, rows) && row.Keys == t.columns && pk in rows
    ensures var o, n := Strip(t, rows[pk]), Strip(t, row);
            && Visible(t, rows)[pk := Patch(o, Diff(o, n))] == Visible(t, rows[pk := row])
            && Visible(t, rows[pk := row])[pk := Unpatch(n, Diff(o, n))] == Visible(t, rows)
            && (Diff(o, n) == map[] ==> Visible(t, rows) == Visible(t, rows[pk := row]))
  {
    var o, n := Strip(t, rows[pk]), Strip(t, row);
    assert o.Keys == t.columns - t.personal == n.Keys;
    DiffIsExact(o, n);
    UnpatchIsExact(o, n);
    VisibleUpdate(t, rows, pk, row);
    VisibleSame(t, rows, pk);
  }

  lemma UnpatchIsExact(o: Row, n: Row)
    requires o.Keys == n.Keys
    ensures Unpatch(n, Diff(o, n)) == o
  {
    forall c | c in o ensures Unpatch(n, Diff(o, n))[c] == o[c] {
      assert Get(o, c) == o[c] && Get(n, c) == n[c];
    }
  }

  lemma StripKeepsSome(t: Table, r: Row)
    requires r.Keys == t.columns && t.columns - t.personal != {}
    ensures Strip(t, r) != map[]
  {
    var c :| c in t.columns - t.personal;
    assert c in Strip(t, r);
  }

  /** The entry is the step between the two tables, either way. */
  ghost predicate Steps(before: map<int, Row>, e: Entry, after: map<int, Row>) {
    after == Replay1(before, e) && before == Undo1(after, e) && Truthful(e, before, after)
  }

  /** What one tracked statement does to the log is what it does to the visible rows. */
  ghost predicate Replays(t: Table, x: Txn, y: Txn) {
    || (y.log == x.log && Visible(t, y.rows) == Visible(t, x.rows))
    || (exists e :: y.log == x.log + [e] && Steps(Visible(t, x.rows), e, Visible(t, y.rows)))
  }

  lemma InsertReplays(x: Txn, t: Table, pk: int, row: Row)
    requires t.listed && !x.aborted && pk !in x.rows
    ensures Replays(t, x, Tracked(x, t, Insert(pk, row), ALL_GOOD))
  {
    var y, e := Tracked(x, t, Insert(pk, row), ALL_GOOD), Inserted(pk, Strip(t, row));
    VisibleUpdate(t, x.rows, pk, row);
    assert y.log == x.log + [e] && y.rows == x.rows[pk := row];
    assert Visible(t, x.rows)[pk := Strip(t, row)] - {pk} == Visible(t, x.rows);
    assert Steps(Visible(t, x.rows), e, Visible(t, y.rows));
  }

  lemma UpdateOpReplays(x: Txn, t: Table, pk: int, row: Row)
    requires t.listed && !x.aborted && FullRows(t, x.rows) && row.Keys == t.columns && pk in x.rows
    ensures Replays(t, x, Tracked(x, t, Update(pk, row), ALL_GOOD))
  {
    var y, o, n := Tracked(x, t, Update(pk, row), ALL_GOOD), Strip(t, x.rows[pk]), Strip(t, row);
    UpdateReplays(t, x.rows, pk, row);
    UpdateLogs(x, t, pk, row);
    if Diff(o, n) != map[] {
      var e := Updated(pk, o, n, Diff(o, n));
      assert y.log == x.log + [e] && Visible(t, x.rows)[pk] == o && Visible(t, y.rows)[pk] == n;
      assert Steps(Visible(t, x.rows), e, Visible(t, y.rows));
    }
  }

  lemma UpdateLogs(x: Txn, t: Table, pk: int, row: Row)
    requires t.listed && !x.aborted && pk in x.rows
    ensures var y, o, n := Tracked(x, t, Update(pk, row), ALL_GOOD), Strip(t, x.rows[pk]), Strip(t, row);
            y.rows == x.rows[pk := row] && y.log == if Diff(o, n) == map[] then x.log else x.log + [Updated(pk, o, n, Diff(o, n))]
  {
  }

  lemma DeleteReplays(x: Txn, t: Table, pk: int)
    requires t.listed && t.columns - t.personal != {} && !x.aborted && FullRows(t, x.rows) && pk in x.rows
    ensures Replays(t, x, Tracked(x, t, Delete(pk), ALL_GOOD))
  {
    var y, e := Tracked(x, t, Delete(pk), ALL_GOOD), Deleted(pk, Strip(t, x.rows[pk]));
    StripKeepsSome(t, x.rows[pk]);
    assert y.log == x.log + [e] && y.rows == x.rows - {pk};
    assert Visible(t, x.rows)[pk] == Strip(t, x.rows[pk]) && Visible(t, y.rows) == Visible(t, x.rows) - {pk};
    assert Steps(Visible(t, x.rows), e, Visible(t, y.rows));
  }

  lemma NothingReplays(x: Txn, t: Table, op: Op)
    requires !x.aborted && !op.Insert? && op.pk !in x.rows
    ensures var y := Tracked(x, t, op, ALL_GOOD); y == x && Execute(x, op, false).rows == x.rows
  {
    assert x.rows - {op.pk} == x.rows;
  }

  lemma TrackedExecutes(x: Txn, t: Table, op: Op)
    requires !x.aborted
    ensures var y := Tracked(x, t, op, ALL_GOOD); !y.aborted && y.rows == Execute(x, op, false).rows
  {
  }

  lemma OpReplays(x: Txn, t: Table, op: Op)
    requires t.listed && t.columns - t.personal != {} && !x.aborted && FullRows(t, x.rows) && WellFormed(t, x, op)
    ensures var y := Tracked(x, t, op, ALL_GOOD);
            !y.aborted && FullRows(t, y.rows) && y.rows == Execute(x, op, false).rows && Replays(t, x, y)
  {
    TrackedExecutes(x, t, op);
    if !op.Insert? && op.pk !in x.rows {
      NothingReplays(x, t, op);
    } else {
      match op
      case Insert(pk, row) => InsertReplays(x, t, pk, row);
      case Update(pk, row) => UpdateOpReplays(x, t, pk, row);
      case Delete(pk) => DeleteReplays(x, t, pk);
    }
  }

  /** The log is an exact history of a run: entry by entry, the tables in between included. */
  ghost predicate History(start: map<int, Row>, log: seq<Entry>, end: map<int, Row>)
    decreases |log|
  {
    if log == [] then start == end
    else
      var n := |log| - 1;
      History(start, log[..n], Replay(start, log[..n])) && Steps(Replay(start, log[..n]), log[n], end)
  }

  lemma {:induction false} HistoryReplays(start: map<int, Row>, log: seq<Entry>, end: map<int, Row>)
    requires History(start, log, end)
    ensures Replay(start, log) == end && Undo(end, log) == start
    decreases |log|
  {
    if log != [] {
      var n := |log| - 1;
      HistoryReplays(start, log[..n], Replay(start, log[..n]));
    }
  }

  lemma HistoryGrows(start: map<int, Row>, log: seq<Entry>, middle: map<int, Row>, e: Entry, end: map<int, Row>)
    requires History(start, log, middle) && Steps(middle, e, end)
    ensures History(start, log + [e], end)
  {
    HistoryReplays(start, log, middle);
    assert (log + [e])[..|log|] == log;
  }

  /** With no failing statement, and for every sequence of tracked statements, the log is the
      exact history of the table without its personal fields. */
  lemma {:induction false} LogIsHistory(rows: map<int, Row>, t: Table, ops: seq<Op>)
    requires t.listed && t.columns - t.personal != {} && FullRows(t, rows)
    requires AllWellFormed(Txn(rows, [], false), t, ops)
    ensures var x := RunOps(Txn(rows, [], false), t, ops);
            !x.aborted && FullRows(t, x.rows) && History(Visible(t, rows), x.log, Visible(t, x.rows))
    decreases |ops|
  {
    if ops != [] {
      var n := |ops| - 1;
      var start := Txn(rows, [], false);
      var before := RunOps(start, t, ops[..n]);
      assert forall i :: 0 <= i < n ==> ops[..n][..i] == ops[..i];
      LogIsHistory(rows, t, ops[..n]);
      assert WellFormed(t, before, ops[n]);
      OpReplays(before, t, ops[n]);
      var after := Tracked(before, t, ops[n], ALL_GOOD);
      if after.log != before.log {
        var e :| after.log == before.log + [e] && Steps(Visible(t, before.rows), e, Visible(t, after.rows));
        HistoryGrows(Visible(t, rows), before.log, Visible(t, before.rows), e, Visible(t, after.rows));
      }
    }
  }

  /** Replaying the log over the initial table gives the current one, and undoing it from the
      current table gives the initial one. */
  lemma ReplayGivesCurrent(rows: map<int, Row>, t: Table, ops: seq<Op>)
    requires t.listed && t.columns - t.personal != {} && FullRows(t, rows)
    requires AllWellFormed(Txn(rows, [], false), t, ops)
    ensures var x := RunOps(Txn(rows, [], false), t, ops);
            Replay(Visible(t, rows), x.log) == Visible(t, x.rows) && Undo(Visible(t, x.rows), x.log) == Visible(t, rows)
  {
    LogIsHistory(rows, t, ops);
    var x := RunOps(Txn(rows, [], false), t, ops);
    HistoryReplays(Visible(t, rows), x.log, Visible(t, x.rows));
  }

  const COLUMN := Column("c")
  const SAMPLE := Table({COLUMN}, {}, true)
  const FIRST: Row := map[COLUMN := Val("1")]
  const SECOND: Row := map[COLUMN := Val("2")]

  lemma SampleInserted(log: seq<Entry>)
    ensures Tracked(Txn(map[], log, false), SAMPLE, Insert(1, FIRST), ALL_GOOD) == Txn(map[1 := FIRST], log + [Inserted(1, FIRST)], false)
  {
    assert Strip(SAMPLE, FIRST) == FIRST;
  }

  lemma SampleUpdated(log: seq<Entry>)
    ensures Tracked(Txn(map[1 := FIRST], log, false), SAMPLE, Update(1, SECOND), ALL_GOOD) ==
            Txn(map[1 := SECOND], log + [Updated(1, FIRST, SECOND, Diff(FIRST, SECOND))], false)
  {
    assert Strip(SAMPLE, FIRST) == FIRST && Strip(SAMPLE, SECOND) == SECOND;
    assert FIRST[COLUMN] != SECOND[COLUMN];
    assert COLUMN in Diff(FIRST, SECOND);
    UpdateLogs(Txn(map[1 := FIRST], log, false), SAMPLE, 1, SECOND);
  }

  lemma SampleDeleted(log: seq<Entry>)
    ensures Tracked(Txn(map[1 := SECOND], log, false), SAMPLE, Delete(1), ALL_GOOD) == Txn(map[], log + [Deleted(1, SECOND)], false)
  {
    assert Strip(SAMPLE, SECOND) == SECOND && COLUMN in SECOND;
  }

  lemma RunSnoc(x: Txn, t: Table, ops: seq<Op>, op: Op)
    ensures RunOps(x, t, ops + [op]) == Tracked(RunOps(x, t, ops), t, op, ALL_GOOD)
  {
    assert (ops + [op])[..|ops|] == ops;
  }

  /** A row is inserted, changed and deleted: the run meets the premises, and the log has three
      entries. */
  lemma HistoryExists()
    ensures var start, ops := Txn(map[], [], false), [Insert(1, FIRST), Update(1, SECOND), Delete(1)];
            && SAMPLE.listed && SAMPLE.columns - SAMPLE.personal != {} && AllWellFormed(start, SAMPLE, ops)
            && RunOps(start, SAMPLE, ops).log == [Inserted(1, FIRST), Updated(1, FIRST, SECOND, Diff(FIRST, SECOND)), Deleted(1, SECOND)]
  {
    var start, ops := Txn(map[], [], false), [Insert(1, FIRST), Update(1, SECOND), Delete(1)];
    assert COLUMN in SAMPLE.columns - SAMPLE.personal;
    assert ops[..1] == [] + [ops[0]] && ops[..2] == ops[..1] + [ops[1]] && ops == ops[..2] + [ops[2]] && ops[..0] == [];
    RunSnoc(start, SAMPLE, [], ops[0]);
    RunSnoc(start, SAMPLE, ops[..1], ops[1]);
    RunSnoc(start, SAMPLE, ops[..2], ops[2]);
    var one := [Inserted(1, FIRST)];
    var two := one + [Updated(1, FIRST, SECOND, Diff(FIRST, SECOND))];
    SampleInserted([]);
    assert [] + one == one;
    assert RunOps(start, SAMPLE, ops[..1]) == Txn(map[1 := FIRST], one, false);
    SampleUpdated(one);
    assert RunOps(start, SAMPLE, ops[..2]) == Txn(map[1 := SECOND], two, false);
    SampleDeleted(two);
    forall i | 0 <= i < 3 ensures WellFormed(SAMPLE, RunOps(start, SAMPLE, ops[..i]), ops[i]) {
      assert i == 0 || i == 1 || i == 2;
    }
  }

  /** What a tracked statement leaves under each key when nothing fails. */
  lemma RowsAreWritten(x: Txn, t: Table, op: Op, k: int)
    requires !x.aborted
    ensures var y := Tracked(x, t, op, ALL_GOOD);
            && !y.aborted
            && (k in y.rows <==> if k != op.pk then k in x.rows else op.Insert? || (op.Update? && k in x.rows))
            && (k in y.rows ==> y.rows[k] == if k != op.pk then x.rows[k] else op.row)
  {
    TrackedExecutes(x, t, op);
  }

  /** An update is logged exactly if the row exists and a field that is not personal changes. */
  lemma LoggedExactly(x: Txn, t: Table, pk: int, row: Row)
    requires t.listed && !x.aborted && FullRows(t, x.rows) && row.Keys == t.columns
    ensures |Tracked(x, t, Update(pk, row), ALL_GOOD).log| == |x.log| + 1 <==>
            pk in x.rows && exists c :: c in t.columns && c !in t.personal && x.rows[pk][c] != row[c]
  {
    if pk in x.rows {
      var o, n := Strip(t, x.rows[pk]), Strip(t, row);
      assert o.Keys == t.columns - t.personal == n.Keys;
      DiffIsExact(o, n);
      if o != n {
        var c :| c in o && o[c] != n[c];
        assert x.rows[pk][c] != row[c];
      } else {
        forall c | c in t.columns && c !in t.personal ensures x.rows[pk][c] == row[c] {
          assert o[c] == n[c];
        }
      }
    }
  }
}
