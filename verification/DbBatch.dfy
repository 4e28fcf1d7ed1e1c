/** The watermark-driven incremental batch run of batch_executor_db, as a protocol between a
    source that keeps changing and a job that reads its watermark, claims the run, reads a
    snapshot, loads it chunk by chunk with a commit after each, and finally sets the watermark
    to the largest stamp it has loaded. The watermark is read before the claim and not again. */
module DbBatch {
  import opened Wrappers
  import opened Tables
  import opened BatchUpsert
  import Slices

  /** A source row with its decoded incremental column; None is a NULL stamp. */
  datatype SourceRow = SourceRow(row: Row, stamp: Option<int>)

  type Source = map<Key, SourceRow>

  /** A run in progress: the rows the SELECT delivers in delivery order, how many are loaded
      and committed, the largest stamp among those, and the watermark the run had read. */
  datatype Run = Run(order: seq<SourceRow>, next: nat, candidate: Option<int>, seen: Option<int>)

  /** `past` holds the watermarks the job has had so far, any of which a run may have read, and
      `high` the largest stamp any SELECT has delivered. */
  datatype World = World(source: Source, target: Table, watermark: Option<int>, run: Option<Run>,
                         past: set<Option<int>>, high: Option<int>)

  datatype Event =
    | Put(change: SourceRow)   // the source inserts or updates a row
    | Remove(key: Key)         // the source deletes a row
    | Start(order: seq<SourceRow>, seen: Option<int>)
    | LoadChunk(size: nat)
    | Finish
    | Cancel                   // leaves the fetch loop early but still writes the watermark
    | Fail                     // an exception: uncommitted work is lost, no watermark write

  // ---------- the pieces of one run ----------

  /** The WHERE clause: everything on the first run, afterwards stamp >= watermark and not NULL. */
  predicate Selected(watermark: Option<int>, r: SourceRow) {
    watermark.None? || (r.stamp.Some? && r.stamp.value >= watermark.value)
  }

  ghost predicate DistinctSourceKeys(order: seq<SourceRow>) {
    forall i, j :: 0 <= i < j < |order| ==> order[i].row.key != order[j].row.key
  }

  /** order is some delivery order of the selected rows of the source. */
  ghost predicate ReadsSnapshot(source: Source, seen: Option<int>, order: seq<SourceRow>) {
    && DistinctSourceKeys(order)
    && (forall i :: 0 <= i < |order| ==> Selected(seen, order[i]) && order[i].row.key in source && source[order[i].row.key] == order[i])
    && (forall k :: k in source && Selected(seen, source[k]) ==> source[k] in order)
  }

  function RowsOf(order: seq<SourceRow>): (rows: seq<Row>)
    ensures |rows| == |order|
    ensures forall i :: 0 <= i < |rows| ==> rows[i] == order[i].row
  {
    seq(|order|, i requires 0 <= i < |order| => order[i].row)
  }

  function MaxStamp(c: Option<int>, rows: seq<SourceRow>): (m: Option<int>)
    ensures c.Some? ==> m.Some? && m.value >= c.value
    ensures forall i :: 0 <= i < |rows| && rows[i].stamp.Some? ==> m.Some? && m.value >= rows[i].stamp.value
    ensures m.Some? ==> m == c || exists i :: 0 <= i < |rows| && rows[i].stamp == m
    decreases |rows|
  {
    if rows == [] then c
    else
      var s := rows[0].stamp;
      var c' := if s.None? then c else if c.None? || c.value < s.value then s else c;
      var m := MaxStamp(c', rows[1..]);
      assert forall i :: 0 < i < |rows| ==> rows[i] == rows[1..][i - 1];
      m
  }

  function Advance(watermark: Option<int>, candidate: Option<int>): Option<int> {
    if candidate.Some? then candidate else watermark
  }

  function ChunkEnd(r: Run, size: nat): (end: nat)
    requires r.next <= |r.order|
    ensures r.next <= end <= |r.order|
  {
    Min(r.next + size, |r.order|)
  }

  /** No source change carries a stamp below one already read. */
  predicate FreshStamp(w: World, s: int) {
    w.high.Some? ==> s >= w.high.value
  }

  // ---------- the protocol ----------

  ghost predicate Enabled(w: World, e: Event) {
    match e
    case Put(r) => r.stamp.Some? ==> FreshStamp(w, r.stamp.value)
    case Remove(_) => true
    case Start(order, seen) => w.run.None? && seen in w.past && ReadsSnapshot(w.source, seen, order)
    case LoadChunk(size) => w.run.Some? && size >= 1 && w.run.value.next < |w.run.value.order|
    case Finish => w.run.Some? && w.run.value.next == |w.run.value.order|
    case Cancel => w.run.Some?
    case Fail => w.run.Some?
  }

  /** What the source may do at any time: delete any row, and write any row whose stamp is NULL or
      at least as large as every stamp already read. A run can be cancelled or fail at any time. */
  lemma AlwaysPossible(w: World, r: SourceRow, key: Key)
    ensures Enabled(w, Remove(key))
    ensures Enabled(w, Put(r)) <==> (r.stamp.Some? && w.high.Some? ==> w.high.value <= r.stamp.value)
    ensures w.run.Some? ==> Enabled(w, Cancel) && Enabled(w, Fail)
  {
  }

  function EndRun(w: World): World
    requires w.run.Some?
  {
    var m := Advance(w.watermark, w.run.value.candidate);
    w.(watermark := m, run := None, past := w.past + {m})
  }

  function Step(w: World, e: Event): World
    requires e.LoadChunk? || e.Finish? || e.Cancel? ==> w.run.Some?
    requires e.LoadChunk? ==> w.run.value.next <= |w.run.value.order|
  {
    match e
    case Put(r) => w.(source := w.source[r.row.key := r])
    case Remove(k) => w.(source := w.source - {k})
    case Start(order, seen) => w.(run := Some(Run(order, 0, None, seen)), high := MaxStamp(w.high, order))
    case LoadChunk(size) =>
      var r := w.run.value;
      var end := ChunkEnd(r, size);
      var chunk := r.order[r.next..end];
      w.(target := Override(w.target, RowsOf(chunk)),
         run := Some(Run(r.order, end, MaxStamp(r.candidate, chunk), r.seen)))
    case Finish => EndRun(w)
    case Cancel => EndRun(w)
    case Fail => w.(run := None)
  }

  /** All events happen one after the other, each when it is enabled. */
  ghost predicate Plays(w: World, es: seq<Event>)
    decreases |es|
  {
    es == [] || (Enabled(w, es[0]) && Plays(Step(w, es[0]), es[1..]))
  }

  ghost function Play(w: World, es: seq<Event>): World
    requires Plays(w, es)
    decreases |es|
  {
    if es == [] then w else Play(Step(w, es[0]), es[1..])
  }

  // ---------- the invariant ----------

  ghost predicate Agrees(w: World, k: Key)
    requires k in w.source
  {
    k in w.target && w.target[k] == w.source[k].row
  }

  /** A stamped source row the target does not have is at or above v: a SELECT from v on returns it. */
  ghost predicate Covered(w: World, k: Key, v: Option<int>)
    requires k in w.source
  {
    w.source[k].stamp.Some? ==> Agrees(w, k) || Selected(v, w.source[k])
  }

  ghost predicate CaughtUp(w: World, v: Option<int>) {
    forall k :: k in w.source ==> Covered(w, k, v)
  }

  ghost predicate Pending(r: Run, k: Key) {
    exists i :: r.next <= i < |r.order| && r.order[i].row.key == k
  }

  ghost predicate Awaited(r: Run, s: SourceRow) {
    exists i :: r.next <= i < |r.order| && r.order[i] == s
  }

  /** While a run is on, a stamped source row is still to be loaded by it, or already right and
      not going to be overwritten, or newer than everything read. */
  ghost predicate Tracked(w: World, r: Run, k: Key)
    requires k in w.source
  {
    w.source[k].stamp.Some? ==>
      || Awaited(r, w.source[k])
      || (Agrees(w, k) && !Pending(r, k))
      || FreshStamp(w, w.source[k].stamp.value)
  }

  ghost predicate RunOk(w: World, r: Run) {
    && r.next <= |r.order|
    && DistinctSourceKeys(r.order)
    && (forall i :: 0 <= i < |r.order| && r.order[i].stamp.Some? ==> NotBelow(w.high, r.order[i].stamp))
    && r.candidate == MaxStamp(None, r.order[..r.next])
    && (forall k :: k in w.source ==> Tracked(w, r, k))
  }

  predicate NotBelow(a: Option<int>, b: Option<int>) {
    b.Some? ==> a.Some? && a.value >= b.value
  }

  /** The next run may have read any of the watermarks so far, and misses nothing from it. */
  ghost predicate Inv(w: World) {
    && (forall k :: k in w.source ==> w.source[k].row.key == k)
    && w.watermark in w.past
    && (forall v :: v in w.past ==> NotBelow(w.high, v) && CaughtUp(w, v))
    && (w.run.Some? ==> RunOk(w, w.run.value))
  }

  ghost predicate InStampOrder(order: seq<SourceRow>) {
    forall i, j :: 0 <= i < j < |order| && order[i].stamp.Some? && order[j].stamp.Some? ==> order[i].stamp.value <= order[j].stamp.value
  }

  /** A cancelled run keeps the promise when its rows came in stamp order. */
  ghost predicate OrderedCancel(w: World, e: Event) {
    e.Cancel? && w.run.Some? ==> InStampOrder(w.run.value.order)
  }

  ghost predicate OrderedCancels(w: World, es: seq<Event>)
    requires Plays(w, es)
    decreases |es|
  {
    es == [] || (OrderedCancel(w, es[0]) && OrderedCancels(Step(w, es[0]), es[1..]))
  }

  // ---------- preservation, event by event ----------

  lemma SourceChangeCovers(w: World, e: Event, v: Option<int>)
    requires CaughtUp(w, v) && NotBelow(w.high, v) && Enabled(w, e) && (e.Put? || e.Remove?)
    ensures CaughtUp(Step(w, e), v)
  {
    var w' := Step(w, e);
    forall k | k in w'.source ensures Covered(w', k, v) {
      if k in w.source && w.source[k] == w'.source[k] { assert Covered(w, k, v); }
    }
  }

  lemma SourceChangeKeeps(w: World, e: Event)
    requires Inv(w) && Enabled(w, e) && (e.Put? || e.Remove?)
    ensures Inv(Step(w, e))
  {
    var w' := Step(w, e);
    forall v | v in w'.past ensures NotBelow(w'.high, v) && CaughtUp(w', v) {
      SourceChangeCovers(w, e, v);
    }
    if w.run.Some? {
      var r := w.run.value;
      forall k | k in w'.source ensures Tracked(w', r, k) {
        if k in w.source && w.source[k] == w'.source[k] { assert Tracked(w, r, k); }
      }
    }
  }

  lemma StartKeeps(w: World, order: seq<SourceRow>, seen: Option<int>)
    requires Inv(w) && Enabled(w, Start(order, seen))
    ensures Inv(Step(w, Start(order, seen)))
  {
    var w' := Step(w, Start(order, seen));
    var r := w'.run.value;
    assert order[..0] == [];
    forall v | v in w'.past ensures NotBelow(w'.high, v) && CaughtUp(w', v) {
      assert CaughtUp(w, v);
      forall k | k in w'.source ensures Covered(w', k, v) {
        assert Covered(w, k, v);
      }
    }
    assert CaughtUp(w, seen);
    forall k | k in w'.source ensures Tracked(w', r, k) {
      assert Covered(w, k, seen);
      if Selected(seen, w.source[k]) {
        var i :| 0 <= i < |order| && order[i] == w.source[k];
        assert Awaited(r, w.source[k]);
      } else {
        assert !Pending(r, k);
      }
    }
  }

  /** What loading order[next..end] does to one key. */
  lemma ChunkAt(t: Table, order: seq<SourceRow>, a: nat, b: nat, i: nat)
    requires a <= i < b <= |order| && DistinctSourceKeys(order)
    ensures var t' := Override(t, RowsOf(order[a..b]));
      order[i].row.key in t' && t'[order[i].row.key] == order[i].row
  {
    var rows := RowsOf(order[a..b]);
    assert rows[i - a] == order[i].row;
    assert DistinctKeys(rows);
    IndexDistinct(rows, i - a);
    OverrideAt(t, rows, order[i].row.key);
  }

  lemma ChunkSpares(t: Table, order: seq<SourceRow>, a: nat, b: nat, k: Key)
    requires a <= b <= |order| && k in t
    requires forall i :: a <= i < b ==> order[i].row.key != k
    ensures var t' := Override(t, RowsOf(order[a..b])); k in t' && t'[k] == t[k]
  {
    var rows := RowsOf(order[a..b]);
    assert forall i :: 0 <= i < |rows| ==> rows[i] == order[a + i].row;
    OverrideAt(t, rows, k);
  }

  lemma {:induction false} MaxStampConcat(c: Option<int>, p: seq<SourceRow>, q: seq<SourceRow>)
    ensures MaxStamp(c, p + q) == MaxStamp(MaxStamp(c, p), q)
    decreases |p|
  {
    if p == [] {
      assert p + q == q;
    } else {
      var s := p[0].stamp;
      assert (p + q)[1..] == p[1..] + q;
      MaxStampConcat(if s.None? then c else if c.None? || c.value < s.value then s else c, p[1..], q);
    }
  }

  lemma ChunkKeepsTracked(w: World, size: nat, k: Key)
    requires w.run.Some? && RunOk(w, w.run.value) && size >= 1
    requires k in w.source && w.source[k].row.key == k
    ensures var w' := Step(w, LoadChunk(size)); Tracked(w', w'.run.value, k)
  {
    var w' := Step(w, LoadChunk(size));
    var r, r' := w.run.value, w'.run.value;
    assert Tracked(w, r, k);
    if w.source[k].stamp.Some? {
      if Awaited(r, w.source[k]) {
        var i :| r.next <= i < |r.order| && r.order[i] == w.source[k];
        if i < r'.next {
          ChunkAt(w.target, r.order, r.next, r'.next, i);
        } else {
          assert Awaited(r', w.source[k]);
        }
      } else if Agrees(w, k) && !Pending(r, k) {
        ChunkSpares(w.target, r.order, r.next, r'.next, k);
      }
    }
  }

  lemma ChunkRewrites(w: World, size: nat, k: Key, i: nat)
    requires w.run.Some? && RunOk(w, w.run.value)
    requires k in w.source && Tracked(w, w.run.value, k)
    requires w.run.value.next <= i < ChunkEnd(w.run.value, size) && w.run.value.order[i].row.key == k
    requires w.source[k].row.key == k && w.source[k].stamp.Some? && !FreshStamp(w, w.source[k].stamp.value)
    ensures Agrees(Step(w, LoadChunk(size)), k)
  {
    var r := w.run.value;
    assert Pending(r, k);
    var j :| r.next <= j < |r.order| && r.order[j] == w.source[k];
    assert i == j;
    ChunkAt(w.target, r.order, r.next, ChunkEnd(r, size), i);
  }

  /** Loading an old snapshot row over a newer one leaves the newer one to be read again. */
  lemma ChunkKeepsCovered(w: World, size: nat, k: Key, v: Option<int>)
    requires w.run.Some? && RunOk(w, w.run.value) && size >= 1 && NotBelow(w.high, v)
    requires k in w.source && w.source[k].row.key == k && Covered(w, k, v)
    ensures Covered(Step(w, LoadChunk(size)), k, v)
  {
    var r := w.run.value;
    var end := ChunkEnd(r, size);
    assert Tracked(w, r, k);
    if w.source[k].stamp.Some? && !FreshStamp(w, w.source[k].stamp.value) {
      if i :| r.next <= i < end && r.order[i].row.key == k {
        ChunkRewrites(w, size, k, i);
      } else if Agrees(w, k) {
        ChunkSpares(w.target, r.order, r.next, end, k);
      }
    }
  }

  lemma ChunkKeeps(w: World, size: nat)
    requires Inv(w) && Enabled(w, LoadChunk(size))
    ensures Inv(Step(w, LoadChunk(size)))
  {
    var w' := Step(w, LoadChunk(size));
    var r, r' := w.run.value, w'.run.value;
    Slices.TakeThenSlice(r.order, r.next, r'.next);
    MaxStampConcat(None, r.order[..r.next], r.order[r.next..r'.next]);
    forall k | k in w'.source ensures Tracked(w', r', k) {
      ChunkKeepsTracked(w, size, k);
    }
    forall v | v in w'.past ensures NotBelow(w'.high, v) && CaughtUp(w', v) {
      ChunkKeepsAll(w, size, v);
    }
  }

  lemma ChunkKeepsAll(w: World, size: nat, v: Option<int>)
    requires Inv(w) && Enabled(w, LoadChunk(size)) && v in w.past
    ensures CaughtUp(Step(w, LoadChunk(size)), v)
  {
    assert CaughtUp(w, v);
    forall k | k in w.source ensures Covered(Step(w, LoadChunk(size)), k, v) {
      assert Covered(w, k, v);
      ChunkKeepsCovered(w, size, k, v);
    }
  }

  /** Rows a cancelled run leaves unloaded although they are current and the target lacks them. */
  ghost predicate LeftBehind(w: World, i: int)
    requires w.run.Some?
  {
    var r := w.run.value;
    && r.next <= i < |r.order|
    && r.order[i].stamp.Some?
    && r.order[i].row.key in w.source && w.source[r.order[i].row.key] == r.order[i]
    && !Agrees(w, r.order[i].row.key)
  }

  /** Ending a run early is safe exactly when each row it leaves behind is stamped at or above
      the largest stamp it has loaded. */
  lemma EarlyEndExactly(w: World)
    requires Inv(w) && w.run.Some?
    ensures Inv(EndRun(w)) <==>
      forall i :: LeftBehind(w, i) ==> Selected(w.run.value.candidate, w.run.value.order[i])
  {
    var r, w' := w.run.value, EndRun(w);
    forall v | v in w.past ensures CaughtUp(w', v) {
      assert CaughtUp(w, v);
      forall k | k in w.source ensures Covered(w', k, v) {
        assert Covered(w, k, v);
      }
    }
    LoadedBelowHigh(w);
    if r.candidate.Some? {
      if forall i :: LeftBehind(w, i) ==> Selected(r.candidate, r.order[i]) {
        forall k | k in w.source ensures Covered(w', k, r.candidate) {
          EndedAt(w, k);
        }
        assert CaughtUp(w', r.candidate);
      } else {
        var i :| LeftBehind(w, i) && !Selected(r.candidate, r.order[i]);
        assert !Covered(w', r.order[i].row.key, r.candidate);
      }
    }
  }

  lemma LoadedBelowHigh(w: World)
    requires w.run.Some? && RunOk(w, w.run.value)
    ensures NotBelow(w.high, w.run.value.candidate)
  {
    var r := w.run.value;
    if r.candidate.Some? {
      var i :| 0 <= i < r.next && r.order[..r.next][i].stamp == r.candidate;
      assert r.order[i].stamp == r.candidate;
    }
  }

  lemma EndedAt(w: World, k: Key)
    requires Inv(w) && w.run.Some? && k in w.source
    requires forall i :: LeftBehind(w, i) ==> Selected(w.run.value.candidate, w.run.value.order[i])
    ensures Covered(EndRun(w), k, w.run.value.candidate)
  {
    var r, s := w.run.value, w.source[k];
    assert Tracked(w, r, k);
    LoadedBelowHigh(w);
    if s.stamp.Some? && !Agrees(w, k) && Awaited(r, s) {
      var i :| r.next <= i < |r.order| && r.order[i] == s;
      assert LeftBehind(w, i);
    }
  }

  lemma FinishKeeps(w: World)
    requires Inv(w) && Enabled(w, Finish)
    ensures Inv(EndRun(w))
  {
    EarlyEndExactly(w);
  }

  /** In stamp order, ties included, nothing left behind lies below the loaded maximum. */
  lemma CancelKeeps(w: World)
    requires Inv(w) && w.run.Some?
    requires var order := w.run.value.order;
      forall i, j :: 0 <= i < j < |order| && order[i].stamp.Some? && order[j].stamp.Some? ==> order[i].stamp.value <= order[j].stamp.value
    ensures Inv(EndRun(w))
  {
    var r := w.run.value;
    EarlyEndExactly(w);
    forall i | LeftBehind(w, i) ensures Selected(r.candidate, r.order[i]) {
      assert forall j :: 0 <= j < r.next ==> r.order[..r.next][j] == r.order[j];
    }
  }

  /** A run that raises part-way has committed some chunks and moved no watermark. */
  lemma FailKeeps(w: World)
    requires Inv(w) && Enabled(w, Fail)
    ensures Inv(Step(w, Fail))
  {
    var w' := Step(w, Fail);
    forall v | v in w'.past ensures CaughtUp(w', v) {
      assert CaughtUp(w, v);
      forall k | k in w.source ensures Covered(w', k, v) {
        assert Covered(w, k, v);
      }
    }
  }

  lemma StepKeeps(w: World, e: Event)
    requires Inv(w) && Enabled(w, e) && OrderedCancel(w, e)
    ensures Inv(Step(w, e))
  {
    match e
    case Put(_) => SourceChangeKeeps(w, e);
    case Remove(_) => SourceChangeKeeps(w, e);
    case Start(order, seen) => StartKeeps(w, order, seen);
    case LoadChunk(size) => ChunkKeeps(w, size);
    case Finish => FinishKeeps(w);
    case Cancel => CancelKeeps(w);
    case Fail => FailKeeps(w);
  }

  // ---------- main results ----------

  /** No row is ever missed: over every interleaving of source changes with runs that finish,
      raise part-way, or are cancelled while reading in stamp order, and whichever earlier
      watermark each run has read. */
  lemma {:induction false} NothingIsMissed(w: World, es: seq<Event>)
    requires Inv(w) && Plays(w, es) && OrderedCancels(w, es)
    ensures Inv(Play(w, es))
    decreases |es|
  {
    if es != [] {
      StepKeeps(w, es[0]);
      NothingIsMissed(Step(w, es[0]), es[1..]);
    }
  }

  /** A fresh job, whatever the target holds, starts inside the invariant. */
  lemma FreshJobIsFine(source: Source, target: Table)
    requires forall k :: k in source ==> source[k].row.key == k
    ensures Inv(World(source, target, None, None, {None}, None))
  {
  }

  lemma LoadsJoin(t: Table, m: Option<int>, order: seq<SourceRow>, a: nat, b: nat, c: nat)
    requires a <= b <= c <= |order|
    ensures Override(Override(t, RowsOf(order[a..b])), RowsOf(order[b..c])) == Override(t, RowsOf(order[a..c]))
    ensures MaxStamp(MaxStamp(m, order[a..b]), order[b..c]) == MaxStamp(m, order[a..c])
  {
    assert order[a..b] + order[b..c] == order[a..c];
    assert RowsOf(order[a..b]) + RowsOf(order[b..c]) == RowsOf(order[a..c]);
    OverrideConcat(t, RowsOf(order[a..b]), RowsOf(order[b..c]));
    MaxStampConcat(m, order[a..b], order[b..c]);
  }

  /** What happens between a run's SELECT and its end: chunks, and source changes among them. */
  ghost predicate During(es: seq<Event>) {
    forall e :: e in es ==> e.LoadChunk? || e.Put? || e.Remove?
  }

  /** w is w0 with the run's rows up to `next` loaded; the source may have changed. */
  ghost predicate LoadedTo(w0: World, w: World, next: nat)
    requires w0.run.Some?
  {
    var r := w0.run.value;
    && r.next <= next <= |r.order|
    && w.run == Some(Run(r.order, next, MaxStamp(r.candidate, r.order[r.next..next]), r.seen))
    && w.target == Override(w0.target, RowsOf(r.order[r.next..next]))
    && w.watermark == w0.watermark && w.past == w0.past && w.high == w0.high
  }

  lemma LoadedStart(w: World)
    requires w.run.Some? && w.run.value.next <= |w.run.value.order|
    ensures LoadedTo(w, w, w.run.value.next)
  {
    assert w.run.value.order[w.run.value.next..w.run.value.next] == [];
  }

  /** How many of a run's rows are loaded after its chunks among the events. */
  function LoadedBy(all: nat, next: nat, es: seq<Event>): (n: nat)
    requires next <= all
    ensures next <= n <= all
    decreases |es|
  {
    if es == [] then next
    else LoadedBy(all, if es[0].LoadChunk? then Min(next + es[0].size, all) else next, es[1..])
  }

  lemma NextEvent(w: World, es: seq<Event>)
    requires Plays(w, es) && During(es) && es != []
    ensures Enabled(w, es[0]) && (es[0].LoadChunk? || es[0].Put? || es[0].Remove?) && During(es[1..])
  {
    assert es[0] in es;
    forall e | e in es[1..] ensures e in es {
    }
  }

  lemma NextState(w: World, e: Event)
    requires w.run.Some? && w.run.value.next <= |w.run.value.order|
    requires Enabled(w, e) && (e.LoadChunk? || e.Put? || e.Remove?)
    ensures var w1 := Step(w, e);
            && w1.run.Some? && w1.run.value.order == w.run.value.order
            && w1.run.value.next == if e.LoadChunk? then Min(w.run.value.next + e.size, |w.run.value.order|) else w.run.value.next
  {
  }

  /** What is loaded after the next event, seen from before it. */
  lemma LoadedOn(w: World, e: Event, mid: World, next: nat)
    requires w.run.Some? && w.run.value.next <= |w.run.value.order|
    requires Enabled(w, e) && (e.LoadChunk? || e.Put? || e.Remove?) && LoadedTo(Step(w, e), mid, next)
    ensures LoadedTo(w, mid, next)
  {
    var r, w1 := w.run.value, Step(w, e);
    if e.LoadChunk? {
      LoadsJoin(w.target, r.candidate, r.order, r.next, w1.run.value.next, next);
    }
  }

  /** Loading a snapshot chunk by chunk is loading it at once, whatever the source does in
      between. */
  lemma {:induction false} ChunksAreOneLoad(w: World, es: seq<Event>)
    requires w.run.Some? && w.run.value.next <= |w.run.value.order|
    requires Plays(w, es) && During(es)
    ensures LoadedTo(w, Play(w, es), LoadedBy(|w.run.value.order|, w.run.value.next, es))
    decreases |es|
  {
    if es == [] {
      LoadedStart(w);
      assert Play(w, es) == w;
    } else {
      NextEvent(w, es);
      NextState(w, es[0]);
      ChunksAreOneLoad(Step(w, es[0]), es[1..]);
      LoadedOn(w, es[0], Play(w, es), LoadedBy(|w.run.value.order|, w.run.value.next, es));
    }
  }

  function Loads(sizes: seq<nat>): (es: seq<Event>)
    ensures |es| == |sizes|
  {
    seq(|sizes|, i requires 0 <= i < |sizes| => LoadChunk(sizes[i]))
  }

  /** A whole run with whatever the source does during it. */
  function WholeRun(order: seq<SourceRow>, seen: Option<int>, es: seq<Event>, end: Event): seq<Event> {
    [Start(order, seen)] + es + [end]
  }

  lemma PlaySplits(w: World, order: seq<SourceRow>, seen: Option<int>, es: seq<Event>, end: Event)
    requires Plays(w, WholeRun(order, seen, es, end))
    ensures Enabled(w, Start(order, seen))
    ensures var w1 := Step(w, Start(order, seen));
      Plays(w1, es) && Enabled(Play(w1, es), end) && Play(w, WholeRun(order, seen, es, end)) == Step(Play(w1, es), end)
  {
    var all := WholeRun(order, seen, es, end);
    assert all[0] == Start(order, seen) && all[1..] == es + [end];
    var w1 := Step(w, Start(order, seen));
    PlayConcat(w1, es, [end]);
    var mid := Play(w1, es);
    assert [end][0] == end && [end][1..] == [];
    assert Play(mid, [end]) == Step(mid, end);
  }

  /** The state right before the end of a run. */
  lemma BeforeEnd(w: World, order: seq<SourceRow>, seen: Option<int>, es: seq<Event>, end: Event) returns (mid: World, next: nat)
    requires Plays(w, WholeRun(order, seen, es, end)) && During(es)
    ensures next == LoadedBy(|order|, 0, es)
    ensures LoadedTo(Step(w, Start(order, seen)), mid, next) && Enabled(mid, end)
    ensures Play(w, WholeRun(order, seen, es, end)) == Step(mid, end)
  {
    PlaySplits(w, order, seen, es, end);
    var w1 := Step(w, Start(order, seen));
    ChunksAreOneLoad(w1, es);
    mid := Play(w1, es);
    next := LoadedBy(|order|, 0, es);
  }

  /** A finished run leaves the target equal to the snapshot it read on the snapshot's keys,
      and untouched elsewhere. */
  lemma FinishedRunMatchesSnapshot(w: World, order: seq<SourceRow>, seen: Option<int>, es: seq<Event>)
    requires Plays(w, WholeRun(order, seen, es, Finish)) && During(es)
    ensures var w' := Play(w, WholeRun(order, seen, es, Finish));
      && (forall i :: 0 <= i < |order| ==> order[i].row.key in w'.target && w'.target[order[i].row.key] == order[i].row)
      && (forall k :: k in w.target && k !in KeySet(RowsOf(order)) ==> k in w'.target && w'.target[k] == w.target[k])
  {
    var mid, next := BeforeEnd(w, order, seen, es, Finish);
    assert order[0..|order|] == order;
    var t' := Override(w.target, RowsOf(order));
    assert DistinctKeys(RowsOf(order));
    forall i | 0 <= i < |order| ensures order[i].row.key in t' && t'[order[i].row.key] == order[i].row {
      ChunkAt(w.target, order, 0, |order|, i);
    }
    forall k | k in w.target && k !in KeySet(RowsOf(order)) ensures k in t' && t'[k] == w.target[k] {
      OverrideAt(w.target, RowsOf(order), k);
    }
  }

  lemma {:induction false} PlayConcat(w: World, p: seq<Event>, q: seq<Event>)
    requires Plays(w, p + q)
    ensures Plays(w, p) && Plays(Play(w, p), q)
    ensures Play(w, p + q) == Play(Play(w, p), q)
    decreases |p|
  {
    if p == [] {
      assert p + q == q;
    } else {
      assert (p + q)[1..] == p[1..] + q;
      PlayConcat(Step(w, p[0]), p[1..], q);
    }
  }

  /** A finished run repairs everything its SELECT could see, even from a stale watermark: every
      source row that was stamped at the SELECT is then in the target as it was. */
  lemma FinishedRunSynchronises(w: World, order: seq<SourceRow>, seen: Option<int>, es: seq<Event>, k: Key)
    requires Inv(w) && Plays(w, WholeRun(order, seen, es, Finish)) && During(es)
    requires k in w.source && w.source[k].stamp.Some?
    ensures var w' := Play(w, WholeRun(order, seen, es, Finish)); k in w'.target && w'.target[k] == w.source[k].row
  {
    FinishedRunMatchesSnapshot(w, order, seen, es);
    assert WholeRun(order, seen, es, Finish)[0] == Start(order, seen);
    assert CaughtUp(w, seen) && Covered(w, k, seen);
    if Selected(seen, w.source[k]) {
      var i :| 0 <= i < |order| && order[i] == w.source[k];
    } else {
      var j := FirstIndex(RowsOf(order), k);
    }
  }

  /** A row with a NULL stamp arrives only with a first run, one that has read no watermark. */
  lemma UnstampedArrivesExactly(w: World, order: seq<SourceRow>, seen: Option<int>, es: seq<Event>, k: Key)
    requires Inv(w) && Plays(w, WholeRun(order, seen, es, Finish)) && During(es)
    requires k in w.source && w.source[k].stamp.None? && k !in w.target
    ensures k in Play(w, WholeRun(order, seen, es, Finish)).target <==> seen.None?
  {
    PlaySplits(w, order, seen, es, Finish);
    FinishedTable(w, order, seen, es);
    LoadsKey(w.source, w.target, seen, order, k);
  }

  lemma FinishedTable(w: World, order: seq<SourceRow>, seen: Option<int>, es: seq<Event>)
    requires Plays(w, WholeRun(order, seen, es, Finish)) && During(es)
    ensures Play(w, WholeRun(order, seen, es, Finish)).target == Override(w.target, RowsOf(order))
  {
    var mid, next := BeforeEnd(w, order, seen, es, Finish);
    assert order[0..|order|] == order;
  }

  /** A key the target lacks is there after loading a snapshot exactly if its row was selected. */
  lemma LoadsKey(source: Source, t: Table, seen: Option<int>, order: seq<SourceRow>, k: Key)
    requires ReadsSnapshot(source, seen, order) && k in source && source[k].row.key == k && k !in t
    ensures k in Override(t, RowsOf(order)) <==> Selected(seen, source[k])
  {
    var rows := RowsOf(order);
    OverrideKeys(t, rows);
    if Selected(seen, source[k]) {
      var i :| 0 <= i < |order| && order[i] == source[k];
      assert order[0..|order|] == order;
      ChunkAt(t, order, 0, |order|, i);
    } else if k in KeySet(rows) {
      var i := FirstIndex(rows, k);
      assert false;
    }
  }

  // ---------- where the watermark goes ----------

  /** The state behind the last chunk, in terms of the state before the run. */
  predicate LoadedRun(w: World, mid: World, order: seq<SourceRow>, next: nat) {
    && next <= |order| && mid.run.Some? && mid.run.value.order == order && mid.run.value.next == next
    && mid.run.value.candidate == MaxStamp(None, order[..next])
    && mid.target == Override(w.target, RowsOf(order[..next])) && mid.watermark == w.watermark
  }

  lemma LoadedBehindStart(w: World, order: seq<SourceRow>, seen: Option<int>, mid: World, next: nat)
    requires LoadedTo(Step(w, Start(order, seen)), mid, next)
    ensures LoadedRun(w, mid, order, next)
  {
    assert order[0..next] == order[..next];
  }

  lemma EndLeaves(w: World, order: seq<SourceRow>, mid: World, next: nat, end: Event)
    requires (end.Finish? || end.Cancel?) && Enabled(mid, end) && LoadedRun(w, mid, order, next)
    ensures var w' := Step(mid, end); var m := MaxStamp(None, order[..next]);
            && w'.target == Override(w.target, RowsOf(order[..next])) && w'.watermark == Advance(w.watermark, m)
            && (!NotBelow(w'.watermark, w.watermark) <==> m.Some? && w.watermark.Some? && m.value < w.watermark.value)
    ensures end.Finish? ==> order[..next] == order
  {
  }

  /** A run that ends, finished or cancelled, leaves the largest stamp among the rows its chunks
      have loaded, if any is stamped. So it takes the watermark back exactly if that stamp is
      below the watermark found at the claim. */
  lemma TakesBackExactly(w: World, order: seq<SourceRow>, seen: Option<int>, es: seq<Event>, end: Event)
    requires (end.Finish? || end.Cancel?) && During(es) && Plays(w, WholeRun(order, seen, es, end))
    ensures var w' := Play(w, WholeRun(order, seen, es, end));
            var loaded := order[..LoadedBy(|order|, 0, es)];
            var m := MaxStamp(None, loaded);
            && (end.Finish? ==> loaded == order)
            && w'.target == Override(w.target, RowsOf(loaded)) && w'.watermark == Advance(w.watermark, m)
            && (!NotBelow(w'.watermark, w.watermark) <==> m.Some? && w.watermark.Some? && m.value < w.watermark.value)
  {
    var mid, next := BeforeEnd(w, order, seen, es, end);
    LoadedBehindStart(w, order, seen, mid, next);
    EndLeaves(w, order, mid, next, end);
  }

  /** For a finished run the condition can be read off the source at the SELECT: some selected
      row is stamped, and each of them below the watermark at the claim. */
  lemma FinishTakesBackExactly(w: World, order: seq<SourceRow>, seen: Option<int>, es: seq<Event>)
    requires During(es) && Plays(w, WholeRun(order, seen, es, Finish))
    requires w.watermark.Some?
    ensures !NotBelow(Play(w, WholeRun(order, seen, es, Finish)).watermark, w.watermark) <==>
            && (exists k :: k in w.source && w.source[k].stamp.Some? && Selected(seen, w.source[k]))
            && (forall k :: k in w.source && w.source[k].stamp.Some? && Selected(seen, w.source[k]) ==>
                  w.source[k].stamp.value < w.watermark.value)
  {
    var mid, next := BeforeEnd(w, order, seen, es, Finish);
    assert WholeRun(order, seen, es, Finish)[0] == Start(order, seen);
    assert order[0..|order|] == order;
    var m := MaxStamp(None, order);
    if k :| k in w.source && w.source[k].stamp.Some? && Selected(seen, w.source[k]) {
      var i :| 0 <= i < |order| && order[i] == w.source[k];
      assert m.Some?;
    }
    if m.Some? {
      var i :| 0 <= i < |order| && order[i].stamp == m;
      assert w.source[order[i].row.key].stamp == m;
      if k :| k in w.source && w.source[k].stamp.Some? && Selected(seen, w.source[k]) && w.source[k].stamp.value >= w.watermark.value {
        var j :| 0 <= j < |order| && order[j] == w.source[k];
      }
    }
  }

  /** Every run of the play reads the watermark it finds at its claim. */
  ghost predicate FreshStarts(w: World, es: seq<Event>)
    requires Plays(w, es)
    decreases |es|
  {
    es == [] || ((es[0].Start? ==> es[0].seen == w.watermark) && FreshStarts(Step(w, es[0]), es[1..]))
  }

  ghost predicate RunAbove(w: World) {
    w.run.Some? ==>
      && w.run.value.next <= |w.run.value.order|
      && (forall i :: 0 <= i < |w.run.value.order| ==> Selected(w.watermark, w.run.value.order[i]))
      && (w.run.value.candidate.Some? && w.watermark.Some? ==> w.run.value.candidate.value >= w.watermark.value)
  }

  /** Where no run interleaves with another's reading, the watermark never goes back, unordered
      cancels and arbitrary source changes included. */
  lemma {:induction false} WatermarkNeverDecreases(w: World, es: seq<Event>)
    requires RunAbove(w) && Plays(w, es) && FreshStarts(w, es)
    ensures NotBelow(Play(w, es).watermark, w.watermark)
    ensures RunAbove(Play(w, es))
    decreases |es|
  {
    if es != [] {
      var w' := Step(w, es[0]);
      if es[0].LoadChunk? {
        var r := w.run.value;
        var chunk := r.order[r.next..ChunkEnd(r, es[0].size)];
        assert forall i :: 0 <= i < |chunk| ==> chunk[i] == r.order[r.next + i];
        assert forall i :: 0 <= i < |chunk| ==> Selected(w.watermark, chunk[i]);
      }
      WatermarkNeverDecreases(w', es[1..]);
    }
  }

  const LEFT := SourceRow(Row([Some("a")], map[]), Some(3))
  const OVERTAKEN := World(map[LEFT.row.key := LEFT], map[LEFT.row.key := LEFT.row], Some(5), None, {Some(1), Some(5)}, Some(5))

  lemma OvertakenIsFine()
    ensures Inv(OVERTAKEN) && Enabled(OVERTAKEN, Start([LEFT], Some(1)))
  {
    assert [LEFT][0] == LEFT;
    assert ReadsSnapshot(OVERTAKEN.source, Some(1), [LEFT]);
  }

  lemma OvertakenLoads()
    ensures var w := Step(Step(OVERTAKEN, Start([LEFT], Some(1))), LoadChunk(1));
      w.run == Some(Run([LEFT], 1, Some(3), Some(1))) && w.watermark == Some(5)
  {
    assert [LEFT][0..1] == [LEFT];
    assert MaxStamp(None, [LEFT]) == Some(3);
  }

  /** The failing case: a run has read watermark 1, another one stored 5, the row stamped 5 was
      deleted, and the first run then stores 3. Nothing is lost by it. */
  lemma StaleRunTakesItBack()
    ensures exists w: World, es: seq<Event> ::
              Inv(w) && Plays(w, es) && OrderedCancels(w, es) && w.watermark == Some(5) && Play(w, es).watermark == Some(3)
              && Inv(Play(w, es))
  {
    var start, load := Start([LEFT], Some(1)), LoadChunk(1);
    OvertakenIsFine();
    OvertakenLoads();
    PlaySingle(OVERTAKEN, start);
    PlayAppend(OVERTAKEN, [start], load);
    PlayAppend(OVERTAKEN, [start] + [load], Finish);
    var es := [start] + [load] + [Finish];
    assert Play(OVERTAKEN, es).watermark == Some(3);
    OrderedWithoutCancel(OVERTAKEN, es);
    NothingIsMissed(OVERTAKEN, es);
  }

  lemma {:induction false} OrderedWithoutCancel(w: World, es: seq<Event>)
    requires Plays(w, es) && forall e :: e in es ==> !e.Cancel?
    ensures OrderedCancels(w, es)
    decreases |es|
  {
    if es != [] {
      assert es[0] in es;
      assert forall e :: e in es[1..] ==> e in es;
      OrderedWithoutCancel(Step(w, es[0]), es[1..]);
    }
  }

  // ---------- where the promise stops ----------

  const NEWER := SourceRow(Row([Some("a")], map[]), Some(2))
  const OLDER := SourceRow(Row([Some("b")], map[]), Some(1))
  const PAIR := World(map[NEWER.row.key := NEWER, OLDER.row.key := OLDER], map[], None, None, {None}, None)

  lemma PairIsRead()
    ensures NEWER.row.key != OLDER.row.key
    ensures Enabled(PAIR, Start([NEWER, OLDER], None))
  {
    assert NEWER.row.key[0] != OLDER.row.key[0];
    var order := [NEWER, OLDER];
    assert order[0] == NEWER && order[1] == OLDER;
  }

  lemma PairHalfLoaded()
    ensures var w := Step(PAIR, Start([NEWER, OLDER], None));
      Step(w, LoadChunk(1)) ==
        World(PAIR.source, map[NEWER.row.key := NEWER.row], None, Some(Run([NEWER, OLDER], 1, Some(2), None)), {None}, w.high)
  {
    var order := [NEWER, OLDER];
    assert order[0..1] == [NEWER];
    assert RowsOf([NEWER]) == [NEWER.row];
    assert Override(map[], [NEWER.row]) == map[NEWER.row.key := NEWER.row];
    assert MaxStamp(None, [NEWER]) == Some(2);
  }

  /** Without stamp order a cancelled run can lose a row: the newer row is loaded, the older
      one is not, and the watermark passes it. */
  lemma UnorderedCancelLosesARow()
    ensures var es := [Start([NEWER, OLDER], None), LoadChunk(1), Cancel];
      Plays(PAIR, es) && !CaughtUp(Play(PAIR, es), Play(PAIR, es).watermark)
  {
    var es := [Start([NEWER, OLDER], None), LoadChunk(1), Cancel];
    PairIsRead();
    PairHalfLoaded();
    var w1 := Step(PAIR, es[0]);
    var w2 := Step(w1, LoadChunk(1));
    assert es[1..] == [LoadChunk(1), Cancel] && es[1..][1..] == [Cancel];
    assert Play(w2, [Cancel]) == EndRun(w2);
    assert Play(w1, es[1..]) == Play(w2, [Cancel]);
    assert !Covered(EndRun(w2), OLDER.row.key, Some(2));
  }

  /** A change stamped below the watermark, as a transaction that commits late produces, is
      missed exactly when the target does not already have that row. */
  lemma LateStampExactly(w: World, r: SourceRow)
    requires Inv(w) && w.run.None? && w.watermark.Some?
    requires r.stamp.Some? && r.stamp.value < w.watermark.value
    ensures CaughtUp(Step(w, Put(r)), w.watermark) <==> r.row.key in w.target && w.target[r.row.key] == r.row
  {
    var w' := Step(w, Put(r));
    assert CaughtUp(w, w.watermark);
    assert Covered(w', r.row.key, w.watermark) <==> r.row.key in w.target && w.target[r.row.key] == r.row;
    forall k | k in w'.source && k != r.row.key ensures Covered(w', k, w.watermark) {
      assert Covered(w, k, w.watermark);
    }
  }

  // ---------- the job itself ----------

  const DEFAULT_BATCH := 10000
  const MYSQL_BATCH_SIZE_CAP := 10000

  /** Rows per fetch: the configured size, 10000 when unset, and capped for MySQL. */
  function EffectiveBatchSize(configured: int, mysql: bool): (size: nat)
    ensures size >= 1
    ensures mysql ==> size <= MYSQL_BATCH_SIZE_CAP
    ensures configured > 0 && (!mysql || configured <= MYSQL_BATCH_SIZE_CAP) ==> size == configured
    ensures configured <= 0 || (mysql && configured > 10000) ==> size == 10000
  {
    var size := if configured > 0 then configured else DEFAULT_BATCH;
    if mysql && size > MYSQL_BATCH_SIZE_CAP then MYSQL_BATCH_SIZE_CAP else size
  }

  datatype Outcome = Completed | Cancelled | Failed

  function EndEvent(o: Outcome): Event {
    match o
    case Completed => Finish
    case Cancelled => Cancel
    case Failed => Fail
  }

  lemma PlayAppend(w: World, es: seq<Event>, e: Event)
    requires Plays(w, es) && Enabled(Play(w, es), e)
    ensures Plays(w, es + [e]) && Play(w, es + [e]) == Step(Play(w, es), e)
    decreases |es|
  {
    if es == [] {
      assert Play(Step(w, e), []) == Step(w, e);
    } else {
      assert (es + [e])[1..] == es[1..] + [e];
      PlayAppend(Step(w, es[0]), es[1..], e);
    }
  }

  lemma PlaySingle(w: World, e: Event)
    requires Enabled(w, e)
    ensures Plays(w, [e]) && Play(w, [e]) == Step(w, e)
  {
    assert Play(w, []) == w;
    PlayAppend(w, [], e);
    assert [] + [e] == [e];
  }

  function RunEvents(order: seq<SourceRow>, seen: Option<int>, sizes: seq<nat>): seq<Event> {
    [Start(order, seen)] + Loads(sizes)
  }

  /** Starting in w0 and loading chunks of the given sizes leads to w. */
  ghost predicate Reaches(w0: World, order: seq<SourceRow>, seen: Option<int>, sizes: seq<nat>, w: World) {
    Plays(w0, RunEvents(order, seen, sizes)) && Play(w0, RunEvents(order, seen, sizes)) == w
  }

  /** A whole run: start, chunks, and the given end, leading from w0 to w. */
  ghost predicate Ends(w0: World, order: seq<SourceRow>, seen: Option<int>, sizes: seq<nat>, outcome: Outcome, w: World) {
    exists mid :: Reaches(w0, order, seen, sizes, mid) && Enabled(mid, EndEvent(outcome)) && Step(mid, EndEvent(outcome)) == w
  }

  lemma ReachStart(w0: World, order: seq<SourceRow>, seen: Option<int>)
    requires Enabled(w0, Start(order, seen))
    ensures Reaches(w0, order, seen, [], Step(w0, Start(order, seen)))
  {
    PlaySingle(w0, Start(order, seen));
    assert RunEvents(order, seen, []) == [Start(order, seen)];
  }

  lemma RunEventsAppend(order: seq<SourceRow>, seen: Option<int>, sizes: seq<nat>, size: nat)
    ensures RunEvents(order, seen, sizes + [size]) == RunEvents(order, seen, sizes) + [LoadChunk(size)]
  {
    assert Loads(sizes + [size]) == Loads(sizes) + [LoadChunk(size)];
  }

  lemma ChunkStep(w: World, order: seq<SourceRow>, next: nat, c: Option<int>, seen: Option<int>, size: nat)
    requires w.run == Some(Run(order, next, c, seen)) && next < |order| && size >= 1
    ensures Enabled(w, LoadChunk(size))
    ensures var end := Min(next + size, |order|);
      Step(w, LoadChunk(size)) ==
        w.(target := Override(w.target, RowsOf(order[next..end])), run := Some(Run(order, end, MaxStamp(c, order[next..end]), seen)))
  {
  }

  lemma ReachChunk(w0: World, order: seq<SourceRow>, seen: Option<int>, sizes: seq<nat>, w: World, next: nat, c: Option<int>, size: nat)
    requires w.run == Some(Run(order, next, c, seen)) && next < |order| && size >= 1
    requires Reaches(w0, order, seen, sizes, w)
    ensures var end := Min(next + size, |order|);
      Reaches(w0, order, seen, sizes + [size],
        w.(target := Override(w.target, RowsOf(order[next..end])), run := Some(Run(order, end, MaxStamp(c, order[next..end]), seen))))
  {
    ChunkStep(w, order, next, c, seen, size);
    RunEventsAppend(order, seen, sizes, size);
    PlayAppend(w0, RunEvents(order, seen, sizes), LoadChunk(size));
  }

  lemma ReachEnd(w0: World, order: seq<SourceRow>, seen: Option<int>, sizes: seq<nat>, outcome: Outcome, w: World, next: nat, c: Option<int>)
    requires w.run == Some(Run(order, next, c, seen)) && Reaches(w0, order, seen, sizes, w)
    requires outcome.Completed? ==> next == |order|
    ensures Ends(w0, order, seen, sizes, outcome, if outcome.Failed? then w.(run := None) else EndRun(w))
  {
    assert Enabled(w, EndEvent(outcome));
  }

  /** A run of the job is a play of the protocol, so every result about plays applies to it. */
  lemma RunIsAPlay(w0: World, order: seq<SourceRow>, seen: Option<int>, sizes: seq<nat>, outcome: Outcome, w: World)
    requires Ends(w0, order, seen, sizes, outcome, w)
    ensures var es := WholeRun(order, seen, Loads(sizes), EndEvent(outcome)); Plays(w0, es) && Play(w0, es) == w && During(Loads(sizes))
  {
    var mid :| Reaches(w0, order, seen, sizes, mid) && Enabled(mid, EndEvent(outcome)) && Step(mid, EndEvent(outcome)) == w;
    PlayAppend(w0, RunEvents(order, seen, sizes), EndEvent(outcome));
  }

  // ---------- the source may change meanwhile ----------

  /** The sizes of the chunks among the events of a run. */
  function ChunkSizes(es: seq<Event>): seq<nat> {
    if es == [] then []
    else
      var n := |es| - 1;
      ChunkSizes(es[..n]) + (if es[n].LoadChunk? then [es[n].size] else [])
  }

  lemma QuietStep(w: World, e: Event, source: Source)
    requires w.run.Some? && Enabled(w, e) && (e.LoadChunk? || e.Put? || e.Remove?)
    ensures e.LoadChunk? ==> Enabled(w.(source := source), e)
    ensures e.LoadChunk? ==> Step(w.(source := source), e) == Step(w, e).(source := source)
    ensures !e.LoadChunk? ==> Step(w, e).(source := source) == w.(source := source)
    ensures Step(w, e).run.Some?
  {
  }

  lemma {:induction false} QuietReaches(w0: World, order: seq<SourceRow>, seen: Option<int>, es: seq<Event>)
    requires Plays(w0, [Start(order, seen)] + es) && During(es)
    ensures Reaches(w0, order, seen, ChunkSizes(es), Play(w0, [Start(order, seen)] + es).(source := w0.source))
    ensures Play(w0, [Start(order, seen)] + es).run.Some?
    decreases |es|
  {
    var start := [Start(order, seen)];
    if es == [] {
      assert start + es == start && start[0] == Start(order, seen) && start[1..] == [];
      ReachStart(w0, order, seen);
      PlaySingle(w0, Start(order, seen));
    } else {
      var n := |es| - 1;
      var e, before := es[n], es[..n];
      assert start + es == (start + before) + [e];
      PlayConcat(w0, start + before, [e]);
      assert forall x :: x in before ==> x in es;
      QuietReaches(w0, order, seen, before);
      var w := Play(w0, start + before);
      assert [e][0] == e && [e][1..] == [];
      assert e in es && Enabled(w, e) && Play(w, [e]) == Step(w, e);
      QuietStep(w, e, w0.source);
      if e.LoadChunk? {
        RunEventsAppend(order, seen, ChunkSizes(before), e.size);
        PlayAppend(w0, RunEvents(order, seen, ChunkSizes(before)), e);
        assert ChunkSizes(es) == ChunkSizes(before) + [e.size];
      } else {
        assert ChunkSizes(es) == ChunkSizes(before);
      }
    }
  }

  /** What a run does to the table and the watermark does not depend on what happens to the
      source after its SELECT: with the source changes taken out, the run of the job ends the
      same, but for the source. */
  lemma RunIgnoresSourceChanges(w0: World, order: seq<SourceRow>, seen: Option<int>, es: seq<Event>, outcome: Outcome)
    requires Plays(w0, WholeRun(order, seen, es, EndEvent(outcome))) && During(es)
    ensures Ends(w0, order, seen, ChunkSizes(es), outcome,
                 Play(w0, WholeRun(order, seen, es, EndEvent(outcome))).(source := w0.source))
  {
    var start := [Start(order, seen)];
    PlayConcat(w0, start + es, [EndEvent(outcome)]);
    QuietReaches(w0, order, seen, es);
    var w := Play(w0, start + es);
    var mid := w.(source := w0.source);
    assert [EndEvent(outcome)][0] == EndEvent(outcome) && [EndEvent(outcome)][1..] == [];
    assert Play(w, [EndEvent(outcome)]) == Step(w, EndEvent(outcome));
    assert Enabled(mid, EndEvent(outcome));
    assert Step(mid, EndEvent(outcome)) == Step(w, EndEvent(outcome)).(source := w0.source);
  }

  // ---------- which end a run takes ----------

  /** The number of fetches that deliver rows: the last of them may be short. */
  function ChunksNeeded(rows: nat, size: nat): (n: nat)
    requires size >= 1
    ensures n == 0 <==> rows == 0
  {
    if rows == 0 then 0 else 1 + ChunksNeeded(rows - Min(size, rows), size)
  }

  /** Enough fetches for all rows, and one fewer would not do. */
  lemma {:induction false} ChunksFit(rows: nat, size: nat)
    requires size >= 1
    ensures rows <= ChunksNeeded(rows, size) * size
    ensures rows > 0 ==> (ChunksNeeded(rows, size) - 1) * size < rows
    decreases rows
  {
    if rows != 0 {
      var rest := rows - Min(size, rows);
      ChunksFit(rest, size);
      var n := ChunksNeeded(rest, size);
      assert (n + 1) * size == n * size + size && (n + 1 - 1) * size == n * size;
      if rest > 0 {
        assert (n - 1) * size == n * size - size;
      } else {
        assert n * size == 0;
      }
    }
  }

  /** The fetch loop behind a number of full chunks: `next` rows are loaded, the rest is needed. */
  predicate FetchedTo(all: nat, size: nat, chunks: nat, next: nat)
    requires size >= 1
  {
    next == Min(chunks * size, all) && chunks + ChunksNeeded(all - next, size) == ChunksNeeded(all, size)
  }

  lemma FetchedOneMore(all: nat, size: nat, chunks: nat, next: nat)
    requires size >= 1 && next < all && FetchedTo(all, size, chunks, next)
    ensures FetchedTo(all, size, chunks + 1, Min(next + size, all))
  {
    assert (chunks + 1) * size == chunks * size + size;
  }

  function Full(chunks: nat, size: nat): (sizes: seq<nat>)
    ensures |sizes| == chunks && forall i :: 0 <= i < chunks ==> sizes[i] == size
  {
    seq(chunks, _ => size)
  }

  /** The rows of the first full chunks, the last of which may be short. */
  function FirstRows(order: seq<SourceRow>, chunks: nat, size: nat): seq<SourceRow> {
    order[..Min(chunks * size, |order|)]
  }

  lemma {:induction false} LoadedByChunks(all: nat, next: nat, chunks: nat, size: nat)
    requires next <= all
    ensures LoadedBy(all, next, Loads(Full(chunks, size))) == Min(next + chunks * size, all)
    decreases chunks
  {
    if chunks != 0 {
      var es := Loads(Full(chunks, size));
      assert es[0] == LoadChunk(size) && es[1..] == Loads(Full(chunks - 1, size));
      LoadedByChunks(all, Min(next + size, all), chunks - 1, size);
      assert chunks * size == (chunks - 1) * size + size;
    }
  }

  /** The end of a run that has loaded these rows: it stores the largest stamp among them unless
      it raised or none of them is stamped. */
  ghost predicate Leaves(t0: Table, m0: Option<int>, outcome: Outcome, loaded: seq<SourceRow>, t: Table, m: Option<int>) {
    var largest := MaxStamp(None, loaded);
    t == Override(t0, RowsOf(loaded)) && m == if outcome.Failed? || largest.None? then m0 else largest
  }

  lemma RunLeaves(w0: World, order: seq<SourceRow>, seen: Option<int>, chunks: nat, size: nat, outcome: Outcome, w: World)
    requires Ends(w0, order, seen, Full(chunks, size), outcome, w)
    ensures Leaves(w0.target, w0.watermark, outcome, FirstRows(order, chunks, size), w.target, w.watermark)
  {
    var es := Loads(Full(chunks, size));
    RunIsAPlay(w0, order, seen, Full(chunks, size), outcome, w);
    var mid, next := BeforeEnd(w0, order, seen, es, EndEvent(outcome));
    LoadedByChunks(|order|, 0, chunks, size);
    LoadedBehindStart(w0, order, seen, mid, next);
    EndingLeaves(w0, order, mid, next, outcome);
  }

  lemma EndingLeaves(w0: World, order: seq<SourceRow>, mid: World, next: nat, outcome: Outcome)
    requires LoadedRun(w0, mid, order, next) && Enabled(mid, EndEvent(outcome))
    ensures var w := Step(mid, EndEvent(outcome)); Leaves(w0.target, w0.watermark, outcome, order[..next], w.target, w.watermark)
  {
    if !outcome.Failed? {
      EndLeaves(w0, order, mid, next, EndEvent(outcome));
    }
  }

  /** One more chunk of the fetch loop. */
  lemma FetchStep(w0: World, order: seq<SourceRow>, seen: Option<int>, chunks: nat, size: nat, w: World, next: nat, c: Option<int>)
    requires w.run == Some(Run(order, next, c, seen)) && next < |order| && size >= 1
    requires Reaches(w0, order, seen, Full(chunks, size), w)
    ensures var end := Min(next + size, |order|);
      Reaches(w0, order, seen, Full(chunks + 1, size),
        w.(target := Override(w.target, RowsOf(order[next..end])), run := Some(Run(order, end, MaxStamp(c, order[next..end]), seen))))
  {
    ReachChunk(w0, order, seen, Full(chunks, size), w, next, c, size);
    assert Full(chunks + 1, size) == Full(chunks, size) + [size];
  }

  /** Which of its three ends a run takes that polls for a cancel request before each of its
      fetches and needs n of them that deliver rows: the cancel counts only up to the poll before
      the empty fetch and wins over a failure of the fetch it precedes. */
  ghost predicate EndsAs(outcome: Outcome, n: nat, cancelAt: Option<nat>, failAt: Option<nat>) {
    && (outcome.Failed? <==> failAt.Some? && failAt.value <= n && (cancelAt.None? || failAt.value < cancelAt.value))
    && (outcome.Cancelled? <==> cancelAt.Some? && cancelAt.value <= n && (failAt.None? || cancelAt.value <= failAt.value))
  }

  /** The chunks that are loaded by then. */
  function ChunksBefore(outcome: Outcome, n: nat, cancelAt: Option<nat>, failAt: Option<nat>): nat
    requires outcome.Failed? ==> failAt.Some?
    requires outcome.Cancelled? ==> cancelAt.Some?
  {
    match outcome
    case Completed => n
    case Cancelled => cancelAt.value
    case Failed => failAt.value
  }

  /** The event numbered by `at`, if any, is still to come. */
  predicate Ahead(at: Option<nat>, chunks: nat) {
    at.Some? ==> at.value >= chunks
  }

  /** Where the fetch loop is left. */
  predicate LeavesLoop(outcome: Outcome, all: nat, chunks: nat, next: nat, cancelAt: Option<nat>, failAt: Option<nat>) {
    match outcome
    case Cancelled => cancelAt == Some(chunks)
    case Failed => cancelAt != Some(chunks) && failAt == Some(chunks)
    case Completed => cancelAt != Some(chunks) && failAt != Some(chunks) && next == all
  }

  /** The fetch loop at its head. */
  predicate Underway(all: nat, size: nat, chunks: nat, next: nat, cancelAt: Option<nat>, failAt: Option<nat>)
    requires size >= 1
  {
    FetchedTo(all, size, chunks, next) && Ahead(cancelAt, chunks) && Ahead(failAt, chunks)
  }

  lemma Onward(all: nat, size: nat, chunks: nat, next: nat, cancelAt: Option<nat>, failAt: Option<nat>)
    requires size >= 1 && next < all && Underway(all, size, chunks, next, cancelAt, failAt)
    requires cancelAt != Some(chunks) && failAt != Some(chunks)
    ensures Underway(all, size, chunks + 1, Min(next + size, all), cancelAt, failAt)
  {
    FetchedOneMore(all, size, chunks, next);
  }

  lemma LoopIsLeft(outcome: Outcome, all: nat, size: nat, chunks: nat, next: nat, cancelAt: Option<nat>, failAt: Option<nat>)
    requires size >= 1 && Underway(all, size, chunks, next, cancelAt, failAt)
    requires LeavesLoop(outcome, all, chunks, next, cancelAt, failAt)
    ensures EndsAs(outcome, ChunksNeeded(all, size), cancelAt, failAt)
    ensures chunks == ChunksBefore(outcome, ChunksNeeded(all, size), cancelAt, failAt)
  {
  }

  class DbBatchJob {
    const target: Target
    var watermark: Option<int>
    ghost var past: set<Option<int>>
    ghost var high: Option<int>

    constructor (t: Target)
      ensures target == t && watermark == None && past == {None} && high == None
    {
      target := t;
      watermark := None;
      past, high := {None}, None;
    }

    /** The world as this job sees it between two of its steps. */
    ghost function Now(source: Source, run: Option<Run>): World
      reads this, target
    {
      World(source, target.rows, watermark, run, past, high)
    }

    /** load_dataframe and the commit for one fetched chunk. */
    method LoadAndCommit(order: seq<SourceRow>, next: nat, end: nat) returns (inserted: int)
      requires next <= end <= |order| && DistinctSourceKeys(order)
      requires target.layout.Keyed(target.rows) && target.layout.FitAll(RowsOf(order))
      modifies target`rows
      ensures target.layout.Keyed(target.rows)
      ensures target.rows == Override(old(target.rows), RowsOf(order[next..end]))
      ensures |target.rows| == |old(target.rows)| + inserted
    {
      var rows := RowsOf(order[next..end]);
      assert forall i :: 0 <= i < |rows| ==> rows[i] == RowsOf(order)[next + i];
      var updated;
      inserted, updated := target.Upsert(rows);
    }

    /** A load whose commit or a later statement raises before it is committed. */
    method LoadAndRollBack(order: seq<SourceRow>, next: nat, end: nat)
      requires next <= end <= |order| && DistinctSourceKeys(order)
      requires target.layout.Keyed(target.rows) && target.layout.FitAll(RowsOf(order))
      modifies target`rows
      ensures target.rows == old(target.rows)
    {
      var before := target.rows;
      var inserted := LoadAndCommit(order, next, end);
      target.rows := before;
    }

    /** One turn of the fetch loop that delivers rows: load, commit, and take the largest stamp. */
    method LoadNext(order: seq<SourceRow>, seen: Option<int>, size: nat, source: Source, next: nat, candidate: Option<int>,
                    ghost chunks: nat, ghost w0: World)
      returns (end: nat, largest: Option<int>, inserted: int)
      requires size >= 1 && next < |order| && DistinctSourceKeys(order)
      requires target.layout.Keyed(target.rows) && target.layout.FitAll(RowsOf(order))
      requires Reaches(w0, order, seen, Full(chunks, size), Now(source, Some(Run(order, next, candidate, seen))))
      modifies target`rows
      ensures end == Min(next + size, |order|)
      ensures target.layout.Keyed(target.rows)
      ensures |target.rows| == |old(target.rows)| + inserted
      ensures Reaches(w0, order, seen, Full(chunks + 1, size), Now(source, Some(Run(order, end, largest, seen))))
    {
      FetchStep(w0, order, seen, chunks, size, Now(source, Some(Run(order, next, candidate, seen))), next, candidate);
      end := Min(next + size, |order|);
      inserted := LoadAndCommit(order, next, end);
      largest := MaxStamp(candidate, order[next..end]);
    }

    /** The fetch loop of a run that has just started in w0: it polls, fetches, loads and commits
        until one of its three ends. */
    method FetchLoop(order: seq<SourceRow>, seen: Option<int>, size: nat, cancelAt: Option<nat>, failAt: Option<nat>, loading: bool,
                     source: Source, ghost w0: World)
      returns (outcome: Outcome, inserted: int, candidate: Option<int>, next: nat, chunks: nat)
      requires size >= 1 && DistinctSourceKeys(order)
      requires target.layout.Keyed(target.rows) && target.layout.FitAll(RowsOf(order))
      requires Reaches(w0, order, seen, [], Now(source, Some(Run(order, 0, None, seen))))
      modifies target`rows
      ensures target.layout.Keyed(target.rows)
      ensures |target.rows| == |old(target.rows)| + inserted
      ensures Reaches(w0, order, seen, Full(chunks, size), Now(source, Some(Run(order, next, candidate, seen))))
      ensures LeavesLoop(outcome, |order|, chunks, next, cancelAt, failAt)
      ensures Underway(|order|, size, chunks, next, cancelAt, failAt)
    {
      inserted, candidate, next, chunks := 0, None, 0, 0;
      assert Full(0, size) == [];
      while true
        invariant 0 <= next <= |order|
        invariant Reaches(w0, order, seen, Full(chunks, size), Now(source, Some(Run(order, next, candidate, seen))))
        invariant target.layout.Keyed(target.rows)
        invariant |target.rows| == |old(target.rows)| + inserted
        invariant Underway(|order|, size, chunks, next, cancelAt, failAt)
        decreases |order| - next
      {
        if cancelAt == Some(chunks) {
          outcome := Cancelled;
          return;
        }
        if failAt == Some(chunks) {
          if loading {
            LoadAndRollBack(order, next, Min(next + size, |order|));
          }
          outcome := Failed;
          return;
        }
        if next == |order| {
          outcome := Completed;
          return;
        }
        Onward(|order|, size, chunks, next, cancelAt, failAt);
        var more;
        next, candidate, more := LoadNext(order, seen, size, source, next, candidate, chunks, w0);
        chunks, inserted := chunks + 1, inserted + more;
      }
    }

    /** One run that has read the watermark `seen`, over the rows its SELECT delivers. cancelAt is
        the poll that finds a cancel request, failAt the fetch or, with `loading`, the load that
        raises: what such a load did is rolled back. What the run does to the table and to the
        watermark is a play of the protocol: a start, some chunks, and one of its three ends. */
    method RunJob(order: seq<SourceRow>, seen: Option<int>, size: nat, cancelAt: Option<nat>, failAt: Option<nat>, loading: bool,
                  source: Source)
      returns (outcome: Outcome, inserted: int, ghost chunks: nat)
      requires size >= 1
      requires seen in past && ReadsSnapshot(source, seen, order)
      requires target.layout.Keyed(target.rows) && target.layout.FitAll(RowsOf(order))
      modifies this, target`rows
      ensures Ends(old(Now(source, None)), order, seen, Full(chunks, size), outcome, Now(source, None))
      ensures |target.rows| == |old(target.rows)| + inserted
      ensures EndsAs(outcome, ChunksNeeded(|order|, size), cancelAt, failAt)
      ensures chunks == ChunksBefore(outcome, ChunksNeeded(|order|, size), cancelAt, failAt)
      ensures Leaves(old(target.rows), old(watermark), outcome, FirstRows(order, chunks, size), target.rows, watermark)
    {
      ghost var w0 := Now(source, None);
      ReachStart(w0, order, seen);
      high := MaxStamp(high, order);
      var candidate, next, loaded;
      outcome, inserted, candidate, next, loaded := FetchLoop(order, seen, size, cancelAt, failAt, loading, source, w0);
      chunks := loaded;
      LoopIsLeft(outcome, |order|, size, chunks, next, cancelAt, failAt);
      ReachEnd(w0, order, seen, Full(chunks, size), outcome, Now(source, Some(Run(order, next, candidate, seen))), next, candidate);
      if !outcome.Failed? {
        if candidate.Some? {
          watermark := candidate;
        }
        past := past + {watermark};
      }
      RunLeaves(w0, order, seen, chunks, size, outcome, Now(source, None));
    }
  }
}
