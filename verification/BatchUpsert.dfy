/** The two-phase batched upsert of load_service_file: for each slice of the frame an
    INSERT .. DO NOTHING and, unless every row was new, an UPDATE .. FROM (VALUES ..) of the
    rows that really differ. */
module BatchUpsert {
  import opened Wrappers
  import opened Tables
  import Slices

  const BATCH_SIZE := 2000
  const MAX_PARAMS := 60000

  function Min(a: int, b: int): int {
    if a <= b then a else b
  }

  /** The largest row count whose parameters fit, but at least one row. */
  function CalcBatchSize(numColumns: int): (rows: int)
    ensures rows >= 1
    ensures 0 < numColumns <= MAX_PARAMS ==> numColumns * rows <= MAX_PARAMS < numColumns * (rows + 1)
    ensures numColumns > MAX_PARAMS ==> rows == 1
  {
    if numColumns <= 0 then BATCH_SIZE
    else
      var q := MAX_PARAMS / numColumns;
      assert MAX_PARAMS == q * numColumns + MAX_PARAMS % numColumns;
      if q >= 1 then q else 1
  }

  function EffectiveBatch(numColumns: int): (rows: int)
    ensures 1 <= rows <= BATCH_SIZE
  {
    Min(BATCH_SIZE, CalcBatchSize(numColumns))
  }

  /** No statement of a load exceeds the parameter limit, exactly for the column counts that
      fit the limit at all. */
  lemma ParamsWithinLimit(numColumns: int)
    requires numColumns > 0
    ensures (forall rows :: 0 <= rows <= EffectiveBatch(numColumns) ==> numColumns * rows <= MAX_PARAMS)
            <==> numColumns <= MAX_PARAMS
  {
    if numColumns <= MAX_PARAMS {
      forall rows | 0 <= rows <= EffectiveBatch(numColumns)
        ensures numColumns * rows <= MAX_PARAMS
      {
        Monotone(numColumns, rows, CalcBatchSize(numColumns));
      }
    } else {
      assert numColumns * 1 > MAX_PARAMS;
    }
  }

  lemma Monotone(c: int, a: int, b: int)
    requires c >= 0 && a <= b
    ensures c * a <= c * b
  {
  }

  // ---------- what one pass over a frame is for ----------

  /** Keys that were stored before and whose row the frame really changes. */
  function Changed(t: Table, frame: seq<Row>): set<Key> {
    set k | k in t.Keys && k in Override(t, frame) && Override(t, frame)[k] != t[k]
  }

  function Arrivals(t: Table, frame: seq<Row>): set<Key> {
    KeySet(frame) - t.Keys
  }

  // ---------- one batch ----------

  lemma IndexDistinct(rows: seq<Row>, i: int)
    requires DistinctKeys(rows) && 0 <= i < |rows|
    ensures rows[i].key in KeySet(rows)
    ensures LastIndex(rows, rows[i].key) == i && FirstIndex(rows, rows[i].key) == i
  {
    KeySetHas(rows, i);
  }

  lemma KeyedAfterOverride(l: Layout, t: Table, rows: seq<Row>)
    requires l.Keyed(t) && l.FitAll(rows)
    ensures l.Keyed(Override(t, rows))
  {
    OverrideKeys(t, rows);
    forall k | k in Override(t, rows) ensures l.Fits(Override(t, rows)[k]) && Override(t, rows)[k].key == k {
      OverrideAt(t, rows, k);
    }
  }

  lemma KeyedAfterInsert(l: Layout, t: Table, rows: seq<Row>)
    requires l.Keyed(t) && l.FitAll(rows)
    ensures l.Keyed(InsertDoNothing(t, rows))
  {
    InsertKeys(t, rows);
    forall k | k in InsertDoNothing(t, rows)
      ensures l.Fits(InsertDoNothing(t, rows)[k]) && InsertDoNothing(t, rows)[k].key == k
    {
      InsertAt(t, rows, k);
    }
  }

  lemma KeyedAfterUpdate(l: Layout, t: Table, rows: seq<Row>, t': Table)
    requires l.Keyed(t) && l.FitAll(rows) && UpdateFrom(l, t, rows, t')
    ensures l.Keyed(t')
  {
    forall k | k in t' ensures l.Fits(t'[k]) && t'[k].key == k {
      if k in HitKeys(l, t, rows) {
        var i :| Hits(l, t, rows, k, i) && t'[k] == l.Assign(t[k], rows[i]);
        AssignMeaning(l, t[k], rows[i]);
      }
    }
  }

  /** A distinct batch has at most one candidate for a stored row, and hits it iff they differ. */
  lemma OnlyHit(l: Layout, t: Table, rows: seq<Row>, k: Key, j: int)
    requires DistinctKeys(rows) && 0 <= j < |rows| && rows[j].key == k
    requires k in t && l.Fits(t[k]) && l.Fits(rows[j]) && t[k].key == k
    ensures Hit(l, t, rows, k) <==> t[k] != rows[j]
    ensures forall r :: TakesHit(l, t, rows, k, r) ==> r == rows[j]
  {
    AssignMeaning(l, t[k], rows[j]);
    assert forall i :: Hits(l, t, rows, k, i) ==> i == j;
    assert l.Distinct(t[k], rows[j]) ==> Hits(l, t, rows, k, j);
  }

  /** TwoPhases at one key. */
  lemma TwoPhasesAt(l: Layout, t: Table, rows: seq<Row>, t': Table, k: Key)
    requires l.Keyed(t) && l.FitAll(rows) && DistinctKeys(rows)
    requires UpdateFrom(l, InsertDoNothing(t, rows), rows, t')
    requires k in t || k in KeySet(rows)
    ensures k in t' && k in Override(t, rows) && t'[k] == Override(t, rows)[k]
    ensures k in HitKeys(l, InsertDoNothing(t, rows), rows) <==> k in Changed(t, rows)
  {
    var t1 := InsertDoNothing(t, rows);
    InsertAt(t, rows, k);
    OverrideAt(t, rows, k);
    var j := LastIndex(rows, k);
    if j >= 0 {
      IndexDistinct(rows, j);
      OnlyHit(l, t1, rows, k, j);
    } else {
      assert forall i :: !Hits(l, t1, rows, k, i);
    }
  }

  /** Insert-then-update of one distinct batch is Override, whichever row the UPDATE picks. */
  lemma TwoPhases(l: Layout, t: Table, rows: seq<Row>, t': Table)
    requires l.Keyed(t) && l.FitAll(rows) && DistinctKeys(rows)
    requires UpdateFrom(l, InsertDoNothing(t, rows), rows, t')
    ensures t' == Override(t, rows)
  {
    InsertKeys(t, rows);
    OverrideKeys(t, rows);
    forall k | k in t' ensures t'[k] == Override(t, rows)[k] {
      TwoPhasesAt(l, t, rows, t', k);
    }
  }

  /** The rows the UPDATE hits are exactly the really changed ones. */
  lemma TwoPhasesCount(l: Layout, t: Table, rows: seq<Row>, t': Table)
    requires l.Keyed(t) && l.FitAll(rows) && DistinctKeys(rows)
    requires UpdateFrom(l, InsertDoNothing(t, rows), rows, t')
    ensures HitKeys(l, InsertDoNothing(t, rows), rows) == Changed(t, rows)
  {
    var hits, changed := HitKeys(l, InsertDoNothing(t, rows), rows), Changed(t, rows);
    InsertKeys(t, rows);
    forall k ensures k in hits <==> k in changed {
      if k in t || k in KeySet(rows) {
        TwoPhasesAt(l, t, rows, t', k);
      }
    }
  }

  // ---------- composing batches ----------

  lemma {:induction false} OverrideConcat(t: Table, p: seq<Row>, q: seq<Row>)
    ensures Override(Override(t, p), q) == Override(t, p + q)
    decreases |p|
  {
    if p == [] {
      assert p + q == q;
    } else {
      assert (p + q)[1..] == p[1..] + q;
      OverrideConcat(t[p[0].key := p[0]], p[1..], q);
    }
  }

  lemma ArrivalsAdd(t: Table, p: seq<Row>, q: seq<Row>)
    ensures Arrivals(t, p + q) == Arrivals(t, p) + Arrivals(Override(t, p), q)
    ensures Arrivals(t, p) !! Arrivals(Override(t, p), q)
  {
    KeySetConcat(p, q);
    OverrideKeys(t, p);
  }

  /** The updates of two consecutive slices add up when no key is in both. */
  lemma ChangedAdd(t: Table, p: seq<Row>, q: seq<Row>)
    requires KeySet(p) !! KeySet(q)
    ensures Changed(t, p + q) == Changed(t, p) + Changed(Override(t, p), q)
    ensures Changed(t, p) !! Changed(Override(t, p), q)
  {
    var m := Override(t, p);
    KeySetConcat(p, q);
    OverrideConcat(t, p, q);
    OverrideKeys(t, p);
    forall k | k in t || k in KeySet(p)
      ensures k in Changed(t, p + q) <==> k in Changed(t, p) || k in Changed(m, q)
      ensures !(k in Changed(t, p) && k in Changed(m, q))
    {
      OverrideAt(t, p, k);
      OverrideAt(m, q, k);
    }
  }

  lemma DistinctParts(p: seq<Row>, q: seq<Row>)
    requires DistinctKeys(p + q)
    ensures DistinctKeys(p) && DistinctKeys(q) && KeySet(p) !! KeySet(q)
  {
    assert forall i :: 0 <= i < |p| ==> (p + q)[i] == p[i];
    assert forall i :: 0 <= i < |q| ==> (p + q)[|p| + i] == q[i];
    forall i, j | 0 <= i < |p| && 0 <= j < |q| ensures p[i].key != q[j].key {
      assert (p + q)[i] == p[i] && (p + q)[|p| + j] == q[j];
    }
    forall k | k in KeySet(p) ensures k !in KeySet(q) {
      var i, j := FirstIndex(p, k), FirstIndex(q, k);
    }
  }

  /** With no column outside the key the UPDATE would hit nothing. */
  lemma OnlyKeys(l: Layout, t: Table, rows: seq<Row>)
    requires l.NonPk() == []
    ensures HitKeys(l, t, rows) == {} && UpdateFrom(l, t, rows, t)
  {
  }

  /** Skipping the UPDATE when the rowcount equals the batch size loses nothing. */
  lemma NothingToUpdate(l: Layout, t: Table, rows: seq<Row>)
    requires |InsertDoNothing(t, rows)| == |t| + |rows|
    ensures HitKeys(l, InsertDoNothing(t, rows), rows) == {}
    ensures UpdateFrom(l, InsertDoNothing(t, rows), rows, InsertDoNothing(t, rows))
  {
    AllInserted(t, rows);
    forall k, i | 0 <= i < |rows| && rows[i].key == k ensures !Hits(l, InsertDoNothing(t, rows), rows, k, i) {
      IndexDistinct(rows, i);
      InsertAt(t, rows, k);
    }
  }

  lemma InsertGrowth(t: Table, rows: seq<Row>)
    ensures |InsertDoNothing(t, rows)| == |t| + |Arrivals(t, rows)|
  {
    InsertKeys(t, rows);
    var t1 := InsertDoNothing(t, rows);
    assert t1.Keys == t.Keys + Arrivals(t, rows);
    assert |t1.Keys| == |t.Keys| + |Arrivals(t, rows)|;
  }

  /** What a load has done after consuming `done`, starting from t0. Growth and keys hold for
      any rows; the exact table and both counts for rows without repeated keys. */
  ghost predicate Loaded(t0: Table, done: seq<Row>, t: Table, inserted: int, updated: int) {
    && |t| == |t0| + inserted
    && t.Keys == t0.Keys + KeySet(done)
    && (DistinctKeys(done) ==>
      && t == Override(t0, done)
      && inserted == |Arrivals(t0, done)|
      && updated == |Changed(t0, done)|)
  }

  lemma LoadedStart(t: Table)
    ensures Loaded(t, [], t, 0, 0)
  {
  }

  lemma LoadStep(l: Layout, t0: Table, done: seq<Row>, t: Table, inserted: int, updated: int, batch: seq<Row>, t': Table)
    requires l.Keyed(t0) && l.Keyed(t) && l.FitAll(done) && l.FitAll(batch)
    requires Loaded(t0, done, t, inserted, updated)
    requires UpdateFrom(l, InsertDoNothing(t, batch), batch, t')
    ensures l.Keyed(t')
    ensures Loaded(t0, done + batch, t', inserted + |InsertDoNothing(t, batch)| - |t|,
                   updated + |HitKeys(l, InsertDoNothing(t, batch), batch)|)
  {
    KeyedAfterInsert(l, t, batch);
    KeyedAfterUpdate(l, InsertDoNothing(t, batch), batch, t');
    LoadStepKeys(l, t0, done, t, batch, t');
    if DistinctKeys(done + batch) {
      DistinctParts(done, batch);
      InsertGrowth(t, batch);
      LoadStepDistinct(l, t0, done, batch, t');
    }
  }

  lemma FitSlices(l: Layout, frame: seq<Row>, a: int, b: int)
    requires l.FitAll(frame) && 0 <= a <= b <= |frame|
    ensures l.FitAll(frame[..a]) && l.FitAll(frame[a..b])
  {
  }

  lemma LoadStepKeys(l: Layout, t0: Table, done: seq<Row>, t: Table, batch: seq<Row>, t': Table)
    requires t.Keys == t0.Keys + KeySet(done)
    requires UpdateFrom(l, InsertDoNothing(t, batch), batch, t')
    ensures t'.Keys == t0.Keys + KeySet(done + batch)
    ensures |t'| == |InsertDoNothing(t, batch)|
  {
    InsertKeys(t, batch);
    KeySetConcat(done, batch);
    assert |t'.Keys| == |InsertDoNothing(t, batch).Keys|;
  }

  lemma LoadStepDistinct(l: Layout, t0: Table, done: seq<Row>, batch: seq<Row>, t': Table)
    requires l.Keyed(t0) && l.FitAll(done) && l.FitAll(batch)
    requires DistinctKeys(batch) && KeySet(done) !! KeySet(batch)
    requires UpdateFrom(l, InsertDoNothing(Override(t0, done), batch), batch, t')
    ensures t' == Override(t0, done + batch)
    ensures |Arrivals(t0, done + batch)| == |Arrivals(t0, done)| + |Arrivals(Override(t0, done), batch)|
    ensures |Changed(t0, done + batch)|
      == |Changed(t0, done)| + |HitKeys(l, InsertDoNothing(Override(t0, done), batch), batch)|
  {
    KeyedAfterOverride(l, t0, done);
    TwoPhases(l, Override(t0, done), batch, t');
    TwoPhasesCount(l, Override(t0, done), batch, t');
    OverrideConcat(t0, done, batch);
    ArrivalsAdd(t0, done, batch);
    ChangedAdd(t0, done, batch);
  }

  // ---------- the table and the loader ----------

  /** One UPDATE .. FROM statement. PostgreSQL fixes which VALUES row wins only when a single
      one matches; any may be taken here. */
  /** The UPDATE is done but for some of the hit keys. */
  ghost predicate UpdatedBut(l: Layout, t: Table, batch: seq<Row>, hits: set<Key>, t': Table, todo: set<Key>) {
    && t'.Keys == t.Keys
    && (forall k :: k in t && (k !in hits || k in todo) ==> t'[k] == t[k])
    && (forall k :: k in t && k in hits && k !in todo ==> TakesHit(l, t, batch, k, t'[k]))
  }

  lemma UpdateOne(l: Layout, t: Table, batch: seq<Row>, hits: set<Key>, t': Table, todo: set<Key>, k: Key, r: Row)
    requires UpdatedBut(l, t, batch, hits, t', todo) && k in todo && k in hits && k in t && TakesHit(l, t, batch, k, r)
    ensures UpdatedBut(l, t, batch, hits, t'[k := r], todo - {k})
  {
    var t2, rest := t'[k := r], todo - {k};
    assert t2.Keys == t.Keys;
    forall other | other in t && (other !in hits || other in rest) ensures t2[other] == t[other] {
      assert other != k && t2[other] == t'[other];
    }
    forall other | other in t && other in hits && other !in rest ensures TakesHit(l, t, batch, other, t2[other]) {
      if other != k {
        assert t2[other] == t'[other] && other !in todo;
      }
    }
  }

  method UpdateFromValues(l: Layout, t: Table, batch: seq<Row>) returns (t': Table, rowcount: int)
    ensures UpdateFrom(l, t, batch, t')
    ensures rowcount == |HitKeys(l, t, batch)|
  {
    var hits := HitKeys(l, t, batch);
    t', rowcount := t, |hits|;
    var todo := hits;
    while todo != {}
      invariant todo <= hits && UpdatedBut(l, t, batch, hits, t', todo)
    {
      var k :| k in todo;
      var r := TakeHit(l, t, batch, k);
      UpdateOne(l, t, batch, hits, t', todo, k, r);
      t', todo := t'[k := r], todo - {k};
    }
  }

  method TakeHit(l: Layout, t: Table, batch: seq<Row>, k: Key) returns (r: Row)
    requires k in t && Hit(l, t, batch, k)
    ensures TakesHit(l, t, batch, k, r)
  {
    var i :| 0 <= i < |batch| && Hits(l, t, batch, k, i);
    r := l.Assign(t[k], batch[i]);
  }

  class Target {
    const layout: Layout
    var rows: Table

    constructor (l: Layout)
      ensures layout == l && rows == map[]
    {
      layout := l;
      rows := map[];
    }

    method ExecInsertDoNothing(batch: seq<Row>) returns (rowcount: int)
      modifies this`rows
      ensures rows == InsertDoNothing(old(rows), batch)
      ensures rowcount == |rows| - |old(rows)|
    {
      var before := |rows|;
      rows := InsertDoNothing(rows, batch);
      rowcount := |rows| - before;
    }

    method ExecUpdateFrom(batch: seq<Row>) returns (rowcount: int)
      modifies this`rows
      ensures UpdateFrom(layout, old(rows), batch, rows)
      ensures rowcount == |HitKeys(layout, old(rows), batch)|
    {
      var t';
      t', rowcount := UpdateFromValues(layout, rows, batch);
      rows := t';
    }

    /** One slice of the frame: the insert, and the update unless the rowcount or the lack of
        non-key columns rules it out. Both shortcuts leave what the UPDATE would have left. */
    method LoadBatch(batch: seq<Row>) returns (inserted: int, updated: int)
      modifies this`rows
      ensures UpdateFrom(layout, InsertDoNothing(old(rows), batch), batch, rows)
      ensures inserted == |InsertDoNothing(old(rows), batch)| - |old(rows)|
      ensures updated == |HitKeys(layout, InsertDoNothing(old(rows), batch), batch)|
    {
      var nonPk := layout.NonPk();
      inserted := ExecInsertDoNothing(batch);
      updated := 0;
      if nonPk == [] {
        OnlyKeys(layout, rows, batch);
        return;
      }
      if inserted == |batch| {
        NothingToUpdate(layout, old(rows), batch);
        return;
      }
      updated := ExecUpdateFrom(batch);
    }

    /** Growth and keys are exact for any frame; for a frame without repeated keys the final
        table and both counts do not depend on how the frame was cut into batches. */
    method Upsert(frame: seq<Row>) returns (inserted: int, updated: int)
      requires layout.Keyed(rows) && layout.FitAll(frame)
      modifies this`rows
      ensures layout.Keyed(rows)
      ensures Loaded(old(rows), frame, rows, inserted, updated)
    {
      ghost var t0 := rows;
      var effectiveBatch := EffectiveBatch(|layout.columns|);
      inserted, updated := 0, 0;
      assert frame[..0] == [];
      LoadedStart(t0);
      var start := 0;
      while start < |frame|
        invariant 0 <= start <= |frame|
        invariant layout.Keyed(rows)
        invariant Loaded(t0, frame[..start], rows, inserted, updated)
      {
        var end := Min(start + effectiveBatch, |frame|);
        var batch := frame[start..end];
        ghost var t1 := rows;
        var i, u := LoadBatch(batch);
        FitSlices(layout, frame, start, end);
        LoadStep(layout, t0, frame[..start], t1, inserted, updated, batch, rows);
        Slices.TakeThenSlice(frame, start, end);
        start, inserted, updated := end, inserted + i, updated + u;
      }
      assert frame[..start] == frame;
    }
  }

  // ---------- retry and agreement with the staging upsert ----------

  /** A run that stopped after any prefix and is then repeated in full ends in the table of
      one uninterrupted pass, repeated keys included. */
  lemma RetryConverges(t: Table, frame: seq<Row>, n: nat)
    requires n <= |frame|
    ensures Override(Override(t, frame[..n]), frame) == Override(t, frame)
  {
    var p := frame[..n];
    assert frame == p + frame[n..];
    KeySetConcat(p, frame[n..]);
    OverrideKeys(t, p);
    OverrideKeys(Override(t, p), frame);
    OverrideKeys(t, frame);
    forall k | k in t || k in KeySet(frame)
      ensures Override(Override(t, p), frame)[k] == Override(t, frame)[k]
    {
      OverrideAt(t, frame, k);
      if k !in KeySet(frame) {
        OverrideAt(t, p, k);
      }
      OverrideAt(Override(t, p), frame, k);
    }
  }

  /** A second pass of the same frame finds nothing to insert and nothing to change. */
  lemma SecondPassIsQuiet(t: Table, frame: seq<Row>)
    ensures Arrivals(Override(t, frame), frame) == {}
    ensures Changed(Override(t, frame), frame) == {}
  {
    OverrideKeys(t, frame);
    RetryConverges(t, frame, |frame|);
    assert frame[..|frame|] == frame;
  }

  /** The staging upsert accepts exactly the batches without repeated keys, and there it
      computes the same table as the two-phase upsert. */
  lemma {:induction false} StagingAgrees(l: Layout, t: Table, rows: seq<Row>, touched: set<Key>)
    requires l.Keyed(t) && l.FitAll(rows)
    ensures var r := InsertDoUpdate(l, t, rows, touched);
      && (r.Ok? <==> DistinctKeys(rows) && KeySet(rows) !! touched)
      && (r.Ok? ==> r.value == Override(t, rows))
    decreases |rows|
  {
    if rows != [] {
      var k := rows[0].key;
      DistinctCons(rows);
      if k in t {
        AssignMeaning(l, t[k], rows[0]);
      }
      if k !in touched {
        StagingAgrees(l, t[k := rows[0]], rows[1..], touched + {k});
      }
    }
  }

  // ---------- repeated keys inside one batch ----------

  /** Row i of the batch repeats either what is stored under its key when the UPDATE starts,
      or the last row the batch has for that key. */
  predicate HarmlessRepeat(stored: Table, rows: seq<Row>, i: int)
    requires 0 <= i < |rows|
  {
    var k := rows[i].key;
    var last := LastIndex(rows, k);
    (k in stored && stored[k] == rows[i]) || (last >= 0 && rows[last] == rows[i])
  }

  /** Some outcome of the UPDATE that takes row i under its key. */
  ghost function PickRow(l: Layout, t: Table, rows: seq<Row>, i: int): (t': Table)
    requires 0 <= i < |rows| && Hits(l, t, rows, rows[i].key, i)
    ensures UpdateFrom(l, t, rows, t') && t'[rows[i].key] == l.Assign(t[rows[i].key], rows[i])
  {
    var t' := map k | k in t ::
      if k == rows[i].key then l.Assign(t[k], rows[i])
      else if Hit(l, t, rows, k) then (var j :| Hits(l, t, rows, k, j); l.Assign(t[k], rows[j]))
      else t[k];
    assert Hit(l, t, rows, rows[i].key);
    assert forall k :: k in t && Hit(l, t, rows, k) ==> TakesHit(l, t, rows, k, t'[k]);
    t'
  }

  /** The comment beside the loader promises that a key repeated inside one batch ends with
      the later row. That is certain exactly when every repeat is harmless. */
  lemma RepeatsExactly(l: Layout, t: Table, rows: seq<Row>)
    requires l.Keyed(t) && l.FitAll(rows)
    ensures (forall t' :: UpdateFrom(l, InsertDoNothing(t, rows), rows, t') ==> t' == Override(t, rows))
       <==> (forall i :: 0 <= i < |rows| ==> HarmlessRepeat(InsertDoNothing(t, rows), rows, i))
  {
    var t1 := InsertDoNothing(t, rows);
    KeyedAfterInsert(l, t, rows);
    if i :| 0 <= i < |rows| && !HarmlessRepeat(t1, rows, i) {
      HarmfulPick(l, t, rows, i);
    } else {
      forall t' | UpdateFrom(l, t1, rows, t') ensures t' == Override(t, rows) {
        OnlyHarmless(l, t, rows, t');
      }
    }
  }

  lemma OnlyHarmless(l: Layout, t: Table, rows: seq<Row>, t': Table)
    requires l.Keyed(InsertDoNothing(t, rows)) && l.FitAll(rows)
    requires forall i :: 0 <= i < |rows| ==> HarmlessRepeat(InsertDoNothing(t, rows), rows, i)
    requires UpdateFrom(l, InsertDoNothing(t, rows), rows, t')
    ensures t' == Override(t, rows)
  {
    forall k | k in t' || k in Override(t, rows)
      ensures k in t' && k in Override(t, rows) && t'[k] == Override(t, rows)[k]
    {
      OnlyHarmlessAt(l, t, rows, t', k);
    }
  }

  lemma OnlyHarmlessAt(l: Layout, t: Table, rows: seq<Row>, t': Table, k: Key)
    requires l.Keyed(InsertDoNothing(t, rows)) && l.FitAll(rows)
    requires forall i :: 0 <= i < |rows| ==> HarmlessRepeat(InsertDoNothing(t, rows), rows, i)
    requires UpdateFrom(l, InsertDoNothing(t, rows), rows, t')
    requires k in t' || k in Override(t, rows)
    ensures k in t' && k in Override(t, rows) && t'[k] == Override(t, rows)[k]
  {
    InsertKeys(t, rows);
    OverrideKeys(t, rows);
    HarmlessAt(l, InsertDoNothing(t, rows), rows, t', k);
    LastRowWins(t, rows, k);
  }

  /** The row Override leaves under a key, in terms of what the insert leaves there. */
  lemma LastRowWins(t: Table, rows: seq<Row>, k: Key)
    requires k in t || k in KeySet(rows)
    ensures k in Override(t, rows) && k in InsertDoNothing(t, rows)
    ensures Override(t, rows)[k] == if k in KeySet(rows) then rows[LastIndex(rows, k)] else InsertDoNothing(t, rows)[k]
  {
    InsertAt(t, rows, k);
    OverrideAt(t, rows, k);
  }

  lemma HarmfulPick(l: Layout, t: Table, rows: seq<Row>, i: int)
    requires l.Keyed(InsertDoNothing(t, rows)) && l.FitAll(rows)
    requires 0 <= i < |rows| && !HarmlessRepeat(InsertDoNothing(t, rows), rows, i)
    ensures exists t' :: UpdateFrom(l, InsertDoNothing(t, rows), rows, t') && t' != Override(t, rows)
  {
    var t1, k := InsertDoNothing(t, rows), rows[i].key;
    KeySetHas(rows, i);
    InsertAt(t, rows, k);
    OverrideAt(t, rows, k);
    AssignMeaning(l, t1[k], rows[i]);
    var t' := PickRow(l, t1, rows, i);
    assert t'[k] == rows[i] != Override(t, rows)[k];
  }

  /** With only harmless repeats a stored row ends as the last row of the batch for its key. */
  lemma HarmlessAt(l: Layout, stored: Table, rows: seq<Row>, t': Table, k: Key)
    requires l.Keyed(stored) && l.FitAll(rows)
    requires forall i :: 0 <= i < |rows| ==> HarmlessRepeat(stored, rows, i)
    requires UpdateFrom(l, stored, rows, t')
    requires k in stored
    ensures t'[k] == if k in KeySet(rows) then rows[LastIndex(rows, k)] else stored[k]
  {
    var last := LastIndex(rows, k);
    if Hit(l, stored, rows, k) {
      var i :| Hits(l, stored, rows, k, i) && t'[k] == l.Assign(stored[k], rows[i]);
      AssignMeaning(l, stored[k], rows[i]);
      assert HarmlessRepeat(stored, rows, i);
    } else if last >= 0 {
      AssignMeaning(l, stored[k], rows[last]);
      assert !Hits(l, stored, rows, k, last);
    }
  }

  /** The failing case: the stored row equals the later repeat, so the UPDATE can only take
      the earlier one. */
  lemma RepeatsMayKeepTheEarlierRow()
    ensures exists l: Layout, t: Table, rows: seq<Row>, t': Table ::
      && l.Keyed(t) && l.FitAll(rows)
      && UpdateFrom(l, InsertDoNothing(t, rows), rows, t')
      && t' != Override(t, rows)
  {
    var l := Layout(["id", "v"], ["id"]);
    var key: Key := [Some("1")];
    var a := Row(key, map["v" := Some("a")]);
    var b := Row(key, map["v" := Some("b")]);
    var t: Table := map[key := b];
    var rows := [a, b];
    assert rows[1..] == [b];
    assert InsertDoNothing(t, [b]) == t;
    assert InsertDoNothing(t, rows) == t;
    var t' := t[key := a];
    assert l.NonPk() == ["v"];
    assert l.Fits(a) && l.Fits(b);
    AssignMeaning(l, b, a);
    assert a.data["v"] != b.data["v"];
    assert Hits(l, t, rows, key, 0);
    assert UpdateFrom(l, t, rows, t');
    assert LastIndex(rows, key) == 1;
    OverrideAt(t, rows, key);
    assert l.Keyed(t) && l.FitAll(rows);
  }
}
