/** sync_mode=diff of db_load_service: compare the primary key sets of source and target, COPY
    the new rows over in slices and, when asked to, delete the orphans in slices. */
module DiffSync {
  import opened Wrappers
  import Slices

  /** A key component as the drivers deliver it. Decimals and floats with an integral value
      compare equal to the integer in Python and in SQL, so they are one case here. */
  datatype Scalar = Number(n: int) | Text(s: string) | Stamp(seconds: int, micros: int)

  type Pk = seq<Scalar>

  type Payload = string

  type Rows = map<Pk, Payload>

  const MAX_DIFF_PK_COUNT := 10_000_000
  const DIFF_PK_SELECT_BATCH := 1000

  // ---------- keys ----------

  /** _normalize_pk_for_diff on one component: datetimes lose their microseconds. */
  function NormalizeScalar(v: Scalar): (r: Scalar)
    ensures r == v <==> (v.Stamp? ==> v.micros == 0)
  {
    if v.Stamp? then Stamp(v.seconds, 0) else v
  }

  function Normalize(k: Pk): (r: Pk)
    ensures |r| == |k|
    ensures forall i :: 0 <= i < |k| ==> r[i] == NormalizeScalar(k[i])
  {
    seq(|k|, i requires 0 <= i < |k| => NormalizeScalar(k[i]))
  }

  /** A key the comparison sees as it is stored. */
  predicate Exact(k: Pk) {
    forall i :: 0 <= i < |k| && k[i].Stamp? ==> k[i].micros == 0
  }

  /** Equal components, or two datetimes of the same second. */
  predicate AlikeScalar(x: Scalar, y: Scalar) {
    x == y || (x.Stamp? && y.Stamp? && x.seconds == y.seconds)
  }

  predicate Alike(a: Pk, b: Pk) {
    |a| == |b| && forall i :: 0 <= i < |a| ==> AlikeScalar(a[i], b[i])
  }

  /** The comparison confuses two keys exactly when they are alike. */
  lemma ConfusedExactly(a: Pk, b: Pk)
    ensures Normalize(a) == Normalize(b) <==> Alike(a, b)
  {
    if Normalize(a) == Normalize(b) {
      forall i | 0 <= i < |a| ensures AlikeScalar(a[i], b[i]) {
        assert Normalize(a)[i] == Normalize(b)[i];
      }
    }
  }

  /** The normalised key is the one exact key that is alike. */
  lemma NormalizedExactly(k: Pk, n: Pk)
    ensures Normalize(k) == n <==> Exact(n) && Alike(k, n)
  {
    NormalizeFixes(k);
    NormalizeFixes(n);
    ConfusedExactly(k, n);
    ConfusedExactly(k, Normalize(k));
  }

  lemma NormalizeFixes(k: Pk)
    ensures Normalize(k) == k <==> Exact(k)
    ensures Exact(Normalize(k)) && Normalize(Normalize(k)) == Normalize(k)
  {
    if Normalize(k) == k {
      forall i | 0 <= i < |k| && k[i].Stamp? ensures k[i].micros == 0 {
        assert Normalize(k)[i] == NormalizeScalar(k[i]);
      }
    }
  }

  function NormalKeys(keys: set<Pk>): set<Pk> {
    set k | k in keys :: Normalize(k)
  }

  // ---------- what one sync does ----------

  /** Source rows whose stored key is among the new normalised keys: the rows the slice SELECTs
      with `pk IN (...)` return. */
  function Arrivals(source: set<Pk>, target: set<Pk>): set<Pk> {
    set k | k in source && k in NormalKeys(source) - NormalKeys(target)
  }

  /** Target rows the orphan DELETEs match. */
  function Departures(source: set<Pk>, target: set<Pk>): set<Pk> {
    set k | k in target && k in NormalKeys(target) - NormalKeys(source)
  }

  function Pick(t: Rows, keys: set<Pk>): Rows {
    map k | k in keys && k in t :: t[k]
  }

  function Synced(source: Rows, target: Rows, deleteOrphans: bool): Rows {
    var grown := target + Pick(source, Arrivals(source.Keys, target.Keys));
    if deleteOrphans then grown - Departures(source.Keys, target.Keys) else grown
  }

  /** Some stored key on the other side is alike. */
  ghost predicate Hidden(theirs: set<Pk>, k: Pk) {
    exists t :: t in theirs && Alike(t, k)
  }

  /** The rows of one side that the comparison with the other side picks out. */
  ghost function Unmatched(mine: set<Pk>, theirs: set<Pk>): set<Pk> {
    set k | k in mine && Exact(k) && !Hidden(theirs, k)
  }

  lemma HiddenExactly(theirs: set<Pk>, k: Pk)
    ensures k in NormalKeys(theirs) <==> Exact(k) && Hidden(theirs, k)
  {
    if k in NormalKeys(theirs) {
      var t :| t in theirs && Normalize(t) == k;
      NormalizedExactly(t, k);
    }
    if Exact(k) && Hidden(theirs, k) {
      var t :| t in theirs && Alike(t, k);
      NormalizedExactly(t, k);
    }
  }

  lemma HiddenByItself(keys: set<Pk>, k: Pk)
    requires k in keys
    ensures Hidden(keys, k)
  {
    assert Alike(k, k);
  }

  /** An arriving row is one with an exact key that is alike to no target key; the same the
      other way round for a departing row. */
  lemma ArrivalsMeaning(source: set<Pk>, target: set<Pk>)
    ensures Arrivals(source, target) == Unmatched(source, target)
    ensures Departures(source, target) == Unmatched(target, source)
  {
    forall k
      ensures k in Arrivals(source, target) <==> k in Unmatched(source, target)
      ensures k in Departures(source, target) <==> k in Unmatched(target, source)
    {
      HiddenExactly(source, k);
      HiddenExactly(target, k);
      if k in source { HiddenByItself(source, k); }
      if k in target { HiddenByItself(target, k); }
    }
  }

  // ---------- main results ----------

  /** A sync never touches an existing row it keeps, and what it adds comes from the source. */
  lemma ExistingRowsKept(source: Rows, target: Rows, deleteOrphans: bool)
    ensures var t' := Synced(source, target, deleteOrphans);
      && (forall k :: k in t' && k in target ==> t'[k] == target[k])
      && (forall k :: k in t' && k !in target ==> k in source && t'[k] == source[k])
      && (forall k :: k in target && k in source ==> k in t')
  {
    ArrivalsMeaning(source.Keys, target.Keys);
    forall k | k in target ensures k !in Arrivals(source.Keys, target.Keys) {
      HiddenByItself(target.Keys, k);
    }
    forall k | k in source ensures k !in Departures(source.Keys, target.Keys) {
      HiddenByItself(source.Keys, k);
    }
  }

  /** A key that only one side has is noticed: it is stored exactly as the comparison sees it
      and no key of the other side is alike. */
  ghost predicate Noticed(mine: set<Pk>, theirs: set<Pk>, k: Pk) {
    k in mine && k !in theirs ==> Exact(k) && !Hidden(theirs, k)
  }

  ghost predicate Visible(mine: set<Pk>, theirs: set<Pk>) {
    forall k :: k in mine ==> Noticed(mine, theirs, k)
  }

  /** Which keys the target has after a run, read off the two key sets. */
  lemma SyncedHas(source: Rows, target: Rows, deleteOrphans: bool, k: Pk)
    ensures k in Synced(source, target, deleteOrphans) <==>
      if k in target then k in source || !deleteOrphans || !Exact(k) || Hidden(source.Keys, k)
      else k in source && Exact(k) && !Hidden(target.Keys, k)
  {
    ArrivalsMeaning(source.Keys, target.Keys);
    if k in target { HiddenByItself(target.Keys, k); }
    if k in source { HiddenByItself(source.Keys, k); }
  }

  /** After a sync with orphan deletion the target has the source's keys exactly when every
      difference between the two key sets was visible. */
  lemma SyncCompletesExactly(source: Rows, target: Rows)
    ensures Synced(source, target, true).Keys == source.Keys
       <==> Visible(source.Keys, target.Keys) && Visible(target.Keys, source.Keys)
  {
    var t' := Synced(source, target, true);
    forall k
      ensures (k in t' <==> k in source) <==> Noticed(source.Keys, target.Keys, k) && Noticed(target.Keys, source.Keys, k)
    {
      SyncedHas(source, target, true, k);
    }
    if t'.Keys == source.Keys {
      forall k ensures k in t' <==> k in source { assert k in t'.Keys <==> k in source.Keys; }
    } else {
      var k :| !(k in t' <==> k in source);
      assert !Noticed(source.Keys, target.Keys, k) || !Noticed(target.Keys, source.Keys, k);
    }
  }

  /** Without deletion the source's keys are all there exactly when the missing ones were
      visible. */
  lemma GrowthCompletesExactly(source: Rows, target: Rows)
    ensures source.Keys <= Synced(source, target, false).Keys <==> Visible(source.Keys, target.Keys)
  {
    var t' := Synced(source, target, false);
    forall k
      ensures k in source && k !in target ==> (k in t' <==> Exact(k) && !Hidden(target.Keys, k))
      ensures k in target ==> k in t'
    {
      SyncedHas(source, target, false, k);
    }
  }

  /** With keys that carry no microseconds the sync is the plain set difference on both sides. */
  lemma ExactKeysSync(source: Rows, target: Rows)
    requires forall k :: k in source || k in target ==> Exact(k)
    ensures Arrivals(source.Keys, target.Keys) == source.Keys - target.Keys
    ensures Departures(source.Keys, target.Keys) == target.Keys - source.Keys
    ensures Synced(source, target, true).Keys == source.Keys
    ensures Synced(source, target, false).Keys == source.Keys + target.Keys
  {
    ArrivalsMeaning(source.Keys, target.Keys);
    forall k | k in source || k in target
      ensures k in Arrivals(source.Keys, target.Keys) <==> k in source && k !in target
      ensures k in Departures(source.Keys, target.Keys) <==> k in target && k !in source
    {
      ExactMembership(source.Keys, k);
      ExactMembership(target.Keys, k);
    }
  }

  lemma ExactMembership(keys: set<Pk>, k: Pk)
    requires Exact(k) && forall j :: j in keys ==> Exact(j)
    ensures Hidden(keys, k) <==> k in keys
  {
    if k in keys {
      HiddenByItself(keys, k);
    }
    if Hidden(keys, k) {
      var j :| j in keys && Alike(j, k);
      NormalizedExactly(j, k);
      NormalizeFixes(j);
    }
  }

  /** A second run right after the first finds nothing, for every input: whatever the first
      run could not see, the second cannot see either. */
  lemma SecondRunIsQuiet(source: Rows, target: Rows, deleteOrphans: bool)
    ensures Arrivals(source.Keys, Synced(source, target, deleteOrphans).Keys) == {}
    ensures deleteOrphans ==> Departures(source.Keys, Synced(source, target, deleteOrphans).Keys) == {}
  {
    var t' := Synced(source, target, deleteOrphans);
    ArrivalsMeaning(source.Keys, target.Keys);
    ArrivalsMeaning(source.Keys, t'.Keys);
    forall k ensures k !in Arrivals(source.Keys, t'.Keys) {
      if k in source && Exact(k) {
        ArrivedStays(source, target, deleteOrphans, k);
      }
    }
    forall k ensures deleteOrphans ==> k !in Departures(source.Keys, t'.Keys) {
      if k in source { HiddenByItself(source.Keys, k); }
    }
  }

  /** An exact source key is represented in the target after a run. */
  lemma ArrivedStays(source: Rows, target: Rows, deleteOrphans: bool, k: Pk)
    requires k in source && Exact(k)
    ensures Hidden(Synced(source, target, deleteOrphans).Keys, k)
  {
    var t' := Synced(source, target, deleteOrphans);
    if Hidden(target.Keys, k) {
      var t :| t in target.Keys && Alike(t, k);
      assert Alike(k, t);
      assert Hidden(source.Keys, t);
      SyncedHas(source, target, deleteOrphans, t);
      assert t in t'.Keys;
    } else {
      SyncedHas(source, target, deleteOrphans, k);
      if k in target { HiddenByItself(target.Keys, k); }
      HiddenByItself(t'.Keys, k);
    }
  }

  /** The failing case: a source row whose key has microseconds is new, is never fetched, and
      no number of runs brings it over. */
  lemma MicrosecondKeyNeverArrives(source: Rows, target: Rows, k: Pk, deleteOrphans: bool)
    requires k in source && k !in target && !Exact(k)
    ensures k !in Synced(source, target, deleteOrphans)
  {
    SyncedHas(source, target, deleteOrphans, k);
  }

  /** The failing case with exact keys on the source side: a new row is not copied while the
      target holds a key of the same second, and the target's row is not an orphan either. */
  lemma SameSecondHides(source: Rows, target: Rows, k: Pk, t: Pk, deleteOrphans: bool)
    requires k in source && k !in target && t in target && Alike(t, k)
    ensures k !in Synced(source, target, deleteOrphans) && t in Synced(source, target, deleteOrphans)
  {
    SyncedHas(source, target, deleteOrphans, k);
    SyncedHas(source, target, deleteOrphans, t);
    assert Alike(k, t);
    assert Hidden(source.Keys, t);
  }

  lemma MicrosecondKeyExists()
    ensures !Exact([Stamp(0, 1)]) && Synced(map[[Stamp(0, 1)] := ""], map[], true).Keys != {[Stamp(0, 1)]}
  {
    var k := [Stamp(0, 1)];
    assert k[0].micros == 1;
    MicrosecondKeyNeverArrives(map[k := ""], map[], k, true);
  }

  // ---------- the run ----------

  /** The keys of a slice of a list, as bound into one IN (...) clause. */
  function Bound(keys: seq<Pk>): set<Pk> {
    set k | k in keys
  }

  ghost predicate Distinct(keys: seq<Pk>) {
    forall i, j :: 0 <= i < j < |keys| ==> keys[i] != keys[j]
  }

  /** SELECT of the key columns, fetched in chunks and collected normalised in a set. */
  method FetchPkValues(rows: seq<Pk>, fetchBatch: nat) returns (out: set<Pk>)
    requires fetchBatch >= 1
    ensures out == NormalKeys(Bound(rows))
  {
    out := {};
    var start := 0;
    while start < |rows|
      invariant 0 <= start <= |rows|
      invariant out == NormalKeys(Bound(rows[..start]))
    {
      var end := if start + fetchBatch <= |rows| then start + fetchBatch else |rows|;
      for i := start to end
        invariant out == NormalKeys(Bound(rows[..i]))
      {
        assert rows[..i + 1] == rows[..i] + [rows[i]];
        BoundAdd(rows[..i], rows[i]);
        out := out + {Normalize(rows[i])};
      }
      start := end;
    }
    assert rows[..start] == rows;
  }

  lemma BoundAdd(keys: seq<Pk>, k: Pk)
    ensures Bound(keys + [k]) == Bound(keys) + {k}
    ensures NormalKeys(Bound(keys + [k])) == NormalKeys(Bound(keys)) + {Normalize(k)}
  {
    assert Bound(keys + [k]) == Bound(keys) + {k};
  }

  lemma BoundConcat(p: seq<Pk>, q: seq<Pk>)
    ensures Bound(p + q) == Bound(p) + Bound(q)
  {
  }

  /** list(set): the elements in an order the code does not control. */
  method ListOf(keys: set<Pk>) returns (list: seq<Pk>)
    ensures Distinct(list) && Bound(list) == keys && |list| == |keys|
  {
    list := [];
    var rest := keys;
    while rest != {}
      invariant Distinct(list) && Bound(list) + rest == keys && Bound(list) !! rest
      invariant |list| + |rest| == |keys|
    {
      var k :| k in rest;
      BoundAdd(list, k);
      list, rest := list + [k], rest - {k};
    }
  }

  datatype SyncCount = SyncCount(inserted: nat, deleted: nat)

  lemma PickUnion(source: Rows, done: set<Pk>, slice: set<Pk>)
    ensures Pick(source, done + slice) == Pick(source, done) + Pick(source, slice)
    ensures Pick(source, slice).Keys == source.Keys * slice
  {
  }

  lemma MergeAssociates(a: Rows, b: Rows, c: Rows)
    ensures a + b + c == a + (b + c)
  {
  }

  lemma PickGrows(source: Rows, t: Rows, done: set<Pk>, slice: set<Pk>)
    requires done !! slice
    ensures t + Pick(source, done) + Pick(source, slice) == t + Pick(source, done + slice)
    ensures |source.Keys * (done + slice)| == |source.Keys * done| + |Pick(source, slice)|
  {
    PickUnion(source, done, slice);
    MergeAssociates(t, Pick(source, done), Pick(source, slice));
    assert source.Keys * (done + slice) == source.Keys * done + source.Keys * slice;
  }

  lemma PickShrinks(t0: Rows, done: set<Pk>, slice: set<Pk>)
    requires done !! slice
    ensures t0 - done - slice == t0 - (done + slice)
    ensures |t0.Keys * (done + slice)| == |t0.Keys * done| + |(t0 - done).Keys * slice|
  {
    assert t0.Keys * (done + slice) == t0.Keys * done + t0.Keys * slice;
    assert (t0 - done).Keys * slice == t0.Keys * slice;
  }

  lemma DistinctSlices(list: seq<Pk>, a: nat, b: nat)
    requires Distinct(list) && a <= b <= |list|
    ensures Bound(list[..b]) == Bound(list[..a]) + Bound(list[a..b])
    ensures Bound(list[..a]) !! Bound(list[a..b])
  {
    Slices.TakeThenSlice(list, a, b);
    BoundConcat(list[..a], list[a..b]);
    forall k | k in Bound(list[..a]) ensures k !in Bound(list[a..b]) {
      var i :| 0 <= i < a && list[..a][i] == k;
      assert forall j :: 0 <= j < b - a ==> list[a..b][j] == list[a + j];
    }
  }

  /** The state after the first n new keys have been copied over. */
  ghost predicate InsertedUpTo(source: Rows, t0: Rows, keys: seq<Pk>, n: nat, t: Rows, inserted: nat) {
    && n <= |keys|
    && t == t0 + Pick(source, Bound(keys[..n]))
    && inserted == |source.Keys * Bound(keys[..n])|
  }

  lemma InsertStep(source: Rows, t0: Rows, keys: seq<Pk>, a: nat, b: nat, t: Rows, inserted: nat)
    requires Distinct(keys) && a <= b <= |keys| && InsertedUpTo(source, t0, keys, a, t, inserted)
    ensures var fetched := Pick(source, Bound(keys[a..b]));
      InsertedUpTo(source, t0, keys, b, t + fetched, inserted + |fetched|)
  {
    DistinctSlices(keys, a, b);
    PickGrows(source, t0, Bound(keys[..a]), Bound(keys[a..b]));
  }

  /** The state after the first n orphan keys have been deleted. */
  ghost predicate DeletedUpTo(t0: Rows, keys: seq<Pk>, n: nat, t: Rows, deleted: nat) {
    && n <= |keys|
    && t == t0 - Bound(keys[..n])
    && deleted == |t0.Keys * Bound(keys[..n])|
  }

  lemma DeleteStep(t0: Rows, keys: seq<Pk>, a: nat, b: nat, t: Rows, deleted: nat)
    requires Distinct(keys) && a <= b <= |keys| && DeletedUpTo(t0, keys, a, t, deleted)
    ensures var batch := Bound(keys[a..b]);
      DeletedUpTo(t0, keys, b, t - batch, deleted + |t.Keys * batch|)
  {
    DistinctSlices(keys, a, b);
    PickShrinks(t0, Bound(keys[..a]), Bound(keys[a..b]));
  }

  function SliceEnd(offset: nat, n: nat): (end: nat)
    requires offset < n
    ensures offset < end <= n
  {
    if offset + DIFF_PK_SELECT_BATCH <= n then offset + DIFF_PK_SELECT_BATCH else n
  }

  class DiffTarget {
    var rows: Rows

    constructor (initial: Rows)
      ensures rows == initial
    {
      rows := initial;
    }

    /** Copies the rows of the new keys over, one SELECT, COPY and commit per slice. A cancel
        request seen before slice cancelAt returns with what is committed so far. */
    method InsertSlices(source: Rows, newPks: seq<Pk>, cancelAt: Option<nat>)
      returns (inserted: nat, upTo: nat)
      requires Distinct(newPks)
      modifies this
      ensures InsertedUpTo(source, old(rows), newPks, upTo, rows, inserted)
      ensures cancelAt.None? ==> upTo == |newPks|
    {
      inserted, upTo := 0, 0;
      var slices := 0;
      assert Bound(newPks[..0]) == {};
      while upTo < |newPks|
        invariant InsertedUpTo(source, old(rows), newPks, upTo, rows, inserted)
      {
        if cancelAt == Some(slices) {
          return;
        }
        var end := SliceEnd(upTo, |newPks|);
        InsertStep(source, old(rows), newPks, upTo, end, rows, inserted);
        var fetched := Pick(source, Bound(newPks[upTo..end]));
        rows := rows + fetched;
        inserted, upTo, slices := inserted + |fetched|, end, slices + 1;
      }
    }

    /** Deletes the orphans, one statement per slice, adding up the rowcounts. */
    method DeleteSlices(deletedPks: seq<Pk>) returns (deleted: nat)
      requires Distinct(deletedPks)
      modifies this
      ensures DeletedUpTo(old(rows), deletedPks, |deletedPks|, rows, deleted)
    {
      deleted := 0;
      var offset := 0;
      assert Bound(deletedPks[..0]) == {};
      while offset < |deletedPks|
        invariant DeletedUpTo(old(rows), deletedPks, offset, rows, deleted)
      {
        var end := SliceEnd(offset, |deletedPks|);
        DeleteStep(old(rows), deletedPks, offset, end, rows, deleted);
        var batch := Bound(deletedPks[offset..end]);
        deleted := deleted + |rows.Keys * batch|;
        rows := rows - batch;
        offset := end;
      }
    }

    /** One sync over a source that does not change meanwhile. The order in which the keys are
        sliced does not show in the result. The second size check of the code, on the new keys,
        can never fire: they are a subset of the source keys. */
    method RunDiffSync(source: Rows, sourceList: seq<Pk>, targetList: seq<Pk>, deleteOrphans: bool, fetchBatch: nat, cancelAt: Option<nat>)
      returns (r: Result<SyncCount>, finished: bool)
      requires Bound(sourceList) == source.Keys && Bound(targetList) == rows.Keys && fetchBatch >= 1
      modifies this
      ensures r.Err? <==> |NormalKeys(source.Keys)| > MAX_DIFF_PK_COUNT
      ensures r.Err? ==> rows == old(rows)
      ensures r.Ok? && cancelAt.None? ==> finished
      ensures r.Ok? && finished ==>
        && rows == Synced(source, old(rows), deleteOrphans)
        && r.value.inserted == |Unmatched(source.Keys, old(rows).Keys)|
        && r.value.deleted == if deleteOrphans then |Unmatched(old(rows).Keys, source.Keys)| else 0
      ensures r.Ok? && !finished ==>
        && rows == old(rows) + Pick(source, Unmatched(source.Keys, old(rows).Keys) * rows.Keys)
        && r.value.inserted == |Unmatched(source.Keys, old(rows).Keys) * rows.Keys|
        && r.value.deleted == 0
    {
      finished := true;
      ArrivalsMeaning(source.Keys, rows.Keys);
      var sourcePks := FetchPkValues(sourceList, fetchBatch);
      var targetPks := FetchPkValues(targetList, fetchBatch);
      if |sourcePks| > MAX_DIFF_PK_COUNT {
        return Err("too many source keys for diff mode"), true;
      }
      var newPks := ListOf(sourcePks - targetPks);
      var inserted, upTo := InsertSlices(source, newPks, cancelAt);
      InsertMeaning(source, old(rows), newPks, upTo, rows, inserted);
      if upTo < |newPks| {
        return Ok(SyncCount(inserted, 0)), false;
      }
      var deleted := 0;
      if deleteOrphans {
        var deletedPks := ListOf(targetPks - sourcePks);
        SlicesDelete(source, old(rows), deletedPks);
        deleted := DeleteSlices(deletedPks);
      }
      r := Ok(SyncCount(inserted, deleted));
    }
  }

  lemma InsertMeaning(source: Rows, t0: Rows, keys: seq<Pk>, n: nat, t: Rows, inserted: nat)
    requires Bound(keys) == NormalKeys(source.Keys) - NormalKeys(t0.Keys)
    requires InsertedUpTo(source, t0, keys, n, t, inserted)
    ensures n == |keys| ==> t == Synced(source, t0, false) && inserted == |Arrivals(source.Keys, t0.Keys)|
    ensures t == t0 + Pick(source, Arrivals(source.Keys, t0.Keys) * t.Keys)
    ensures inserted == |Arrivals(source.Keys, t0.Keys) * t.Keys|
  {
    assert Bound(keys[..n]) <= Bound(keys);
    ArrivalsAreNew(source, t0);
    CopiedArrivals(source, t0, Bound(keys), Bound(keys[..n]));
    CopiedKeys(source, t0, Bound(keys), Bound(keys[..n]));
    if n == |keys| {
      assert keys[..n] == keys;
    }
  }

  lemma ArrivalsAreNew(source: Rows, t0: Rows)
    ensures Arrivals(source.Keys, t0.Keys) !! t0.Keys
  {
    ArrivalsMeaning(source.Keys, t0.Keys);
    forall k | k in t0 ensures k !in Arrivals(source.Keys, t0.Keys) {
      HiddenByItself(t0.Keys, k);
    }
  }

  lemma CopiedArrivals(source: Rows, t0: Rows, keys: set<Pk>, done: set<Pk>)
    requires keys == NormalKeys(source.Keys) - NormalKeys(t0.Keys) && done <= keys
    requires Arrivals(source.Keys, t0.Keys) !! t0.Keys
    ensures source.Keys * keys == Arrivals(source.Keys, t0.Keys)
    ensures Pick(source, keys) == Pick(source, Arrivals(source.Keys, t0.Keys))
    ensures var t := t0 + Pick(source, done);
      Pick(source, done) == Pick(source, Arrivals(source.Keys, t0.Keys) * t.Keys)
  {
    var arrivals, t := Arrivals(source.Keys, t0.Keys), t0 + Pick(source, done);
    assert source.Keys * keys == arrivals;
    forall k ensures k in Pick(source, done) <==> k in Pick(source, arrivals * t.Keys) {
    }
  }

  lemma CopiedKeys(source: Rows, t0: Rows, keys: set<Pk>, done: set<Pk>)
    requires keys == NormalKeys(source.Keys) - NormalKeys(t0.Keys) && done <= keys
    requires Arrivals(source.Keys, t0.Keys) !! t0.Keys
    ensures source.Keys * done == Arrivals(source.Keys, t0.Keys) * (t0 + Pick(source, done)).Keys
  {
    var arrivals, t := Arrivals(source.Keys, t0.Keys), t0 + Pick(source, done);
    assert t.Keys == t0.Keys + source.Keys * done;
    forall k ensures k in source.Keys * done <==> k in arrivals * t.Keys {
    }
  }

  /** Deleting the orphan keys from the grown table hits exactly the departing rows. */
  lemma SlicesDelete(source: Rows, target: Rows, keys: seq<Pk>)
    requires Bound(keys) == NormalKeys(target.Keys) - NormalKeys(source.Keys)
    ensures keys[..|keys|] == keys
    ensures Synced(source, target, false).Keys * Bound(keys) == Departures(source.Keys, target.Keys)
    ensures Synced(source, target, false) - Bound(keys) == Synced(source, target, true)
  {
    assert Arrivals(source.Keys, target.Keys) !! Bound(keys);
    assert Synced(source, target, false).Keys == target.Keys + Arrivals(source.Keys, target.Keys);
    assert Departures(source.Keys, target.Keys) == target.Keys * Bound(keys);
  }
}
