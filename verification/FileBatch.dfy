/** The file batch: which files of a folder are pending, the per-file loop of one run, and what
    the stored watermark guarantees over any sequence of runs. A file name carries its time
    stamp; what loading a file does, and when a user cancels, are parameters. */
module FileBatch {
  import opened Wrappers

  datatype Name = Name(text: string)

  /** parse_filename for the job's pattern: the stamp of every name that matches. */
  type Stamps = map<Name, int>

  datatype Outcome = Loaded(inserted: nat, updated: nat) | NoRows | TooBig | DuplicateContent | Failed

  datatype Status = Done | Skipped | Error

  datatype FileResult = FileResult(name: Name, stamp: int, status: Status, inserted: nat, updated: nat)

  datatype RunStatus = RunSuccess | RunSkipped | RunPartialError | RunError | RunCancelled

  /** last_processed_ts and the file lists of the runs so far, oldest first. */
  datatype Job = Job(watermark: Option<int>, history: seq<seq<FileResult>>)

  const MAX_RUNS := 200 // runs looked at for names not to retry

  // ---------- pending files ----------

  function Matched(all: seq<Name>, stamps: Stamps): (r: seq<Name>)
    ensures forall n :: n in r <==> n in all && n in stamps
  {
    if all == [] then []
    else (if all[0] in stamps then [all[0]] else []) + Matched(all[1..], stamps)
  }

  predicate Named(names: seq<Name>, stamps: Stamps) {
    forall n <- names :: n in stamps
  }

  function Insert(name: Name, sorted: seq<Name>, stamps: Stamps): (r: seq<Name>)
    requires name in stamps && Named(sorted, stamps)
    ensures forall n :: n in r <==> n == name || n in sorted
  {
    if sorted == [] || stamps[name] <= stamps[sorted[0]] then [name] + sorted
    else [sorted[0]] + Insert(name, sorted[1..], stamps)
  }

  /** The stable sort by time stamp. */
  function SortByStamp(names: seq<Name>, stamps: Stamps): (r: seq<Name>)
    requires Named(names, stamps)
    ensures forall n :: n in r <==> n in names
  {
    if names == [] then [] else Insert(names[0], SortByStamp(names[1..], stamps), stamps)
  }

  predicate InTime(stamp: int, last: Option<int>, now: int) {
    (last.None? || stamp > last.value) && stamp <= now
  }

  function Keep(names: seq<Name>, stamps: Stamps, last: Option<int>, now: int): (r: seq<Name>)
    requires Named(names, stamps)
    ensures forall n :: n in r <==> n in names && InTime(stamps[n], last, now)
  {
    if names == [] then []
    else (if InTime(stamps[names[0]], last, now) then [names[0]] else []) + Keep(names[1..], stamps, last, now)
  }

  /** get_pending_files */
  function Pending(all: seq<Name>, stamps: Stamps, last: Option<int>, now: int): seq<Name> {
    Keep(SortByStamp(Matched(all, stamps), stamps), stamps, last, now)
  }

  ghost predicate Ascending(names: seq<Name>, stamps: Stamps) {
    Named(names, stamps) && forall i, j :: 0 <= i < j < |names| ==> stamps[names[i]] <= stamps[names[j]]
  }

  ghost predicate Distinct(names: seq<Name>) {
    forall i, j :: 0 <= i < j < |names| ==> names[i] != names[j]
  }

  lemma AscendingTail(names: seq<Name>, stamps: Stamps)
    requires Ascending(names, stamps) && names != []
    ensures Ascending(names[1..], stamps) && forall n :: n in names[1..] ==> stamps[names[0]] <= stamps[n]
  {
  }

  lemma AscendingCons(name: Name, rest: seq<Name>, stamps: Stamps)
    requires name in stamps && Ascending(rest, stamps) && forall n :: n in rest ==> stamps[name] <= stamps[n]
    ensures Ascending([name] + rest, stamps)
  {
  }

  lemma DistinctTail(names: seq<Name>)
    requires Distinct(names) && names != []
    ensures Distinct(names[1..]) && names[0] !in names[1..]
  {
  }

  lemma DistinctCons(name: Name, rest: seq<Name>)
    requires Distinct(rest) && name !in rest
    ensures Distinct([name] + rest)
  {
  }

  /** The names with one stamp, in their order. */
  function Ties(names: seq<Name>, stamps: Stamps, t: int): seq<Name>
    requires Named(names, stamps)
  {
    if names == [] then [] else (if stamps[names[0]] == t then [names[0]] else []) + Ties(names[1..], stamps, t)
  }

  lemma {:induction false} InsertAscending(name: Name, sorted: seq<Name>, stamps: Stamps)
    requires name in stamps && Ascending(sorted, stamps)
    ensures Ascending(Insert(name, sorted, stamps), stamps)
  {
    if sorted != [] {
      AscendingTail(sorted, stamps);
      if stamps[name] <= stamps[sorted[0]] {
        assert sorted == [sorted[0]] + sorted[1..];
        AscendingCons(name, sorted, stamps);
      } else {
        InsertAscending(name, sorted[1..], stamps);
        AscendingCons(sorted[0], Insert(name, sorted[1..], stamps), stamps);
      }
    }
  }

  lemma TiesCons(name: Name, rest: seq<Name>, stamps: Stamps, t: int)
    requires name in stamps && Named(rest, stamps)
    ensures Ties([name] + rest, stamps, t) == (if stamps[name] == t then [name] else []) + Ties(rest, stamps, t)
  {
    assert ([name] + rest)[1..] == rest;
  }

  lemma {:induction false} InsertTies(name: Name, sorted: seq<Name>, stamps: Stamps, t: int)
    requires name in stamps && Named(sorted, stamps)
    ensures Ties(Insert(name, sorted, stamps), stamps, t) == (if stamps[name] == t then [name] else []) + Ties(sorted, stamps, t)
  {
    if sorted == [] || stamps[name] <= stamps[sorted[0]] {
      TiesCons(name, sorted, stamps, t);
    } else {
      var rest := Ties(sorted[1..], stamps, t);
      InsertTies(name, sorted[1..], stamps, t);
      TiesCons(sorted[0], Insert(name, sorted[1..], stamps), stamps, t);
      assert [] + rest == rest && [] + ([name] + rest) == [name] + rest && [] + ([sorted[0]] + rest) == [sorted[0]] + rest;
    }
  }

  /** The sort is ascending and leaves files of one stamp in listing order; this determines it. */
  lemma {:induction false} SortExactly(names: seq<Name>, stamps: Stamps, t: int)
    requires Named(names, stamps)
    ensures Ascending(SortByStamp(names, stamps), stamps)
    ensures Ties(SortByStamp(names, stamps), stamps, t) == Ties(names, stamps, t)
  {
    if names != [] {
      SortExactly(names[1..], stamps, t);
      InsertAscending(names[0], SortByStamp(names[1..], stamps), stamps);
      InsertTies(names[0], SortByStamp(names[1..], stamps), stamps, t);
    }
  }

  lemma {:induction false} InsertDistinct(name: Name, sorted: seq<Name>, stamps: Stamps)
    requires name in stamps && Named(sorted, stamps) && Distinct(sorted) && name !in sorted
    ensures Distinct(Insert(name, sorted, stamps))
  {
    if sorted != [] && stamps[name] > stamps[sorted[0]] {
      InsertDistinct(name, sorted[1..], stamps);
      assert sorted[0] !in sorted[1..];
    }
  }

  lemma {:induction false} SortDistinct(names: seq<Name>, stamps: Stamps)
    requires Named(names, stamps) && Distinct(names)
    ensures Distinct(SortByStamp(names, stamps))
  {
    if names != [] {
      SortDistinct(names[1..], stamps);
      assert names[0] !in names[1..];
      InsertDistinct(names[0], SortByStamp(names[1..], stamps), stamps);
    }
  }

  lemma {:induction false} MatchedDistinct(all: seq<Name>, stamps: Stamps)
    requires Distinct(all)
    ensures Distinct(Matched(all, stamps))
  {
    if all != [] {
      MatchedDistinct(all[1..], stamps);
      assert all[0] !in all[1..];
    }
  }

  lemma {:induction false} KeepAscending(names: seq<Name>, stamps: Stamps, last: Option<int>, now: int)
    requires Ascending(names, stamps)
    ensures Ascending(Keep(names, stamps, last, now), stamps)
  {
    if names != [] {
      AscendingTail(names, stamps);
      KeepAscending(names[1..], stamps, last, now);
      AscendingCons(names[0], Keep(names[1..], stamps, last, now), stamps);
      assert [] + Keep(names[1..], stamps, last, now) == Keep(names[1..], stamps, last, now);
    }
  }

  lemma {:induction false} KeepDistinct(names: seq<Name>, stamps: Stamps, last: Option<int>, now: int)
    requires Named(names, stamps) && Distinct(names)
    ensures Distinct(Keep(names, stamps, last, now))
  {
    if names != [] {
      DistinctTail(names);
      KeepDistinct(names[1..], stamps, last, now);
      DistinctCons(names[0], Keep(names[1..], stamps, last, now));
      assert [] + Keep(names[1..], stamps, last, now) == Keep(names[1..], stamps, last, now);
    }
  }

  /** Pending files are exactly the matching names after the watermark and not in the future,
      oldest first, none twice. */
  lemma PendingExactly(all: seq<Name>, stamps: Stamps, last: Option<int>, now: int)
    requires Distinct(all)
    ensures forall n :: n in Pending(all, stamps, last, now) <==>
              n in all && n in stamps && (last.None? || last.value < stamps[n]) && stamps[n] <= now
    ensures Ascending(Pending(all, stamps, last, now), stamps) && Distinct(Pending(all, stamps, last, now))
  {
    var m := Matched(all, stamps);
    MatchedDistinct(all, stamps);
    SortExactly(m, stamps, 0);
    SortDistinct(m, stamps);
    KeepAscending(SortByStamp(m, stamps), stamps, last, now);
    KeepDistinct(SortByStamp(m, stamps), stamps, last, now);
  }

  lemma MatchedStep(matched: seq<Name>, all: seq<Name>, i: nat, stamps: Stamps)
    requires i < |all|
    ensures matched + Matched(all[i..], stamps) == (matched + if all[i] in stamps then [all[i]] else []) + Matched(all[i + 1..], stamps)
  {
    assert all[i..][1..] == all[i + 1..];
  }

  method GetPendingFiles(all: seq<Name>, stamps: Stamps, last: Option<int>, now: int) returns (r: seq<Name>)
    ensures r == Pending(all, stamps, last, now)
  {
    var matched: seq<Name> := [];
    var i := 0;
    while i < |all|
      invariant 0 <= i <= |all|
      invariant matched + Matched(all[i..], stamps) == Matched(all, stamps)
    {
      MatchedStep(matched, all, i, stamps);
      if all[i] in stamps {
        matched := matched + [all[i]];
      }
      i := i + 1;
    }
    assert matched == Matched(all, stamps);
    r := Keep(SortByStamp(matched, stamps), stamps, last, now);
  }

  // ---------- one run ----------

  function Record(name: Name, stamp: int, o: Outcome): FileResult {
    match o
    case Loaded(inserted, updated) => FileResult(name, stamp, Done, inserted, updated)
    case NoRows => FileResult(name, stamp, Done, 0, 0)
    case TooBig => FileResult(name, stamp, Skipped, 0, 0)
    case DuplicateContent => FileResult(name, stamp, Skipped, 0, 0)
    case Failed => FileResult(name, stamp, Error, 0, 0)
  }

  /** How many files the loop attempts from index i on: it ends at a cancellation, after a
      failure when the job says stop, or at the end. */
  function CutAt(todo: seq<Name>, outcome: Name -> Outcome, cancel: nat -> bool, stop: bool, i: nat): (k: nat)
    requires i <= |todo|
    ensures i <= k <= |todo|
    ensures !stop && (forall j: nat :: !cancel(j)) ==> k == |todo|
    decreases |todo| - i
  {
    if i == |todo| || cancel(i) then i
    else if stop && outcome(todo[i]).Failed? then i + 1
    else CutAt(todo, outcome, cancel, stop, i + 1)
  }

  function Results(todo: seq<Name>, stamps: Stamps, outcome: Name -> Outcome): (r: seq<FileResult>)
    requires Named(todo, stamps)
    ensures |r| == |todo|
  {
    if todo == [] then []
    else
      var n := |todo| - 1;
      Results(todo[..n], stamps, outcome) + [Record(todo[n], stamps[todo[n]], outcome(todo[n]))]
  }

  lemma {:induction false} ResultsAt(todo: seq<Name>, stamps: Stamps, outcome: Name -> Outcome, i: nat)
    requires Named(todo, stamps) && i < |todo|
    ensures Results(todo, stamps, outcome)[i] == Record(todo[i], stamps[todo[i]], outcome(todo[i]))
  {
    if i < |todo| - 1 {
      ResultsAt(todo[..|todo| - 1], stamps, outcome, i);
    }
  }

  lemma ResultsGrow(todo: seq<Name>, stamps: Stamps, outcome: Name -> Outcome, i: nat)
    requires Named(todo, stamps) && i < |todo|
    ensures Results(todo[..i + 1], stamps, outcome) ==
            Results(todo[..i], stamps, outcome) + [Record(todo[i], stamps[todo[i]], outcome(todo[i]))]
  {
    assert todo[..i + 1][..i] == todo[..i];
  }

  function Inserted(rs: seq<FileResult>): nat {
    if rs == [] then 0 else Inserted(rs[..|rs| - 1]) + rs[|rs| - 1].inserted
  }

  function Updated(rs: seq<FileResult>): nat {
    if rs == [] then 0 else Updated(rs[..|rs| - 1]) + rs[|rs| - 1].updated
  }

  lemma TotalsGrow(rs: seq<FileResult>, row: FileResult)
    ensures Inserted(rs + [row]) == Inserted(rs) + row.inserted && Updated(rs + [row]) == Updated(rs) + row.updated
  {
    assert (rs + [row])[..|rs|] == rs;
  }

  function Overall(rs: seq<FileResult>): RunStatus {
    if rs != [] && forall r <- rs :: r.status == Skipped then RunSkipped
    else if exists r <- rs :: r.status == Error then RunPartialError
    else RunSuccess
  }

  function Recent(history: seq<seq<FileResult>>): seq<seq<FileResult>> {
    history[if |history| > MAX_RUNS then |history| - MAX_RUNS else 0..]
  }

  /** get_skipped_filenames_set */
  ghost predicate NotRetried(history: seq<seq<FileResult>>, name: Name) {
    exists run, r :: run in Recent(history) && r in run && r.name == name && r.status != Done
  }

  function SkippedNames(history: seq<seq<FileResult>>): (names: set<Name>)
    ensures forall n :: n in names <==> NotRetried(history, n)
  {
    set run, r | run in Recent(history) && r in run && r.status != Done :: r.name
  }

  function Without(names: seq<Name>, skipped: set<Name>): (r: seq<Name>)
    ensures forall n :: n in r <==> n in names && n !in skipped
  {
    if names == [] then [] else (if names[0] in skipped then [] else [names[0]]) + Without(names[1..], skipped)
  }

  /** The files a run that reads the job now sets out to attempt. */
  function Todo(job: Job, all: seq<Name>, stamps: Stamps, now: int): seq<Name> {
    Without(Pending(all, stamps, job.watermark, now), SkippedNames(job.history))
  }

  datatype Report = Report(status: RunStatus, inserted: nat, updated: nat, results: seq<FileResult>)

  function ReportOf(todo: seq<Name>, stamps: Stamps, outcome: Name -> Outcome, cancel: nat -> bool, stop: bool): Report
    requires Named(todo, stamps)
  {
    var k := CutAt(todo, outcome, cancel, stop, 0);
    var rs := Results(todo[..k], stamps, outcome);
    var cut := CutStatus(todo, outcome, stop, k);
    Report(if cut.Some? then cut.value else Overall(rs), Inserted(rs), Updated(rs), rs)
  }

  predicate StoppedAt(todo: seq<Name>, outcome: Name -> Outcome, stop: bool, k: nat)
    requires k <= |todo|
  {
    stop && k > 0 && outcome(todo[k - 1]).Failed?
  }

  /** The status of a run that ends after k files without reaching the end normally. */
  function CutStatus(todo: seq<Name>, outcome: Name -> Outcome, stop: bool, k: nat): Option<RunStatus>
    requires k <= |todo|
  {
    if StoppedAt(todo, outcome, stop, k) then Some(RunError) else if k < |todo| then Some(RunCancelled) else None
  }

  /** The job after a claimed run over a to-do list, whenever that list was read. */
  function AfterRun(job: Job, todo: seq<Name>, stamps: Stamps, outcome: Name -> Outcome, cancel: nat -> bool, stop: bool): Job
    requires Named(todo, stamps)
  {
    var k := CutAt(todo, outcome, cancel, stop, 0);
    Job(WatermarkAt(job, todo, stamps, k), job.history + [Results(todo[..k], stamps, outcome)])
  }

  /** The stored watermark after k attempts. */
  function WatermarkAt(job: Job, todo: seq<Name>, stamps: Stamps, k: nat): Option<int>
    requires Named(todo, stamps) && k <= |todo|
  {
    if k == 0 then job.watermark else Some(stamps[todo[k - 1]])
  }

  predicate SoFar(done: seq<Name>, stamps: Stamps, outcome: Name -> Outcome, results: seq<FileResult>, inserted: int, updated: int)
    requires Named(done, stamps)
  {
    results == Results(done, stamps, outcome) && inserted == Inserted(results) && updated == Updated(results)
  }

  lemma OneMore(todo: seq<Name>, stamps: Stamps, outcome: Name -> Outcome, i: nat, results: seq<FileResult>, inserted: int, updated: int)
    requires Named(todo, stamps) && i < |todo| && SoFar(todo[..i], stamps, outcome, results, inserted, updated)
    ensures var row := Record(todo[i], stamps[todo[i]], outcome(todo[i]));
            SoFar(todo[..i + 1], stamps, outcome, results + [row], inserted + row.inserted, updated + row.updated)
  {
    ResultsGrow(todo, stamps, outcome, i);
    TotalsGrow(results, Record(todo[i], stamps[todo[i]], outcome(todo[i])));
  }

  class FileBatchJob {
    var job: Job

    constructor (initial: Job)
      ensures job == initial
    {
      job := initial;
    }

    /** The per-file loop; `cut` is the status of a run that ended inside it. */
    method AttemptFiles(todo: seq<Name>, stamps: Stamps, outcome: Name -> Outcome, cancel: nat -> bool, stop: bool)
      returns (k: nat, results: seq<FileResult>, inserted: nat, updated: nat, cut: Option<RunStatus>)
      requires Named(todo, stamps)
      modifies this
      ensures k == CutAt(todo, outcome, cancel, stop, 0) && cut == CutStatus(todo, outcome, stop, k)
      ensures SoFar(todo[..k], stamps, outcome, results, inserted, updated)
      ensures job == Job(WatermarkAt(old(job), todo, stamps, k), old(job.history))
    {
      inserted, updated, results, k, cut := 0, 0, [], 0, None;
      while k < |todo|
        invariant k <= |todo| && CutAt(todo, outcome, cancel, stop, k) == CutAt(todo, outcome, cancel, stop, 0)
        invariant SoFar(todo[..k], stamps, outcome, results, inserted, updated)
        invariant job == Job(WatermarkAt(old(job), todo, stamps, k), old(job.history))
        invariant cut == None && !StoppedAt(todo, outcome, stop, k)
      {
        if cancel(k) {
          cut := Some(RunCancelled);
          return;
        }
        var row := Record(todo[k], stamps[todo[k]], outcome(todo[k]));
        OneMore(todo, stamps, outcome, k, results, inserted, updated);
        results := results + [row];
        inserted, updated := inserted + row.inserted, updated + row.updated;
        job := job.(watermark := Some(stamps[todo[k]]));
        k := k + 1;
        if stop && row.status == Error {
          cut := Some(RunError);
          return;
        }
      }
    }

    /** The claimed part of run_batch_job. */
    method ProcessFiles(todo: seq<Name>, stamps: Stamps, outcome: Name -> Outcome, cancel: nat -> bool, stop: bool)
      returns (report: Report)
      requires Named(todo, stamps)
      modifies this
      ensures job == AfterRun(old(job), todo, stamps, outcome, cancel, stop)
      ensures report == ReportOf(todo, stamps, outcome, cancel, stop)
    {
      var k, results, inserted, updated, cut := AttemptFiles(todo, stamps, outcome, cancel, stop);
      job := job.(history := job.history + [results]);
      report := Report(if cut.Some? then cut.value else Overall(results), inserted, updated, results);
    }

    /** run_batch_job when nothing else touches the job between reading it and claiming it. */
    method RunBatchJob(all: seq<Name>, now: int, stamps: Stamps, outcome: Name -> Outcome, cancel: nat -> bool, stop: bool)
      returns (report: Option<Report>)
      modifies this
      ensures Named(Todo(old(job), all, stamps, now), stamps)
      ensures var todo := Todo(old(job), all, stamps, now);
              if todo == [] then job == old(job) && report == None
              else job == AfterRun(old(job), todo, stamps, outcome, cancel, stop)
                   && report == Some(ReportOf(todo, stamps, outcome, cancel, stop))
    {
      var pending := GetPendingFiles(all, stamps, job.watermark, now);
      if pending == [] {
        return None;
      }
      var todo := Without(pending, SkippedNames(job.history));
      if todo == [] {
        return None;
      }
      var r := ProcessFiles(todo, stamps, outcome, cancel, stop);
      report := Some(r);
    }
  }

  // ---------- any sequence of runs ----------

  function Flatten(history: seq<seq<FileResult>>): seq<FileResult> {
    if history == [] then [] else Flatten(history[..|history| - 1]) + history[|history| - 1]
  }

  /** Every attempt so far, in order. */
  function Log(job: Job): seq<FileResult> {
    Flatten(job.history)
  }

  ghost predicate Orderly(log: seq<FileResult>, watermark: Option<int>) {
    && (forall i, j :: 0 <= i < j < |log| ==> log[i].name != log[j].name && log[i].stamp <= log[j].stamp)
    && watermark == if log == [] then None else Some(log[|log| - 1].stamp)
  }

  /** No file attempted twice, attempts in stamp order, the watermark at the last one. */
  ghost predicate Inv(job: Job, stamps: Stamps) {
    Orderly(Log(job), job.watermark) && Stamped(Log(job), stamps)
  }

  /** A claimed run: the list it read, earlier or now, and how its files turn out. */
  datatype Claim = Claim(todo: seq<Name>, outcome: Name -> Outcome, cancel: nat -> bool, stop: bool)

  ghost predicate ReadInOrder(c: Claim, stamps: Stamps) {
    Ascending(c.todo, stamps) && Distinct(c.todo)
  }

  /** Everything on the list still lies beyond the watermark when the run is claimed. */
  predicate Fresh(job: Job, c: Claim, stamps: Stamps)
    requires Named(c.todo, stamps)
  {
    c.todo == [] || job.watermark.None? || stamps[c.todo[0]] > job.watermark.value
  }

  function After(job: Job, c: Claim, stamps: Stamps): Job
    requires Named(c.todo, stamps)
  {
    AfterRun(job, c.todo, stamps, c.outcome, c.cancel, c.stop)
  }

  function Attempts(c: Claim): (k: nat)
    ensures k <= |c.todo|
  {
    CutAt(c.todo, c.outcome, c.cancel, c.stop, 0)
  }

  /** w is an earlier watermark than other; none at all is before every stamp. */
  predicate Behind(w: Option<int>, other: Option<int>) {
    other.Some? && (w.None? || w.value < other.value)
  }

  lemma LogGrows(job: Job, c: Claim, stamps: Stamps)
    requires Named(c.todo, stamps)
    ensures Log(After(job, c, stamps)) == Log(job) + Results(c.todo[..Attempts(c)], stamps, c.outcome)
  {
    var rs := Results(c.todo[..Attempts(c)], stamps, c.outcome);
    assert (job.history + [rs])[..|job.history|] == job.history;
  }

  lemma ExtendOrderly(log: seq<FileResult>, w: Option<int>, more: seq<FileResult>, stamps: Stamps)
    requires Orderly(log, w) && more != []
    requires forall i, j :: 0 <= i < j < |more| ==> more[i].name != more[j].name && more[i].stamp <= more[j].stamp
    requires w.Some? ==> more[0].stamp > w.value
    requires Stamped(log, stamps) && Stamped(more, stamps)
    ensures Orderly(log + more, Some(more[|more| - 1].stamp))
  {
    var all := log + more;
    forall i, j | 0 <= i < j < |all| ensures all[i].name != all[j].name && all[i].stamp <= all[j].stamp {
      if i < |log| <= j {
        Crosses(log, w, more, stamps, i, j - |log|);
      }
    }
  }

  lemma Crosses(log: seq<FileResult>, w: Option<int>, more: seq<FileResult>, stamps: Stamps, i: nat, j: nat)
    requires Orderly(log, w) && i < |log| && j < |more|
    requires forall a, b :: 0 <= a < b < |more| ==> more[a].stamp <= more[b].stamp
    requires w.Some? ==> more[0].stamp > w.value
    requires Stamped(log, stamps) && Stamped(more, stamps)
    ensures log[i].stamp < more[j].stamp && log[i].name != more[j].name
  {
    Below(log, w, i);
    assert more[0].stamp <= more[j].stamp;
    assert log[i] in log && more[j] in more;
  }

  lemma Below(log: seq<FileResult>, w: Option<int>, i: nat)
    requires Orderly(log, w) && i < |log|
    ensures w.Some? && log[i].stamp <= w.value
  {
    if i < |log| - 1 {
      assert log[i].stamp <= log[|log| - 1].stamp;
    }
  }

  lemma ResultsInOrder(todo: seq<Name>, stamps: Stamps, outcome: Name -> Outcome)
    requires Ascending(todo, stamps) && Distinct(todo)
    ensures RowsOf(Results(todo, stamps, outcome), todo, stamps)
  {
    var rs := Results(todo, stamps, outcome);
    forall i | 0 <= i < |rs| ensures rs[i].name == todo[i] && rs[i].stamp == stamps[todo[i]] {
      ResultsAt(todo, stamps, outcome, i);
    }
  }

  ghost predicate RowsOf(rs: seq<FileResult>, todo: seq<Name>, stamps: Stamps)
    requires Named(todo, stamps)
  {
    && |rs| == |todo|
    && (forall i :: 0 <= i < |rs| ==> rs[i].name == todo[i] && rs[i].stamp == stamps[todo[i]])
    && (forall i, j :: 0 <= i < j < |rs| ==> rs[i].name != rs[j].name && rs[i].stamp <= rs[j].stamp)
  }

  ghost predicate Stamped(log: seq<FileResult>, stamps: Stamps) {
    forall r :: r in log ==> r.name in stamps && r.stamp == stamps[r.name]
  }

  /** What a claim attempts is an ordered prefix of its list. */
  lemma AttemptedRows(c: Claim, stamps: Stamps)
    requires ReadInOrder(c, stamps)
    ensures Ascending(c.todo[..Attempts(c)], stamps) && Distinct(c.todo[..Attempts(c)])
    ensures RowsOf(Results(c.todo[..Attempts(c)], stamps, c.outcome), c.todo[..Attempts(c)], stamps)
    ensures Stamped(Results(c.todo[..Attempts(c)], stamps, c.outcome), stamps)
  {
    ResultsInOrder(c.todo[..Attempts(c)], stamps, c.outcome);
    RowsStamped(Results(c.todo[..Attempts(c)], stamps, c.outcome), c.todo[..Attempts(c)], stamps);
  }

  lemma RowsStamped(rs: seq<FileResult>, todo: seq<Name>, stamps: Stamps)
    requires Named(todo, stamps) && RowsOf(rs, todo, stamps)
    ensures Stamped(rs, stamps)
  {
  }

  /** A fresh claim keeps the log orderly and never takes the watermark back. */
  lemma ClaimKeeps(job: Job, c: Claim, stamps: Stamps)
    requires Inv(job, stamps) && ReadInOrder(c, stamps) && Fresh(job, c, stamps)
    ensures Inv(After(job, c, stamps), stamps)
    ensures !Behind(After(job, c, stamps).watermark, job.watermark)
  {
    var k := Attempts(c);
    var rs := Results(c.todo[..k], stamps, c.outcome);
    LogGrows(job, c, stamps);
    AttemptedRows(c, stamps);
    if k == 0 {
      assert Log(job) + rs == Log(job);
    } else {
      Advances(c, stamps, k);
      ExtendOrderly(Log(job), job.watermark, rs, stamps);
      StampedJoin(Log(job), rs, stamps);
    }
  }

  lemma Advances(c: Claim, stamps: Stamps, k: nat)
    requires ReadInOrder(c, stamps) && 0 < k <= |c.todo|
    ensures stamps[c.todo[0]] <= stamps[c.todo[k - 1]]
  {
  }

  lemma StampedJoin(a: seq<FileResult>, b: seq<FileResult>, stamps: Stamps)
    requires Stamped(a, stamps) && Stamped(b, stamps)
    ensures Stamped(a + b, stamps)
  {
  }

  lemma {:induction false} WithoutKeeps(names: seq<Name>, skipped: set<Name>, stamps: Stamps)
    requires Ascending(names, stamps) && Distinct(names)
    ensures Ascending(Without(names, skipped), stamps) && Distinct(Without(names, skipped))
  {
    if names != [] {
      AscendingTail(names, stamps);
      DistinctTail(names);
      WithoutKeeps(names[1..], skipped, stamps);
      AscendingCons(names[0], Without(names[1..], skipped), stamps);
      DistinctCons(names[0], Without(names[1..], skipped));
      assert [] + Without(names[1..], skipped) == Without(names[1..], skipped);
    }
  }

  /** A run that nothing interleaves with is read in order and claimed fresh. */
  lemma SequentialIsFresh(job: Job, all: seq<Name>, now: int, stamps: Stamps, c: Claim)
    requires Distinct(all) && c.todo == Todo(job, all, stamps, now)
    ensures ReadInOrder(c, stamps) && Fresh(job, c, stamps)
  {
    PendingExactly(all, stamps, job.watermark, now);
    WithoutKeeps(Pending(all, stamps, job.watermark, now), SkippedNames(job.history), stamps);
    assert c.todo != [] ==> c.todo[0] in c.todo;
  }

  ghost predicate AllFresh(job: Job, cs: seq<Claim>, stamps: Stamps)
    decreases |cs|
  {
    cs == [] ||
    (ReadInOrder(cs[0], stamps) && Fresh(job, cs[0], stamps) && AllFresh(After(job, cs[0], stamps), cs[1..], stamps))
  }

  ghost function RunAll(job: Job, cs: seq<Claim>, stamps: Stamps): Job
    requires AllFresh(job, cs, stamps)
    decreases |cs|
  {
    if cs == [] then job else RunAll(After(job, cs[0], stamps), cs[1..], stamps)
  }

  /** Over any sequence of fresh runs, cancelled, stopped or complete: no file is attempted
      twice, attempts come in stamp order, the watermark never falls and the log only grows. */
  lemma {:induction false} RunsKeep(job: Job, cs: seq<Claim>, stamps: Stamps)
    requires Inv(job, stamps) && AllFresh(job, cs, stamps)
    ensures Inv(RunAll(job, cs, stamps), stamps)
    ensures !Behind(RunAll(job, cs, stamps).watermark, job.watermark)
    ensures Log(job) <= Log(RunAll(job, cs, stamps))
    decreases |cs|
  {
    if cs != [] {
      ClaimKeeps(job, cs[0], stamps);
      LogGrows(job, cs[0], stamps);
      RunsKeep(After(job, cs[0], stamps), cs[1..], stamps);
    }
  }

  lemma NotAmong(job: Job, c: Claim, stamps: Stamps, name: Name)
    requires ReadInOrder(c, stamps) && Fresh(job, c, stamps)
    requires name in stamps && job.watermark.Some? && stamps[name] <= job.watermark.value
    ensures forall r :: r in Results(c.todo[..Attempts(c)], stamps, c.outcome) ==> r.name != name
  {
    AttemptedRows(c, stamps);
    var rs := Results(c.todo[..Attempts(c)], stamps, c.outcome);
    forall r | r in rs ensures r.name != name {
      var i :| 0 <= i < |rs| && rs[i] == r;
      assert rs[i].stamp >= rs[0].stamp;
    }
  }

  /** A file at or below the watermark that was not attempted never will be. */
  lemma {:induction false} BehindIsNeverAttempted(job: Job, cs: seq<Claim>, stamps: Stamps, name: Name)
    requires Inv(job, stamps) && AllFresh(job, cs, stamps)
    requires name in stamps && job.watermark.Some? && stamps[name] <= job.watermark.value
    requires forall r :: r in Log(job) ==> r.name != name
    ensures forall r :: r in Log(RunAll(job, cs, stamps)) ==> r.name != name
    decreases |cs|
  {
    if cs != [] {
      var c := cs[0];
      ClaimKeeps(job, c, stamps);
      LogGrows(job, c, stamps);
      NotAmong(job, c, stamps, name);
      BehindIsNeverAttempted(After(job, c, stamps), cs[1..], stamps, name);
    }
  }

  // ---------- complete and cut runs ----------

  ghost predicate RunsThrough(c: Claim) {
    !c.stop && forall i: nat :: !c.cancel(i)
  }

  /** A run that is not cancelled and continues past failures attempts every file it set out
      for, once, in order, and its totals are the sums over the file results. */
  lemma CompleteRun(job: Job, c: Claim, stamps: Stamps)
    requires Inv(job, stamps) && ReadInOrder(c, stamps) && Fresh(job, c, stamps)
    requires RunsThrough(c)
    ensures var rep := ReportOf(c.todo, stamps, c.outcome, c.cancel, c.stop);
            && |rep.results| == |c.todo| && Log(After(job, c, stamps)) == Log(job) + rep.results
            && (forall i :: 0 <= i < |c.todo| ==> rep.results[i].name == c.todo[i])
            && rep.inserted == Inserted(rep.results) && rep.updated == Updated(rep.results)
            && rep.status != RunCancelled && rep.status != RunError
            && (rep.status == RunPartialError ==> exists n :: n in c.todo && c.outcome(n).Failed?)
            && (rep.status == RunSuccess ==> forall n :: n in c.todo ==> !c.outcome(n).Failed?)
  {
    LogGrows(job, c, stamps);
    assert c.todo[..|c.todo|] == c.todo;
    ResultsInOrder(c.todo, stamps, c.outcome);
    OverallMeaning(c.todo, stamps, c.outcome);
  }

  lemma OverallMeaning(todo: seq<Name>, stamps: Stamps, outcome: Name -> Outcome)
    requires Named(todo, stamps)
    ensures Overall(Results(todo, stamps, outcome)) == RunPartialError ==> exists n :: n in todo && outcome(n).Failed?
    ensures Overall(Results(todo, stamps, outcome)) == RunSuccess ==> forall n :: n in todo ==> !outcome(n).Failed?
  {
    var rs := Results(todo, stamps, outcome);
    if Overall(rs) == RunPartialError {
      var i :| 0 <= i < |rs| && rs[i].status == Error;
      ResultsAt(todo, stamps, outcome, i);
      assert todo[i] in todo;
    } else if Overall(rs) == RunSuccess {
      forall i | 0 <= i < |todo| ensures !outcome(todo[i]).Failed? {
        ResultsAt(todo, stamps, outcome, i);
        assert rs[i] in rs;
      }
    }
  }

  lemma RecentGrows(history: seq<seq<FileResult>>, rs: seq<FileResult>)
    ensures forall run :: run in Recent(history + [rs]) ==> run == rs || run in Recent(history)
  {
    var all := history + [rs];
    var from := if |all| > MAX_RUNS then |all| - MAX_RUNS else 0;
    var before := if |history| > MAX_RUNS then |history| - MAX_RUNS else 0;
    forall run | run in Recent(all) ensures run == rs || run in Recent(history) {
      var i :| from <= i < |all| && all[i] == run;
      if i < |history| {
        assert Recent(history)[i - before] == run;
      }
    }
  }

  lemma LeftoverIsNotAttempted(c: Claim, stamps: Stamps, j: nat)
    requires ReadInOrder(c, stamps) && Attempts(c) <= j < |c.todo|
    ensures forall r :: r in Results(c.todo[..Attempts(c)], stamps, c.outcome) ==> r.name != c.todo[j]
  {
    var rs := Results(c.todo[..Attempts(c)], stamps, c.outcome);
    AttemptedRows(c, stamps);
    forall r | r in rs ensures r.name != c.todo[j] {
      var i :| 0 <= i < |rs| && rs[i] == r;
      assert r.name == c.todo[i];
    }
  }

  /** A file the run left over is not among the names the history keeps from being retried. */
  lemma LeftoverIsRetried(job: Job, c: Claim, stamps: Stamps, j: nat)
    requires ReadInOrder(c, stamps) && Attempts(c) <= j < |c.todo|
    requires !NotRetried(job.history, c.todo[j])
    ensures !NotRetried(After(job, c, stamps).history, c.todo[j])
  {
    var rs := Results(c.todo[..Attempts(c)], stamps, c.outcome);
    RecentGrows(job.history, rs);
    LeftoverIsNotAttempted(c, stamps, j);
    forall run, r | run in Recent(job.history + [rs]) && r in run && r.name == c.todo[j]
      ensures r.status == Done
    {
      assert run != rs;
    }
  }

  lemma TodoExactly(job: Job, all: seq<Name>, stamps: Stamps, now: int, n: Name)
    ensures n in Todo(job, all, stamps, now) <==>
            n in all && n in stamps && InTime(stamps[n], job.watermark, now) && !NotRetried(job.history, n)
  {
  }

  /** Nothing had been attempted, or the listed file j is stamped after the last attempt. */
  ghost predicate NotTied(c: Claim, stamps: Stamps, j: nat)
    requires Named(c.todo, stamps) && Attempts(c) <= j < |c.todo|
  {
    Attempts(c) == 0 || stamps[c.todo[j]] > stamps[c.todo[Attempts(c) - 1]]
  }

  lemma LeftoverExactly(job: Job, c: Claim, stamps: Stamps, all: seq<Name>, now: int, all': seq<Name>, now': int, j: nat)
    requires ReadInOrder(c, stamps) && c.todo == Todo(job, all, stamps, now) && Attempts(c) <= j < |c.todo|
    requires now <= now' && c.todo[j] in all'
    ensures c.todo[j] in Todo(After(job, c, stamps), all', stamps, now') <==> NotTied(c, stamps, j)
  {
    var n := c.todo[j];
    assert n in c.todo;
    TodoExactly(job, all, stamps, now, n);
    LeftoverIsRetried(job, c, stamps, j);
    TodoExactly(After(job, c, stamps), all', stamps, now', n);
  }

  lemma TiesComeFirst(c: Claim, stamps: Stamps, j: nat)
    requires ReadInOrder(c, stamps) && Attempts(c) <= j < |c.todo| && NotTied(c, stamps, Attempts(c))
    ensures NotTied(c, stamps, j)
  {
    assert stamps[c.todo[Attempts(c)]] <= stamps[c.todo[j]];
  }

  lemma AllLeftovers(c: Claim, stamps: Stamps, next: seq<Name>)
    requires ReadInOrder(c, stamps) && Attempts(c) < |c.todo|
    requires forall j :: Attempts(c) <= j < |c.todo| ==> (c.todo[j] in next <==> NotTied(c, stamps, j))
    ensures (forall j :: Attempts(c) <= j < |c.todo| ==> c.todo[j] in next) <==> NotTied(c, stamps, Attempts(c))
  {
    if NotTied(c, stamps, Attempts(c)) {
      forall j | Attempts(c) <= j < |c.todo| ensures c.todo[j] in next {
        TiesComeFirst(c, stamps, j);
      }
    }
  }

  lemma EachLeftover(job: Job, c: Claim, stamps: Stamps, all: seq<Name>, now: int, next: seq<Name>, all': seq<Name>, now': int)
    requires ReadInOrder(c, stamps) && c.todo == Todo(job, all, stamps, now)
    requires now <= now' && forall n :: n in c.todo ==> n in all'
    requires next == Todo(After(job, c, stamps), all', stamps, now')
    ensures forall j :: Attempts(c) <= j < |c.todo| ==> (c.todo[j] in next <==> NotTied(c, stamps, j))
  {
    forall j | Attempts(c) <= j < |c.todo| ensures c.todo[j] in next <==> NotTied(c, stamps, j) {
      assert c.todo[j] in c.todo;
      LeftoverExactly(job, c, stamps, all, now, all', now', j);
    }
  }

  /** A cancelled or stopped run that nothing interleaved with leaves files over. The next run
      over a listing that still shows them sets out to attempt a leftover file exactly if nothing
      had been attempted or the stamp of the file is greater than that of the last attempt; it
      sets out to attempt all of them exactly if this holds of the first. */
  lemma CutRunExactly(job: Job, c: Claim, stamps: Stamps, all: seq<Name>, now: int, next: seq<Name>, all': seq<Name>, now': int)
    requires Distinct(all) && c.todo == Todo(job, all, stamps, now) && Attempts(c) < |c.todo|
    requires now <= now' && forall n :: n in c.todo ==> n in all'
    requires next == Todo(After(job, c, stamps), all', stamps, now')
    ensures ReadInOrder(c, stamps)
    ensures forall j :: Attempts(c) <= j < |c.todo| ==> (c.todo[j] in next <==> NotTied(c, stamps, j))
    ensures (forall j :: Attempts(c) <= j < |c.todo| ==> c.todo[j] in next) <==> NotTied(c, stamps, Attempts(c))
  {
    SequentialIsFresh(job, all, now, stamps, c);
    EachLeftover(job, c, stamps, all, now, next, all', now');
    AllLeftovers(c, stamps, next);
  }

  /** When the next file ties with the last one attempted, no later run attempts it. */
  lemma TieIsLost(job: Job, c: Claim, cs: seq<Claim>, stamps: Stamps)
    requires Inv(job, stamps) && ReadInOrder(c, stamps) && Fresh(job, c, stamps) && 0 < Attempts(c) < |c.todo|
    requires stamps[c.todo[Attempts(c)]] == stamps[c.todo[Attempts(c) - 1]]
    requires AllFresh(After(job, c, stamps), cs, stamps)
    ensures forall r :: r in Log(RunAll(After(job, c, stamps), cs, stamps)) ==> r.name != c.todo[Attempts(c)]
  {
    var k := Attempts(c);
    var name := c.todo[k];
    ClaimKeeps(job, c, stamps);
    LogGrows(job, c, stamps);
    forall r | r in Log(After(job, c, stamps)) ensures r.name != name {
      NotYet(job, c, stamps, r);
    }
    BehindIsNeverAttempted(After(job, c, stamps), cs, stamps, name);
  }

  lemma NotYet(job: Job, c: Claim, stamps: Stamps, r: FileResult)
    requires Inv(job, stamps) && ReadInOrder(c, stamps) && Fresh(job, c, stamps) && 0 < Attempts(c) < |c.todo|
    requires r in Log(After(job, c, stamps))
    ensures r.name != c.todo[Attempts(c)]
  {
    var k := Attempts(c);
    var rs := Results(c.todo[..k], stamps, c.outcome);
    LogGrows(job, c, stamps);
    AttemptedRows(c, stamps);
    if r in rs {
      var i :| 0 <= i < |rs| && rs[i] == r;
      assert r.name == c.todo[i];
    } else {
      var i :| 0 <= i < |Log(job)| && Log(job)[i] == r;
      Below(Log(job), job.watermark, i);
      assert stamps[c.todo[0]] <= stamps[c.todo[k]];
    }
  }

  // ---------- runs that read before another run ends ----------

  /** The watermark and the list are read before the run is claimed, so another run may finish
      in between. The first attempt then takes the watermark back exactly if the first listed
      stamp is below the watermark found at the claim. */
  lemma StaleClaimExactly(job: Job, c: Claim, stamps: Stamps)
    requires ReadInOrder(c, stamps) && Attempts(c) > 0 && job.watermark.Some?
    ensures stamps[c.todo[0]] < job.watermark.value <==>
            exists k: nat :: 1 <= k <= Attempts(c) && Behind(WatermarkAt(job, c.todo, stamps, k), job.watermark)
  {
    if stamps[c.todo[0]] < job.watermark.value {
      assert Behind(WatermarkAt(job, c.todo, stamps, 1), job.watermark);
    } else {
      forall k: nat | 1 <= k <= Attempts(c) ensures !Behind(WatermarkAt(job, c.todo, stamps, k), job.watermark) {
        assert stamps[c.todo[0]] <= stamps[c.todo[k - 1]];
      }
    }
  }

  /** The checksum test: a file whose content an earlier run has recorded is skipped. */
  ghost predicate SkipsKnownContent(c: Claim, again: Claim) {
    forall n :: n in c.todo && (c.outcome(n).Loaded? || c.outcome(n).NoRows?) ==> again.outcome(n) == DuplicateContent
  }

  lemma WholeList(c: Claim)
    requires RunsThrough(c)
    ensures Attempts(c) == |c.todo| && c.todo[..Attempts(c)] == c.todo
  {
  }

  lemma TwiceLogged(job: Job, c: Claim, again: Claim, stamps: Stamps)
    requires Named(c.todo, stamps) && RunsThrough(c) && RunsThrough(again) && again.todo == c.todo
    ensures Log(After(After(job, c, stamps), again, stamps)) ==
            Log(job) + Results(c.todo, stamps, c.outcome) + Results(c.todo, stamps, again.outcome)
  {
    WholeList(c);
    WholeList(again);
    LogGrows(job, c, stamps);
    LogGrows(After(job, c, stamps), again, stamps);
  }

  lemma TwiceNotInv(job: Job, c: Claim, again: Claim, stamps: Stamps)
    requires ReadInOrder(c, stamps) && c.todo != [] && RunsThrough(c) && RunsThrough(again) && again.todo == c.todo
    ensures !Inv(After(After(job, c, stamps), again, stamps), stamps)
  {
    var rs, more := Results(c.todo, stamps, c.outcome), Results(c.todo, stamps, again.outcome);
    TwiceLogged(job, c, again, stamps);
    ResultsAt(c.todo, stamps, c.outcome, 0);
    ResultsAt(c.todo, stamps, again.outcome, 0);
    TwiceNotOrderly(Log(job), rs, more, After(After(job, c, stamps), again, stamps).watermark);
  }

  lemma FreshIsLost(job: Job, c: Claim, again: Claim, stamps: Stamps)
    requires ReadInOrder(c, stamps) && c.todo != [] && RunsThrough(c) && again.todo == c.todo
    ensures !Fresh(After(job, c, stamps), again, stamps)
  {
    WholeList(c);
    assert stamps[c.todo[0]] <= stamps[c.todo[|c.todo| - 1]];
  }

  /** A file the first run loaded is skipped by the second one and not retried from then on. */
  lemma LoadedIsSkipped(job: Job, c: Claim, again: Claim, stamps: Stamps, i: nat)
    requires Named(c.todo, stamps) && RunsThrough(again) && again.todo == c.todo && SkipsKnownContent(c, again)
    requires i < |c.todo| && Record(c.todo[i], stamps[c.todo[i]], c.outcome(c.todo[i])).status == Done
    ensures var row := Results(c.todo, stamps, again.outcome)[i]; row.status == Skipped && row.inserted == 0
    ensures NotRetried(After(job, again, stamps).history, c.todo[i])
  {
    var more := Results(c.todo, stamps, again.outcome);
    assert c.todo[i] in c.todo;
    ResultsAt(c.todo, stamps, again.outcome, i);
    WholeList(again);
    var history := After(job, again, stamps).history;
    assert history[|history| - 1] == more;
    LastIsRecent(history);
    assert more[i] in more;
  }

  /** Two runs that read the same list before either is claimed: each claim finds the job idle,
      yet every file is attempted twice, however the second attempts turn out. With the checksum
      test the second run adds rows only from files the first one failed to load, and each file
      the first one loaded is then reported as skipped, so it is not retried from then on. */
  lemma StaleClaimRepeats(job: Job, c: Claim, again: Claim, stamps: Stamps)
    requires Inv(job, stamps) && ReadInOrder(c, stamps) && Fresh(job, c, stamps) && c.todo != []
    requires RunsThrough(c) && RunsThrough(again) && again.todo == c.todo
    ensures var once := After(job, c, stamps);
            var twice := After(once, again, stamps);
            && Inv(once, stamps) && !Fresh(once, again, stamps) && !Inv(twice, stamps)
            && Log(twice) == Log(job) + Results(c.todo, stamps, c.outcome) + Results(c.todo, stamps, again.outcome)
            && (SkipsKnownContent(c, again) ==>
                 forall i :: 0 <= i < |c.todo| && Record(c.todo[i], stamps[c.todo[i]], c.outcome(c.todo[i])).status == Done ==>
                   && Results(c.todo, stamps, again.outcome)[i].status == Skipped
                   && Results(c.todo, stamps, again.outcome)[i].inserted == 0
                   && NotRetried(twice.history, c.todo[i]))
  {
    var once := After(job, c, stamps);
    ClaimKeeps(job, c, stamps);
    FreshIsLost(job, c, again, stamps);
    TwiceLogged(job, c, again, stamps);
    TwiceNotInv(job, c, again, stamps);
    forall i | SkipsKnownContent(c, again) && 0 <= i < |c.todo| && Record(c.todo[i], stamps[c.todo[i]], c.outcome(c.todo[i])).status == Done
      ensures Results(c.todo, stamps, again.outcome)[i].status == Skipped && Results(c.todo, stamps, again.outcome)[i].inserted == 0
      ensures NotRetried(After(once, again, stamps).history, c.todo[i])
    {
      LoadedIsSkipped(once, c, again, stamps, i);
    }
  }

  lemma LastIsRecent(history: seq<seq<FileResult>>)
    requires history != []
    ensures history[|history| - 1] in Recent(history)
  {
    var r := Recent(history);
    assert r[|r| - 1] == history[|history| - 1];
  }

  lemma TwiceNotOrderly(log: seq<FileResult>, rs: seq<FileResult>, more: seq<FileResult>, w: Option<int>)
    requires rs != [] && more != [] && rs[0].name == more[0].name
    ensures !Orderly(log + rs + more, w)
  {
    var all := log + rs + more;
    assert all[|log|] == rs[0] && all[|log| + |rs|] == more[0];
  }
}
