/** What a run of the file batch reports, read off the outcomes of the files it attempted, and
    which files a later run takes up, read off the files of the last runs. */
module FileBatchReport {
  import opened Wrappers
  import opened FileBatch

  function ReportFor(c: Claim, stamps: Stamps): Report
    requires Named(c.todo, stamps)
  {
    ReportOf(c.todo, stamps, c.outcome, c.cancel, c.stop)
  }

  /** The loop ends before the first file at which it finds a cancellation, behind the first failed
      file when the job says stop, or at the end of the list, whatever comes first. */
  lemma {:induction false} AttemptsFrom(todo: seq<Name>, outcome: Name -> Outcome, cancel: nat -> bool, stop: bool, i: nat)
    requires i <= |todo|
    ensures var k := CutAt(todo, outcome, cancel, stop, i);
      && (forall j :: i <= j < k ==> !cancel(j))
      && (forall j :: i <= j < k - 1 ==> !(stop && outcome(todo[j]).Failed?))
      && (k == |todo| || cancel(k) || (k > i && stop && outcome(todo[k - 1]).Failed?))
    decreases |todo| - i
  {
    if i == |todo| || cancel(i) || (stop && outcome(todo[i]).Failed?) {
    } else {
      AttemptsFrom(todo, outcome, cancel, stop, i + 1);
    }
  }

  lemma AttemptsExactly(c: Claim)
    ensures var k := Attempts(c);
      && (forall j :: 0 <= j < k ==> !c.cancel(j))
      && (forall j :: 0 <= j < k - 1 ==> !(c.stop && c.outcome(c.todo[j]).Failed?))
      && (k == |c.todo| || c.cancel(k) || (k > 0 && c.stop && c.outcome(c.todo[k - 1]).Failed?))
  {
    AttemptsFrom(c.todo, c.outcome, c.cancel, c.stop, 0);
  }

  /** A reported row: loaded and empty files are done, large and known ones are skipped, and only
      loaded ones count rows. */
  predicate Reports(r: FileResult, name: Name, stamp: int, o: Outcome) {
    && r.name == name && r.stamp == stamp
    && (r.status == Done <==> o.Loaded? || o.NoRows?)
    && (r.status == Skipped <==> o.TooBig? || o.DuplicateContent?)
    && (r.status == Error <==> o.Failed?)
    && (o.Loaded? ==> r.inserted == o.inserted && r.updated == o.updated)
    && (!o.Loaded? ==> r.inserted == 0 && r.updated == 0)
  }

  lemma RowsExactly(c: Claim, stamps: Stamps, i: nat)
    requires Named(c.todo, stamps) && i < Attempts(c)
    ensures var rs := ReportFor(c, stamps).results;
      |rs| == Attempts(c) && Reports(rs[i], c.todo[i], stamps[c.todo[i]], c.outcome(c.todo[i]))
  {
    ResultsAt(c.todo[..Attempts(c)], stamps, c.outcome, i);
  }

  /** The rows inserted, or updated, by the first files of a list. */
  function LoadedRows(todo: seq<Name>, outcome: Name -> Outcome, inserted: bool): nat {
    if todo == [] then 0
    else
      var n := |todo| - 1;
      var o := outcome(todo[n]);
      LoadedRows(todo[..n], outcome, inserted) + (if !o.Loaded? then 0 else if inserted then o.inserted else o.updated)
  }

  lemma {:induction false} ResultTotals(todo: seq<Name>, stamps: Stamps, outcome: Name -> Outcome)
    requires Named(todo, stamps)
    ensures var rs := Results(todo, stamps, outcome);
      Inserted(rs) == LoadedRows(todo, outcome, true) && Updated(rs) == LoadedRows(todo, outcome, false)
    decreases |todo|
  {
    if todo != [] {
      var n := |todo| - 1;
      ResultTotals(todo[..n], stamps, outcome);
      TotalsGrow(Results(todo[..n], stamps, outcome), Record(todo[n], stamps[todo[n]], outcome(todo[n])));
    }
  }

  /** The totals are the rows of the loaded files among those attempted. */
  lemma TotalsExactly(c: Claim, stamps: Stamps)
    requires Named(c.todo, stamps)
    ensures var done := c.todo[..Attempts(c)]; var report := ReportFor(c, stamps);
      && report.inserted == LoadedRows(done, c.outcome, true)
      && report.updated == LoadedRows(done, c.outcome, false)
  {
    ResultTotals(c.todo[..Attempts(c)], stamps, c.outcome);
  }

  ghost predicate SomeFailed(c: Claim) {
    exists i :: 0 <= i < Attempts(c) && c.outcome(c.todo[i]).Failed?
  }

  ghost predicate AllSkipped(c: Claim) {
    Attempts(c) > 0 && forall i :: 0 <= i < Attempts(c) ==> c.outcome(c.todo[i]).TooBig? || c.outcome(c.todo[i]).DuplicateContent?
  }

  /** The status of a run: an error when it stopped at a failure, cancelled when it left files for
      another reason, else skipped when every file was, partial when some file failed. */
  lemma StatusExactly(c: Claim, stamps: Stamps)
    requires Named(c.todo, stamps)
    ensures var k := Attempts(c);
      ReportFor(c, stamps).status ==
        if c.stop && k > 0 && c.outcome(c.todo[k - 1]).Failed? then RunError
        else if k < |c.todo| then RunCancelled
        else if AllSkipped(c) then RunSkipped
        else if SomeFailed(c) then RunPartialError
        else RunSuccess
  {
    var k := Attempts(c);
    OverallExactly(c, Results(c.todo[..k], stamps, c.outcome), stamps);
  }

  lemma OverallExactly(c: Claim, rs: seq<FileResult>, stamps: Stamps)
    requires Named(c.todo, stamps) && rs == Results(c.todo[..Attempts(c)], stamps, c.outcome)
    ensures Overall(rs) == if AllSkipped(c) then RunSkipped else if SomeFailed(c) then RunPartialError else RunSuccess
  {
    forall i | 0 <= i < |rs| ensures Reports(rs[i], c.todo[i], stamps[c.todo[i]], c.outcome(c.todo[i])) {
      RowsExactly(c, stamps, i);
    }
    if AllSkipped(c) {
      assert forall r :: r in rs ==> r.status == Skipped;
    } else if rs != [] {
      var i :| 0 <= i < |rs| && rs[i].status != Skipped;
      assert rs[i] in rs;
    }
    if SomeFailed(c) {
      var i :| 0 <= i < |rs| && c.outcome(c.todo[i]).Failed?;
      assert rs[i] in rs && rs[i].status == Error;
    } else {
      assert forall r :: r in rs ==> r.status != Error;
    }
  }

  /** A matching file is taken up exactly if its stamp lies behind the watermark and not in the
      future, and none of the last 200 runs has skipped it or failed at it. */
  lemma TakenUpExactly(job: Job, all: seq<Name>, stamps: Stamps, now: int, n: Name)
    ensures n in Todo(job, all, stamps, now) <==>
      && n in all && n in stamps && stamps[n] <= now && (job.watermark.None? || job.watermark.value < stamps[n])
      && forall i :: 0 <= i < |job.history| && |job.history| - 200 <= i ==>
           forall r :: r in job.history[i] && r.name == n ==> r.status != Skipped && r.status != Error
  {
    TodoExactly(job, all, stamps, now, n);
    RecentRuns(job.history, n);
  }

  lemma RecentRuns(history: seq<seq<FileResult>>, n: Name)
    ensures !NotRetried(history, n) <==>
      forall i :: 0 <= i < |history| && |history| - 200 <= i ==>
        forall r :: r in history[i] && r.name == n ==> r.status != Skipped && r.status != Error
  {
    var from := if |history| > 200 then |history| - 200 else 0;
    var recent := Recent(history);
    assert |recent| == |history| - from;
    forall i | from <= i < |history| ensures history[i] in recent {
      assert recent[i - from] == history[i];
    }
    if NotRetried(history, n) {
      var run, r :| run in recent && r in run && r.name == n && r.status != Done;
      var j :| 0 <= j < |recent| && recent[j] == run;
      assert history[from + j] == run;
    }
  }

  /** Over every sequence of fresh runs no two attempts are of one file, and they come in the order
      of their stamps. */
  lemma AttemptsInOrder(job: Job, cs: seq<Claim>, stamps: Stamps, i: nat, j: nat)
    requires Inv(job, stamps) && AllFresh(job, cs, stamps) && i < j < |Log(RunAll(job, cs, stamps))|
    ensures var log := Log(RunAll(job, cs, stamps));
      && log[i].name != log[j].name && log[i].stamp <= log[j].stamp
      && log[i].name in stamps && log[i].stamp == stamps[log[i].name]
      && RunAll(job, cs, stamps).watermark == Some(log[|log| - 1].stamp)
  {
    RunsKeep(job, cs, stamps);
    var log := Log(RunAll(job, cs, stamps));
    assert log[i] in log;
  }

  lemma NewJobIsOrderly(stamps: Stamps)
    ensures Inv(Job(None, []), stamps)
  {
  }
}
