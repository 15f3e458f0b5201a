/** Scheduled reports: claiming the ones that are due, and triggering them by hand or by an event. */
module Scheduler {
  import opened Shared
  import opened Calendar

  datatype Cadence = Daily | Weekly | Monthly

  datatype Report = Report(cadence: Cadence, nextRunAt: int, lastRunAt: Option<int>)

  /** A job of a report. `runAt` is the time it was asked for, `createdAt` the time at which its row was written. */
  datatype Job = Job(report: nat, runAt: int, createdAt: int, active: bool)

  /** In milliseconds. */
  const DEDUP_WINDOW := 15000

  function NextRun(cadence: Cadence, now: int): int {
    match cadence
    case Daily => AddDays(now, 1)
    case Weekly => AddDays(now, 7)
    case Monthly => AddMonths(now, 1)
  }

  /** Every cadence moves on by at least a day, and a monthly one by the length of the month. */
  lemma NextRunLater(cadence: Cadence, now: int)
    ensures NextRun(cadence, now) >= now + DAY
    ensures cadence == Daily ==> NextRun(cadence, now) == now + DAY
    ensures cadence == Weekly ==> NextRun(cadence, now) == now + 7 * DAY
    ensures cadence == Monthly ==> now + 28 * DAY <= NextRun(cadence, now) <= now + 31 * DAY
  {
    hide AddDays, AddMonths;
    match cadence
    case Daily => AddDaysAdds(now, 1);
    case Weekly => AddDaysAdds(now, 7);
    case Monthly => AddMonthAdds(now);
  }

  datatype TriggerResult = NotFound | Deduplicated(job: Job) | Triggered(job: Job, advancedSchedule: bool)

  /** A job that a repeated trigger may return instead of making a new one. */
  predicate Reusable(job: Job, report: nat, createdAfter: int) {
    job.report == report && (job.active || job.createdAt >= createdAfter)
  }

  predicate Due(reports: map<nat, Report>, id: nat, now: int)
    requires id in reports
  {
    reports[id].nextRunAt <= now
  }

  /** A report with jobs has a last run, and the job of that run is among them. */
  predicate Recorded(report: Report, id: nat, jobs: seq<Job>) {
    && (forall k ::
         0 <= k < |jobs| && jobs[k].report == id ==> report.lastRunAt.Some? && jobs[k].runAt <= jobs[k].createdAt)
    && (report.lastRunAt.Some? ==>
          exists k :: 0 <= k < |jobs| && jobs[k].report == id && jobs[k].runAt == report.lastRunAt.value)
  }

  ghost predicate AllRecorded(reports: map<nat, Report>, jobs: seq<Job>) {
    && (forall id :: id in reports ==> Recorded(reports[id], id, jobs))
    && forall k :: 0 <= k < |jobs| ==> jobs[k].report in reports
  }

  predicate NoLaterThan(jobs: seq<Job>, id: nat, time: int) {
    forall k :: 0 <= k < |jobs| && jobs[k].report == id ==> jobs[k].runAt <= time
  }

  /**
   * No job of the report was asked for after its last run. Requests read the clock before they get hold of the
   * report, so the run that was recorded last need not be the latest.
   */
  predicate InOrder(report: Report, id: nat, jobs: seq<Job>) {
    report.lastRunAt.Some? ==> NoLaterThan(jobs, id, report.lastRunAt.value)
  }

  /** A trigger by hand at this time makes a job. */
  predicate MakesJob(report: Report, time: int) {
    report.lastRunAt.Some? ==> time - report.lastRunAt.value > DEDUP_WINDOW
  }

  /** No job of the report was asked for within the window before this time, or after it. */
  predicate Spaced(jobs: seq<Job>, id: nat, time: int) {
    forall k :: 0 <= k < |jobs| && jobs[k].report == id ==> jobs[k].runAt < time - DEDUP_WINDOW
  }

  /** Jobs that are made by hand are spaced, at whatever time, exactly when the last run is the latest one. */
  lemma SpacedExactly(report: Report, id: nat, jobs: seq<Job>)
    requires Recorded(report, id, jobs)
    ensures (forall time :: MakesJob(report, time) ==> Spaced(jobs, id, time)) <==> InOrder(report, id, jobs)
  {
    if report.lastRunAt.Some? && forall time :: MakesJob(report, time) ==> Spaced(jobs, id, time) {
      assert MakesJob(report, report.lastRunAt.value + DEDUP_WINDOW + 1);
    }
  }

  /** A new job of a report at its new last run. */
  lemma RecordedAfterRun(reports: map<nat, Report>, jobs: seq<Job>, id: nat, after: Report, job: Job)
    requires AllRecorded(reports, jobs) && id in reports
    requires after.lastRunAt == Some(job.runAt) && job.report == id && job.runAt <= job.createdAt
    ensures AllRecorded(reports[id := after], jobs + [job])
    ensures InOrder(after, id, jobs + [job]) <==> NoLaterThan(jobs, id, job.runAt)
  {
    var more := jobs + [job];
    assert forall k :: 0 <= k < |jobs| ==> more[k] == jobs[k];
    forall r | r in reports
      ensures Recorded(reports[id := after][r], r, more)
    {
      assert Recorded(reports[r], r, jobs);
      if r == id {
        assert more[|jobs|] == job;
      } else if reports[r].lastRunAt.Some? {
        var k :| 0 <= k < |jobs| && jobs[k].report == r && jobs[k].runAt == reports[r].lastRunAt.value;
        assert more[k] == jobs[k];
      }
    }
  }

  lemma LastJobReusable(report: Report, id: nat, jobs: seq<Job>, createdAfter: int)
    requires Recorded(report, id, jobs) && report.lastRunAt.Some? && report.lastRunAt.value >= createdAfter
    ensures exists k :: 0 <= k < |jobs| && Reusable(jobs[k], id, createdAfter)
  {
    var k :| 0 <= k < |jobs| && jobs[k].report == id && jobs[k].runAt == report.lastRunAt.value;
    assert Reusable(jobs[k], id, createdAfter);
  }

  class ReportStore {
    var reports: map<nat, Report>
    var jobs: seq<Job>

    ghost predicate Valid()
      reads this
    {
      AllRecorded(reports, jobs)
    }

    constructor ()
      ensures Valid() && reports == map[] && jobs == []
    {
      reports, jobs := map[], [];
    }

    /** A new report is due at once, and stays due until it is claimed. */
    method Create(id: nat, cadence: Cadence, now: int)
      requires Valid() && id !in reports
      modifies `reports
      ensures Valid() && reports == old(reports)[id := Report(cadence, now, None)]
      ensures forall time :: now <= time ==> Due(reports, id, time)
    {
      reports := reports[id := Report(cadence, now, None)];
    }

    /** A new cadence puts the next run off by at least a day, even if the report was due. */
    method UpdateCadence(id: nat, cadence: Cadence, now: int)
      requires Valid()
      modifies `reports
      ensures Valid()
      ensures id !in old(reports) ==> reports == old(reports)
      ensures id in old(reports) ==>
        && reports == old(reports)[id := old(reports)[id].(cadence := cadence, nextRunAt := NextRun(cadence, now))]
        && reports[id].nextRunAt >= now + DAY
    {
      NextRunLater(cadence, now);
      if id in reports {
        reports := reports[id := reports[id].(cadence := cadence, nextRunAt := NextRun(cadence, now))];
      }
    }

    /** The queue starts, finishes or puts back a job. */
    method SetActive(k: nat, active: bool)
      requires Valid() && k < |jobs|
      modifies `jobs
      ensures Valid() && jobs == old(jobs)[k := old(jobs)[k].(active := active)]
    {
      var before := jobs;
      jobs := jobs[k := jobs[k].(active := active)];
      forall id | id in reports
        ensures Recorded(reports[id], id, jobs)
      {
        assert Recorded(reports[id], id, before);
        if reports[id].lastRunAt.Some? {
          var m :| 0 <= m < |before| && before[m].report == id && before[m].runAt == reports[id].lastRunAt.value;
          assert jobs[m].report == id && jobs[m].runAt == before[m].runAt;
        }
      }
    }

    method RunReport(id: nat, next: int, now: int, createdAt: int) returns (job: Job)
      requires Valid() && id in reports && now <= createdAt
      modifies this
      ensures Valid() && id in reports && (InOrder(reports[id], id, jobs) <==> NoLaterThan(old(jobs), id, now))
      ensures job == Job(id, now, createdAt, true) && jobs == old(jobs) + [job]
      ensures reports == old(reports)[id := old(reports)[id].(lastRunAt := Some(now), nextRunAt := next)]
    {
      job := Job(id, now, createdAt, true);
      var after := reports[id].(lastRunAt := Some(now), nextRunAt := next);
      RecordedAfterRun(reports, jobs, id, after, job);
      reports, jobs := reports[id := after], jobs + [job];
    }

    /** The report that has been due for longest, if any is. Reports that others hold are skipped. */
    method FindDue(now: int, held: set<nat>) returns (found: Option<nat>)
      ensures found.Some? ==> found.value in reports && found.value !in held && Due(reports, found.value, now)
      ensures found.Some? ==>
        forall id :: id in reports && id !in held ==> reports[found.value].nextRunAt <= reports[id].nextRunAt
      ensures found.None? ==> forall id :: id in reports && id !in held ==> !Due(reports, id, now)
    {
      found := None;
      var left := reports.Keys - held;
      while left != {}
        invariant left <= reports.Keys - held
        invariant found.Some? ==> found.value in reports && found.value !in held && Due(reports, found.value, now)
        invariant found.Some? ==>
          forall id :: id in reports && id !in held && id !in left
              ==> reports[found.value].nextRunAt <= reports[id].nextRunAt
        invariant found.None? ==> forall id :: id in reports && id !in held && id !in left ==> !Due(reports, id, now)
        decreases left
      {
        var id :| id in left;
        left := left - {id};
        if reports[id].nextRunAt <= now && (found.None? || reports[id].nextRunAt < reports[found.value].nextRunAt) {
          found := Some(id);
        }
      }
    }

    /** Claims the next due report: makes one job and moves the report on, past the time of the claim. */
    method ClaimNextDue(dueBefore: int, createdAt: int, held: set<nat>) returns (claimed: Option<nat>)
      requires Valid() && dueBefore <= createdAt
      modifies this
      ensures Valid()
      ensures claimed.None? ==> reports == old(reports) && jobs == old(jobs)
      ensures claimed.None? ==> forall id :: id in reports && id !in held ==> !Due(reports, id, dueBefore)
      ensures claimed.Some? ==>
        var id := claimed.value;
        && id in old(reports) && id !in held && Due(old(reports), id, dueBefore)
        && (forall r :: r in old(reports) && r !in held ==> old(reports)[id].nextRunAt <= old(reports)[r].nextRunAt)
        && jobs == old(jobs) + [Job(id, dueBefore, createdAt, true)]
        && reports == old(reports)[id := old(reports)[id].(lastRunAt := Some(dueBefore),
                                                           nextRunAt := NextRun(old(reports)[id].cadence, dueBefore))]
        && reports[id].nextRunAt >= dueBefore + DAY
        && (InOrder(reports[id], id, jobs) <==> NoLaterThan(old(jobs), id, dueBefore))
    {
      hide AllRecorded, NextRun, InOrder, NoLaterThan;
      claimed := FindDue(dueBefore, held);
      if claimed.Some? {
        var id := claimed.value;
        NextRunLater(reports[id].cadence, dueBefore);
        var _ := RunReport(id, NextRun(reports[id].cadence, dueBefore), dueBefore, createdAt);
      }
    }

    method FindReusable(id: nat, createdAfter: int) returns (found: Option<Job>)
      ensures found.Some? ==> found.value in jobs && Reusable(found.value, id, createdAfter)
      ensures found.None? ==> forall k :: 0 <= k < |jobs| ==> !Reusable(jobs[k], id, createdAfter)
    {
      for k := 0 to |jobs|
        invariant forall m :: 0 <= m < k ==> !Reusable(jobs[m], id, createdAfter)
      {
        if Reusable(jobs[k], id, createdAfter) {
          return Some(jobs[k]);
        }
      }
      return None;
    }

    /**
     * Triggers a report by hand. It makes a job exactly when the last run is more than the window ago. If the last run
     * is the latest, then no job of the report was asked for within the window, and the new run is the latest.
     */
    method Trigger(id: nat, triggeredAt: int, createdAt: int) returns (result: TriggerResult)
      requires Valid() && triggeredAt <= createdAt
      modifies this
      ensures Valid() && result.NotFound? == (id !in old(reports))
      ensures result.Triggered? <==>
        id in old(reports) && MakesJob(old(reports)[id], triggeredAt)
      ensures result.Triggered? && InOrder(old(reports)[id], id, old(jobs)) ==>
        Spaced(old(jobs), id, triggeredAt) && id in reports && InOrder(reports[id], id, jobs)
      ensures result.Triggered? ==>
        && result.job == Job(id, triggeredAt, createdAt, true) && jobs == old(jobs) + [result.job]
        && result.advancedSchedule == Due(old(reports), id, triggeredAt)
        && reports == old(reports)[id := old(reports)[id].(
             lastRunAt := Some(triggeredAt),
             nextRunAt := if result.advancedSchedule then NextRun(old(reports)[id].cadence, triggeredAt)
                          else old(reports)[id].nextRunAt)]
      ensures !result.Triggered? ==> reports == old(reports) && jobs == old(jobs)
      ensures result.Deduplicated? ==> result.job in jobs && Reusable(result.job, id, triggeredAt - DEDUP_WINDOW)
    {
      hide NextRun;
      if id !in reports {
        return NotFound;
      }
      var report := reports[id];
      assert Recorded(report, id, jobs);
      SpacedExactly(report, id, jobs);
      hide AllRecorded;
      if report.lastRunAt.Some? && triggeredAt - report.lastRunAt.value <= DEDUP_WINDOW {
        var reusable := FindReusable(id, triggeredAt - DEDUP_WINDOW);
        LastJobReusable(report, id, jobs, triggeredAt - DEDUP_WINDOW);
        if reusable.Some? {
          return Deduplicated(reusable.value);
        }
      }
      var advances := report.nextRunAt <= triggeredAt;
      var next := if advances then NextRun(report.cadence, triggeredAt) else report.nextRunAt;
      var job := RunReport(id, next, triggeredAt, createdAt);
      return Triggered(job, advances);
    }

    /** An event triggers a report without looking at earlier jobs, and without moving its schedule. */
    method TriggerByEvent(id: nat, triggeredAt: int, createdAt: int) returns (made: bool)
      requires Valid() && triggeredAt <= createdAt
      modifies this
      ensures Valid() && made == (id in old(reports))
      ensures made ==> id in reports && (InOrder(reports[id], id, jobs) <==> NoLaterThan(old(jobs), id, triggeredAt))
      ensures made ==> jobs == old(jobs) + [Job(id, triggeredAt, createdAt, true)]
      ensures made ==> reports == old(reports)[id := old(reports)[id].(lastRunAt := Some(triggeredAt))]
      ensures !made ==> reports == old(reports) && jobs == old(jobs)
    {
      made := id in reports;
      if made {
        var _ := RunReport(id, reports[id].nextRunAt, triggeredAt, createdAt);
      }
    }

    /**
     * Claims due reports until none is left or the worker is stopped, reading the clock anew each time, and makes one
     * job for each claim. Each claim skips the reports that others hold at that time. If the clock moves by less than
     * a day meanwhile, no report is claimed twice, so the loop ends by itself; it has then claimed every report that
     * was due at its start, and none is due at its end, but for those that others hold at its end.
     */
    method DrainDueReports(clockAt: nat -> int, heldAt: nat -> set<nat>, stopAfter: nat) returns (claimed: seq<nat>)
      requires Valid()
      requires forall i: nat, j: nat :: i <= j ==> clockAt(i) <= clockAt(j)
      modifies this
      ensures Valid() && reports.Keys == old(reports).Keys
      ensures |claimed| <= stopAfter
      ensures jobs == old(jobs) + JobsOf(claimed, clockAt)
      ensures forall id :: id in reports && id !in claimed ==> reports[id] == old(reports)[id]
      ensures |claimed| == stopAfter
        || forall id :: id in reports && id !in heldAt(|claimed|) ==> !Due(reports, id, clockAt(|claimed|))
      ensures Quick(clockAt, |old(reports)|) ==>
        && |claimed| <= |reports|
        && (forall i, j :: 0 <= i < j < |claimed| ==> claimed[i] != claimed[j])
        && (forall id :: id in claimed ==> id in old(reports) && Due(old(reports), id, clockAt(|claimed|)))
      ensures Quick(clockAt, |old(reports)|) && |claimed| < stopAfter ==>
        forall id :: id in old(reports) && Due(old(reports), id, clockAt(0))
            ==> id in claimed || id in heldAt(|claimed|)
    {
      hide AllRecorded, NextRun, Drained, JobsOf, Quick;
      claimed := [];
      ghost var before, made := reports, jobs;
      ghost var quick := Quick(clockAt, |before|);
      NothingDrained(reports, clockAt(0));
      NoJobs(jobs, clockAt);
      while |claimed| < stopAfter
        invariant Valid() && |claimed| <= stopAfter
        invariant reports.Keys == before.Keys
        invariant forall id :: id in reports && id !in claimed ==> reports[id] == before[id]
        invariant quick ==> Drained(before, reports, claimed, clockAt(0), clockAt(|claimed|))
        invariant jobs == made + JobsOf(claimed, clockAt)
      {
        ghost var here := reports;
        var now := clockAt(|claimed|);
        var due := ClaimNextDue(now, now, heldAt(|claimed|));
        if due.None? {
          break;
        }
        if quick {
          DrainedQuickly(before, here, reports, claimed, due.value, clockAt);
        }
        JobsOfNext(claimed, due.value, clockAt);
        claimed := claimed + [due.value];
      }
      if quick {
        DrainedAtMostAll(before, reports, claimed, clockAt(0), clockAt(|claimed|));
        DrainedAll(before, reports, claimed, clockAt(0), clockAt(|claimed|));
      }
    }
  }

  /**
   * An event reads the clock before a trigger by hand, and gets hold of the report after it. Its time becomes that of
   * the last run, and so a second trigger by hand makes a job although the first was asked for within the window.
   */
  method TriggerAroundEvent(store: ReportStore, id: nat, event: int, first: int, second: int)
    requires store.Valid() && id in store.reports && MakesJob(store.reports[id], first)
    requires event < first < second <= first + DEDUP_WINDOW && event + DEDUP_WINDOW < second
    modifies store
    ensures store.Valid() && !Spaced(old(store.jobs) + [Job(id, first, first, true)], id, second)
    ensures store.jobs == old(store.jobs)
                          + [Job(id, first, first, true), Job(id, event, first, true), Job(id, second, second, true)]
  {
    hide Recorded;
    ghost var before := store.jobs;
    var one := store.Trigger(id, first, first);
    assert store.jobs[|before|] == Job(id, first, first, true);
    var _ := store.TriggerByEvent(id, event, first);
    var two := store.Trigger(id, second, second);
  }

  /** For example, with an event at 0, and triggers by hand at 1000 and at 15500 milliseconds. */
  method TriggerAroundEventExample(id: nat, cadence: Cadence) returns (store: ReportStore)
    ensures store.jobs == [Job(id, 1000, 1000, true), Job(id, 0, 1000, true), Job(id, 15500, 15500, true)]
    ensures !Spaced([Job(id, 1000, 1000, true)], id, 15500)
  {
    store := new ReportStore();
    store.Create(id, cadence, 0);
    TriggerAroundEvent(store, id, 0, 1000, 15500);
    assert [Job(id, 1000, 1000, true)][0].runAt == 1000;
  }

  /** The clock moves by less than a day while it is read once more than `n` times. */
  ghost predicate Quick(clockAt: nat -> int, n: nat) {
    forall i: nat :: i <= n ==> clockAt(i) < clockAt(0) + DAY
  }

  /** A report that has just been made is claimed by the next drain, unless another holds it to the end. */
  method CreateAndDrain(store: ReportStore, id: nat, cadence: Cadence, now: int, clockAt: nat -> int,
                        heldAt: nat -> set<nat>, stopAfter: nat)
    returns (claimed: seq<nat>)
    requires store.Valid() && id !in store.reports && now <= clockAt(0)
    requires forall i: nat, j: nat :: i <= j ==> clockAt(i) <= clockAt(j)
    modifies store
    ensures Quick(clockAt, |store.reports|) && |store.reports| < stopAfter ==>
      id in claimed || id in heldAt(|claimed|)
  {
    store.Create(id, cadence, now);
    claimed := store.DrainDueReports(clockAt, heldAt, stopAfter);
    assert |store.reports| == |store.reports.Keys|;
  }

  /**
   * Of the reports as they were before, the claimed ones were due by now and have moved on; the others are untouched.
   */
  ghost predicate Drained(before: map<nat, Report>, here: map<nat, Report>, claimed: seq<nat>, start: int, now: int) {
    && here.Keys == before.Keys && start <= now
    && (forall i, j :: 0 <= i < j < |claimed| ==> claimed[i] != claimed[j])
    && (forall id :: id in claimed ==> id in before && before[id].nextRunAt <= now && here[id].nextRunAt >= start + DAY)
    && forall id :: id in here && id !in claimed ==> here[id] == before[id]
  }

  lemma NothingDrained(reports: map<nat, Report>, start: int)
    ensures Drained(reports, reports, [], start, start)
  {
  }

  lemma DrainedNext(before: map<nat, Report>, here: map<nat, Report>, next: map<nat, Report>, claimed: seq<nat>,
                    id: nat, start: int, now: int, later: int)
    requires Drained(before, here, claimed, start, now) && now <= later && now < start + DAY
    requires id in here && here[id].nextRunAt <= now
    requires next.Keys == here.Keys && next[id].nextRunAt >= now + DAY
    requires forall r :: r in here && r != id ==> next[r] == here[r]
    ensures Drained(before, next, claimed + [id], start, later)
  {
  }

  lemma DrainedQuickly(before: map<nat, Report>, here: map<nat, Report>, next: map<nat, Report>, claimed: seq<nat>,
                       id: nat, clockAt: nat -> int)
    requires Drained(before, here, claimed, clockAt(0), clockAt(|claimed|)) && Quick(clockAt, |before|)
    requires clockAt(|claimed|) <= clockAt(|claimed| + 1)
    requires id in here && here[id].nextRunAt <= clockAt(|claimed|)
    requires next.Keys == here.Keys && next[id].nextRunAt >= clockAt(|claimed|) + DAY
    requires forall r :: r in here && r != id ==> next[r] == here[r]
    ensures Drained(before, next, claimed + [id], clockAt(0), clockAt(|claimed| + 1))
  {
    DrainedAtMostAll(before, here, claimed, clockAt(0), clockAt(|claimed|));
    hide Drained;
    DrainedNext(before, here, next, claimed, id, clockAt(0), clockAt(|claimed|), clockAt(|claimed| + 1));
  }

  lemma DrainedAtMostAll(before: map<nat, Report>, here: map<nat, Report>, claimed: seq<nat>, start: int, now: int)
    requires Drained(before, here, claimed, start, now)
    ensures |claimed| <= |before| && here.Keys == before.Keys
  {
    DistinctAtMost(claimed, before.Keys);
  }

  lemma {:induction false} DistinctAtMost(s: seq<nat>, all: set<nat>)
    requires forall i, j :: 0 <= i < j < |s| ==> s[i] != s[j]
    requires forall x :: x in s ==> x in all
    ensures |s| <= |all|
  {
    if s == [] {
    } else {
      DistinctAtMost(s[1..], all - {s[0]});
    }
  }

  lemma DrainedAll(before: map<nat, Report>, here: map<nat, Report>, claimed: seq<nat>, start: int, now: int)
    requires Drained(before, here, claimed, start, now)
    ensures here.Keys == before.Keys
    ensures forall i, j :: 0 <= i < j < |claimed| ==> claimed[i] != claimed[j]
    ensures forall id :: id in claimed ==> id in before && Due(before, id, now)
    ensures forall id :: id in here && id !in claimed ==> here[id] == before[id]
    ensures forall id :: id in before && Due(before, id, start) && !Due(here, id, now) ==> id in claimed
  {
  }

  lemma NoJobs(jobs: seq<Job>, clockAt: nat -> int)
    ensures jobs + JobsOf([], clockAt) == jobs
  {
  }

  /** One job for each claim, at the time of the claim. */
  function JobsOf(claimed: seq<nat>, clockAt: nat -> int): (r: seq<Job>)
    ensures |r| == |claimed|
  {
    seq(|claimed|, k requires 0 <= k < |claimed| => Job(claimed[k], clockAt(k), clockAt(k), true))
  }

  lemma JobsOfNext(claimed: seq<nat>, id: nat, clockAt: nat -> int)
    ensures JobsOf(claimed + [id], clockAt)
         == JobsOf(claimed, clockAt) + [Job(id, clockAt(|claimed|), clockAt(|claimed|), true)]
  {
  }
}
