/** The tables of tenants and offboarding jobs, and the routes that assign to them. */
module OffboardRegister {
  import opened Text
  import opened Counting
  import opened Offboarding

  class Register {
    var tenants: map<nat, Tenant>
    var jobs: seq<Job>

    constructor (tenants: map<nat, Tenant>)
      ensures View() == State(tenants, [])
    {
      this.tenants, jobs := tenants, [];
    }

    function View(): State
      reads this
    {
      State(tenants, jobs)
    }

    /** The tenant's active job, or a new one; the tenant is archived and the export asked for. */
    method ScheduleOffboardJob(tenantId: nat, wipeInDays: nat, now: int) returns (job: nat, events: seq<Event>)
      requires tenantId in tenants && !tenants[tenantId].legalHold
      modifies this
      ensures View() == Next(old(View()), Offboard(tenantId, wipeInDays, now))
      ensures View() == Next(old(View()), ApprovedOffboard(tenantId, wipeInDays, now))
      ensures events == EventsOf(old(View()), Offboard(tenantId, wipeInDays, now))
      ensures job < |jobs| && jobs[job].tenantId == tenantId && IsActive(jobs[job])
    {
      CountZero(jobs, ActiveOf(tenantId));
      for n := 0 to |jobs|
        invariant forall i :: 0 <= i < n ==> !ActiveOf(tenantId)(jobs[i])
      {
        if jobs[n].tenantId == tenantId && IsActive(jobs[n]) {
          assert ActiveOf(tenantId)(jobs[n]);
          return n, [];
        }
      }
      var wipeAt := now + wipeInDays * DAY;
      job := |jobs|;
      jobs := jobs + [Job(tenantId, ExportPending, Some(wipeAt))];
      tenants := tenants[tenantId := Archived(tenants[tenantId])];
      events := [ExportRequested(job)];
    }

    method CancelOffboard(tenantId: nat, job: nat) returns (ok: bool, events: seq<Event>)
      modifies this
      ensures View() == Next(old(View()), Cancel(tenantId, job))
      ensures events == EventsOf(old(View()), Cancel(tenantId, job))
      ensures ok <==> tenantId in old(tenants) && job < |old(jobs)| && old(jobs)[job].tenantId == tenantId
                      && old(jobs)[job].status !in {Completed, WipeDispatched}
    {
      if tenantId !in tenants || job >= |jobs| || jobs[job].tenantId != tenantId {
        return false, [];
      }
      if jobs[job].status in {Completed, WipeDispatched} {
        return false, [];
      }
      if jobs[job].status in {Completed, Cancelled} {
        return true, [];
      }
      jobs := jobs[job := jobs[job].(status := Cancelled)];
      tenants := tenants[tenantId := Restored(tenants[tenantId])];
      return true, [OffboardCancelled(job)];
    }

    method OffboardResult(tenantId: nat, job: nat, result: ExportResult) returns (ok: bool)
      modifies this
      ensures View() == Next(old(View()), Result(tenantId, job, result))
      ensures ok == Accepts(old(View()), Result(tenantId, job, result))
    {
      if tenantId !in tenants || job >= |jobs| || jobs[job].tenantId != tenantId {
        return false;
      }
      if result == ExportReady {
        jobs := jobs[job := jobs[job].(status := WipeScheduled)];
      } else {
        CompleteOffboardJob(job, result == WipeCompleted);
      }
      return true;
    }

    method CompleteOffboardJob(job: nat, ok: bool)
      requires job < |jobs|
      modifies this`jobs
      ensures jobs == old(jobs)[job := old(jobs)[job].(status := if ok then Completed else Failed)]
    {
      jobs := jobs[job := jobs[job].(status := if ok then Completed else Failed)];
    }

    /** The due jobs in order of id, at most `limit`, each dispatched, blocked or cancelled. */
    method DispatchDueWipes(now: int, limit: nat) returns (events: seq<Event>)
      modifies this`jobs
      ensures View() == Next(old(View()), Dispatch(now, limit))
      ensures events == EventsOf(old(View()), Dispatch(now, limit))
    {
      ghost var before := View();
      events := [];
      var taken := 0;
      var was := jobs;
      for n := 0 to |was|
        invariant |jobs| == |was| && was == before.jobs && tenants == before.tenants
        invariant taken == PickedBefore(was, now, limit, n)
        invariant events == WipeEvents(before, now, limit, n)
        invariant forall i :: 0 <= i < |was| ==>
                    jobs[i] == if i < n && Picked(was, now, limit, i) then AfterDispatch(tenants, was[i]) else was[i]
      {
        PickedMeaning(was, now, limit, n);
        if Due(was[n], now) && taken < limit {
          taken := taken + 1;
          var job := was[n];
          if job.tenantId !in tenants {
            jobs := jobs[n := job.(status := Cancelled)];
          } else if tenants[job.tenantId].legalHold {
            jobs := jobs[n := job.(status := BlockedLegalHold)];
          } else {
            jobs := jobs[n := job.(status := WipeDispatched)];
            events := events + [WipeRequested(n, now)];
          }
        }
      }
    }
  }

  /** How many of the first `n` jobs a pass takes. */
  function PickedBefore(jobs: seq<Job>, now: int, limit: nat, n: nat): nat
    requires n <= |jobs|
  {
    if n == 0 then 0 else PickedBefore(jobs, now, limit, n - 1) + if Picked(jobs, now, limit, n - 1) then 1 else 0
  }

  lemma {:induction false} PickedMeaning(jobs: seq<Job>, now: int, limit: nat, n: nat)
    requires n < |jobs|
    ensures Picked(jobs, now, limit, n) <==> Due(jobs[n], now) && PickedBefore(jobs, now, limit, n) < limit
    ensures var due := Count(jobs[..n], DueAt(now)); PickedBefore(jobs, now, limit, n) == if due < limit then due else limit
    decreases n
  {
    if n > 0 {
      PickedMeaning(jobs, now, limit, n - 1);
      assert jobs[..n] == jobs[..n - 1] + [jobs[n - 1]];
      CountAppend(jobs[..n - 1], jobs[n - 1], DueAt(now));
    }
  }
}
