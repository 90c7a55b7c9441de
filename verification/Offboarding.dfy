/**
 * Offboarding a tenant: export first, then a scheduled wipe. Each route and each dispatch pass is one
 * transaction. The wipe itself happens elsewhere; what counts here is when it is asked for.
 */
module Offboarding {
  import opened Text
  import opened Counting

  datatype JobStatus =
    Scheduled | ExportPending | WipeScheduled | BlockedLegalHold | WipeDispatched | Completed | Failed | Cancelled

  datatype Job = Job(tenantId: nat, status: JobStatus, wipeAt: Option<int>)

  datatype Tenant = Tenant(status: string, message: string, reason: string, legalHold: bool)

  datatype State = State(tenants: map<nat, Tenant>, jobs: seq<Job>)

  datatype ExportResult = ExportReady | WipeCompleted | WipeFailed

  datatype Step =
    | Offboard(tenantId: nat, wipeInDays: nat, now: int)
    | ApprovedOffboard(tenantId: nat, wipeInDays: nat, now: int)
    | Cancel(tenantId: nat, job: nat)
    | Dispatch(now: int, limit: nat)
    | Result(tenantId: nat, job: nat, result: ExportResult)
    | SetLegalHold(tenantId: nat, hold: bool)

  /** What the school server is told. */
  datatype Event = ExportRequested(job: nat) | OffboardCancelled(job: nat) | WipeRequested(job: nat, at: int)

  const DAY := 24 * 60 * 60

  predicate IsActive(j: Job) {
    j.status in {Scheduled, ExportPending, WipeScheduled}
  }

  function ActiveOf(tenantId: nat): Job -> bool {
    (j: Job) => j.tenantId == tenantId && IsActive(j)
  }

  function Archived(t: Tenant): Tenant {
    t.(status := "archived", message := "Offboarding scheduled", reason := "offboarding")
  }

  /** `schedule_offboard_job`: the tenant's active job, if any, is kept. */
  function Schedule(s: State, tenantId: nat, wipeAt: int): State
    requires tenantId in s.tenants
  {
    if Count(s.jobs, ActiveOf(tenantId)) > 0 then s
    else State(s.tenants[tenantId := Archived(s.tenants[tenantId])],
               s.jobs + [Job(tenantId, ExportPending, Some(wipeAt))])
  }

  /** The step creates a job. */
  predicate Schedules(s: State, t: Step) {
    && (t.Offboard? || t.ApprovedOffboard?)
    && t.tenantId in s.tenants && !s.tenants[t.tenantId].legalHold
    && Count(s.jobs, ActiveOf(t.tenantId)) == 0
  }

  function Restored(t: Tenant): Tenant {
    if t.reason == "offboarding" then t.(status := "active", message := "", reason := "") else t
  }

  predicate Cancels(s: State, t: Step) {
    && t.Cancel? && t.tenantId in s.tenants && t.job < |s.jobs|
    && s.jobs[t.job].tenantId == t.tenantId
    && s.jobs[t.job].status !in {Completed, WipeDispatched, Cancelled}
  }

  predicate Due(j: Job, now: int) {
    j.status == WipeScheduled && j.wipeAt.Some? && j.wipeAt.value <= now
  }

  function DueAt(now: int): Job -> bool {
    (j: Job) => Due(j, now)
  }

  /** Among the first `limit` due jobs in order of id. */
  predicate Picked(jobs: seq<Job>, now: int, limit: nat, i: nat) {
    i < |jobs| && Due(jobs[i], now) && Count(jobs[..i], DueAt(now)) < limit
  }

  function AfterDispatch(tenants: map<nat, Tenant>, j: Job): Job {
    if j.tenantId !in tenants then j.(status := Cancelled)
    else if tenants[j.tenantId].legalHold then j.(status := BlockedLegalHold)
    else j.(status := WipeDispatched)
  }

  function DispatchJobs(s: State, now: int, limit: nat): (jobs: seq<Job>)
    ensures |jobs| == |s.jobs|
    ensures forall i :: 0 <= i < |jobs| ==>
              jobs[i] == if Picked(s.jobs, now, limit, i) then AfterDispatch(s.tenants, s.jobs[i]) else s.jobs[i]
  {
    seq(|s.jobs|, i requires 0 <= i < |s.jobs| =>
      if Picked(s.jobs, now, limit, i) then AfterDispatch(s.tenants, s.jobs[i]) else s.jobs[i])
  }

  predicate Wipes(s: State, now: int, limit: nat, i: nat) {
    && Picked(s.jobs, now, limit, i)
    && s.jobs[i].tenantId in s.tenants
    && !s.tenants[s.jobs[i].tenantId].legalHold
  }

  predicate Accepts(s: State, t: Step) {
    && t.Result? && t.tenantId in s.tenants && t.job < |s.jobs| && s.jobs[t.job].tenantId == t.tenantId
  }

  function StatusAfter(result: ExportResult): JobStatus {
    match result
    case ExportReady => WipeScheduled
    case WipeCompleted => Completed
    case WipeFailed => Failed
  }

  function Next(s: State, t: Step): State {
    match t
    case Offboard(tenantId, days, now) =>
      if tenantId !in s.tenants then s
      else if s.tenants[tenantId].legalHold then s.(jobs := s.jobs + [Job(tenantId, BlockedLegalHold, None)])
      else Schedule(s, tenantId, now + days * DAY)
    case ApprovedOffboard(tenantId, days, now) =>
      if tenantId !in s.tenants || s.tenants[tenantId].legalHold then s else Schedule(s, tenantId, now + days * DAY)
    case Cancel(tenantId, job) =>
      if Cancels(s, t)
      then State(s.tenants[tenantId := Restored(s.tenants[tenantId])], s.jobs[job := s.jobs[job].(status := Cancelled)])
      else s
    case Dispatch(now, limit) => s.(jobs := DispatchJobs(s, now, limit))
    case Result(_, job, result) =>
      if Accepts(s, t) then s.(jobs := s.jobs[job := s.jobs[job].(status := StatusAfter(result))]) else s
    case SetLegalHold(tenantId, hold) =>
      if tenantId in s.tenants then s.(tenants := s.tenants[tenantId := s.tenants[tenantId].(legalHold := hold)]) else s
  }

  /** The wipe requests of one pass, for the jobs before `n`. */
  function WipeEvents(s: State, now: int, limit: nat, n: nat): seq<Event> {
    if n == 0 then []
    else WipeEvents(s, now, limit, n - 1) + if Wipes(s, now, limit, n - 1) then [WipeRequested(n - 1, now)] else []
  }

  function EventsOf(s: State, t: Step): seq<Event> {
    match t
    case Dispatch(now, limit) => WipeEvents(s, now, limit, |s.jobs|)
    case Cancel(_, job) => if Cancels(s, t) then [OffboardCancelled(job)] else []
    case _ => if Schedules(s, t) then [ExportRequested(|s.jobs|)] else []
  }

  function Run(s: State, steps: seq<Step>): State
    decreases |steps|
  {
    if steps == [] then s else Run(Next(s, steps[0]), steps[1..])
  }

  function History(s: State, steps: seq<Step>): seq<Event>
    decreases |steps|
  {
    if steps == [] then [] else EventsOf(s, steps[0]) + History(Next(s, steps[0]), steps[1..])
  }

  // ---------------------------------------------------------------- no wipe without an export

  function WipeOf(i: nat): Event -> bool {
    (e: Event) => e.WipeRequested? && e.job == i
  }

  lemma {:induction false} WipeEventsCount(s: State, now: int, limit: nat, n: nat, i: nat)
    ensures Count(WipeEvents(s, now, limit, n), WipeOf(i)) == if i < n && Wipes(s, now, limit, i) then 1 else 0
    decreases n
  {
    if n > 0 {
      WipeEventsCount(s, now, limit, n - 1, i);
      if Wipes(s, now, limit, n - 1) {
        CountAppend(WipeEvents(s, now, limit, n - 1), WipeRequested(n - 1, now), WipeOf(i));
      } else {
        assert WipeEvents(s, now, limit, n) == WipeEvents(s, now, limit, n - 1);
      }
    }
  }

  /** Exactly when a step asks for the wipe of a job: due, within the batch, tenant known and not on hold. */
  lemma WipeExactlyWhenDue(s: State, t: Step, i: nat)
    ensures Count(EventsOf(s, t), WipeOf(i)) == if t.Dispatch? && Wipes(s, t.now, t.limit, i) then 1 else 0
  {
    if t.Dispatch? {
      WipeEventsCount(s, t.now, t.limit, |s.jobs|, i);
    } else {
      CountZero(EventsOf(s, t), WipeOf(i));
    }
  }

  function Armed(s: State, i: nat): nat {
    if i < |s.jobs| && s.jobs[i].status == WipeScheduled then 1 else 0
  }

  predicate ReadyFor(s: State, t: Step, i: nat) {
    Accepts(s, t) && t.result == ExportReady && t.job == i
  }

  /** How many export acknowledgements a run accepts for a job. */
  function Ready(s: State, steps: seq<Step>, i: nat): nat
    decreases |steps|
  {
    if steps == [] then 0 else (if ReadyFor(s, steps[0], i) then 1 else 0) + Ready(Next(s, steps[0]), steps[1..], i)
  }

  function WipesOf(s: State, steps: seq<Step>, i: nat): nat {
    Count(History(s, steps), WipeOf(i))
  }

  lemma StepSpendsAnExport(s: State, t: Step, i: nat)
    ensures Count(EventsOf(s, t), WipeOf(i)) + Armed(Next(s, t), i) <= (if ReadyFor(s, t, i) then 1 else 0) + Armed(s, i)
  {
    WipeExactlyWhenDue(s, t, i);
  }

  /**
   * In every run, the wipes asked for a job never outnumber the export acknowledgements received for it
   * (one more if the run starts with the job armed). An armed job has one acknowledgement left over.
   */
  lemma {:induction false} WipesNeedExports(s: State, steps: seq<Step>, i: nat)
    ensures WipesOf(s, steps, i) + Armed(Run(s, steps), i) <= Ready(s, steps, i) + Armed(s, i)
    decreases |steps|
  {
    if steps != [] {
      var next := Next(s, steps[0]);
      StepSpendsAnExport(s, steps[0], i);
      WipesNeedExports(next, steps[1..], i);
      CountConcat(EventsOf(s, steps[0]), History(next, steps[1..]), WipeOf(i));
    }
  }

  /** A job that is cancelled, blocked or otherwise not armed is not wiped unless another acknowledgement comes. */
  lemma UnarmedIsNotWiped(s: State, steps: seq<Step>, i: nat)
    requires Armed(s, i) == 0 && Ready(s, steps, i) == 0
    ensures WipesOf(s, steps, i) == 0
  {
    WipesNeedExports(s, steps, i);
  }

  // ---------------------------------------------------------------- when a wipe is asked for

  lemma StepKeepsJobs(s: State, t: Step, i: nat)
    requires i < |s.jobs|
    ensures i < |Next(s, t).jobs|
    ensures Next(s, t).jobs[i].tenantId == s.jobs[i].tenantId && Next(s, t).jobs[i].wipeAt == s.jobs[i].wipeAt
  {
  }

  lemma {:induction false} RunKeepsJobs(s: State, steps: seq<Step>, i: nat)
    requires i < |s.jobs|
    ensures i < |Run(s, steps).jobs|
    ensures Run(s, steps).jobs[i].tenantId == s.jobs[i].tenantId && Run(s, steps).jobs[i].wipeAt == s.jobs[i].wipeAt
    decreases |steps|
  {
    if steps != [] {
      StepKeepsJobs(s, steps[0], i);
      RunKeepsJobs(Next(s, steps[0]), steps[1..], i);
    }
  }

  predicate HoldFree(s: State, i: nat) {
    i < |s.jobs| && s.jobs[i].tenantId in s.tenants && !s.tenants[s.jobs[i].tenantId].legalHold
  }

  /**
   * Every wipe request of a run was made at or after the date of its job, by a pass that found the
   * tenant not under legal hold at that moment. The date is the one the job was created with.
   */
  lemma {:induction false} WipesAreDue(s: State, steps: seq<Step>, k: nat) returns (n: nat)
    requires k < |History(s, steps)| && History(s, steps)[k].WipeRequested?
    ensures var e, jobs := History(s, steps)[k], Run(s, steps).jobs;
            && e.job < |jobs| && jobs[e.job].wipeAt.Some? && jobs[e.job].wipeAt.value <= e.at
            && n < |steps| && steps[n].Dispatch? && steps[n].now == e.at
            && HoldFree(Run(s, steps[..n]), e.job)
    decreases |steps|
  {
    var here, next := EventsOf(s, steps[0]), Next(s, steps[0]);
    if k < |here| {
      n := 0;
      var e := here[k];
      assert WipeOf(e.job)(e);
      CountAtLeastOne(here, WipeOf(e.job), k);
      WipeExactlyWhenDue(s, steps[0], e.job);
      WipeEventTime(s, steps[0].now, steps[0].limit, |s.jobs|, k);
      StepKeepsJobs(s, steps[0], e.job);
      RunKeepsJobs(next, steps[1..], e.job);
      assert steps[..0] == [];
    } else {
      n := WipesAreDue(next, steps[1..], k - |here|);
      assert steps[..n + 1][1..] == steps[1..][..n];
      n := n + 1;
    }
  }

  lemma {:induction false} WipeEventTime(s: State, now: int, limit: nat, n: nat, k: nat)
    requires k < |WipeEvents(s, now, limit, n)|
    ensures WipeEvents(s, now, limit, n)[k].WipeRequested? && WipeEvents(s, now, limit, n)[k].at == now
    decreases n
  {
    var before := WipeEvents(s, now, limit, n - 1);
    if k < |before| {
      WipeEventTime(s, now, limit, n - 1, k);
    }
  }

  // ---------------------------------------------------------------- runs in which acknowledgements come in turn

  /** Acknowledgements arrive only for active jobs; one that repeats itself before the wipe is in turn. */
  predicate InTurn(s: State, steps: seq<Step>)
    decreases |steps|
  {
    steps != [] ==>
      && (Accepts(s, steps[0]) && steps[0].result == ExportReady ==> IsActive(s.jobs[steps[0].job]))
      && InTurn(Next(s, steps[0]), steps[1..])
  }

  /** How often a job can still be wiped. */
  function Chances(s: State, i: nat): nat {
    if i >= |s.jobs| || IsActive(s.jobs[i]) then 1 else 0
  }

  lemma {:induction false} SpendsItsChance(s: State, steps: seq<Step>, i: nat)
    requires InTurn(s, steps)
    ensures WipesOf(s, steps, i) <= Chances(s, i)
    decreases |steps|
  {
    if steps != [] {
      var next := Next(s, steps[0]);
      WipeExactlyWhenDue(s, steps[0], i);
      assert Count(EventsOf(s, steps[0]), WipeOf(i)) + Chances(next, i) <= Chances(s, i);
      SpendsItsChance(next, steps[1..], i);
      CountConcat(EventsOf(s, steps[0]), History(next, steps[1..]), WipeOf(i));
    }
  }

  /** Then every job is wiped at most once, and one that is cancelled, blocked or done never. */
  lemma InTurnMeansOnce(s: State, steps: seq<Step>, i: nat)
    requires InTurn(s, steps)
    ensures WipesOf(s, steps, i) <= 1
    ensures i < |s.jobs| && !IsActive(s.jobs[i]) ==> WipesOf(s, steps, i) == 0
  {
    SpendsItsChance(s, steps, i);
  }

  ghost predicate OneActivePerTenant(s: State) {
    forall i, j | 0 <= i < j < |s.jobs| && s.jobs[i].tenantId == s.jobs[j].tenantId && IsActive(s.jobs[i]) ::
      !IsActive(s.jobs[j])
  }

  lemma ActivityOnlyFalls(s: State, t: Step)
    requires OneActivePerTenant(s) && !t.Offboard? && !t.ApprovedOffboard?
    requires Accepts(s, t) && t.result == ExportReady ==> IsActive(s.jobs[t.job])
    ensures OneActivePerTenant(Next(s, t))
  {
    var s' := Next(s, t);
    assert |s'.jobs| == |s.jobs|;
    forall i | 0 <= i < |s.jobs|
      ensures s'.jobs[i].tenantId == s.jobs[i].tenantId && (IsActive(s'.jobs[i]) ==> IsActive(s.jobs[i]))
    {
    }
  }

  lemma SchedulingKeepsOneActive(s: State, tenantId: nat, wipeAt: int)
    requires OneActivePerTenant(s) && tenantId in s.tenants
    ensures OneActivePerTenant(Schedule(s, tenantId, wipeAt))
  {
    CountZero(s.jobs, ActiveOf(tenantId));
    if Count(s.jobs, ActiveOf(tenantId)) == 0 {
      forall k | 0 <= k < |s.jobs|
        ensures !(s.jobs[k].tenantId == tenantId && IsActive(s.jobs[k]))
      {
        assert !ActiveOf(tenantId)(s.jobs[k]);
      }
    }
  }

  /** And a tenant has at most one active job. */
  lemma {:induction false} InTurnMeansOneActive(s: State, steps: seq<Step>)
    requires InTurn(s, steps) && OneActivePerTenant(s)
    ensures OneActivePerTenant(Run(s, steps))
    decreases |steps|
  {
    if steps != [] {
      var t := steps[0];
      if t.Offboard? || t.ApprovedOffboard? {
        if t.tenantId in s.tenants {
          SchedulingKeepsOneActive(s, t.tenantId, t.now + t.wipeInDays * DAY);
        }
      } else {
        ActivityOnlyFalls(s, t);
      }
      InTurnMeansOneActive(Next(s, t), steps[1..]);
    }
  }

  // ---------------------------------------------------------------- the guard that is missing

  lemma {:induction false} NoDateNoWipe(s: State, steps: seq<Step>, i: nat)
    requires i < |s.jobs| && s.jobs[i].wipeAt.None?
    ensures WipesOf(s, steps, i) == 0
    decreases |steps|
  {
    if steps != [] {
      StepKeepsJobs(s, steps[0], i);
      WipeExactlyWhenDue(s, steps[0], i);
      NoDateNoWipe(Next(s, steps[0]), steps[1..], i);
      CountConcat(EventsOf(s, steps[0]), History(Next(s, steps[0]), steps[1..]), WipeOf(i));
    }
  }

  /** From here on, whatever comes in turn, the job is wiped at most so often. */
  ghost predicate WipedAtMost(s: State, i: nat, bound: nat) {
    forall steps :: InTurn(s, steps) ==> WipesOf(s, steps, i) <= bound
  }

  /** An armed job with a date is wiped once its tenant's hold is lifted and its date has come. */
  lemma ArmedCanBeWiped(s: State, i: nat) returns (steps: seq<Step>)
    requires Armed(s, i) == 1 && s.jobs[i].wipeAt.Some? && s.jobs[i].tenantId in s.tenants
    ensures InTurn(s, steps) && WipesOf(s, steps, i) >= 1
  {
    var lift, pass := SetLegalHold(s.jobs[i].tenantId, false), Dispatch(s.jobs[i].wipeAt.value, |s.jobs|);
    steps := [lift, pass];
    var lifted := Next(s, lift);
    CountAtMost(s.jobs[..i], DueAt(s.jobs[i].wipeAt.value));
    assert Wipes(lifted, pass.now, pass.limit, i);
    WipeExactlyWhenDue(lifted, pass, i);
    HistoryStep(s, steps, i);
    HistoryStep(lifted, steps[1..], i);
    assert steps[1..] == [pass] && steps[1..][1..] == [];
    assert InTurn(lifted, [pass]);
  }

  /**
   * An accepted acknowledgement keeps the bound of one wipe for each job exactly when its job is active,
   * or has no date to be wiped at. That is what a guard in the route would have to ask.
   */
  lemma AcknowledgementKeepsTheBound(s: State, t: Step)
    requires Accepts(s, t) && t.result == ExportReady
    ensures WipedAtMost(Next(s, t), t.job, Chances(s, t.job))
            <==> IsActive(s.jobs[t.job]) || s.jobs[t.job].wipeAt.None?
  {
    var i, after := t.job, Next(s, t);
    if IsActive(s.jobs[i]) || s.jobs[i].wipeAt.None? {
      forall steps | InTurn(after, steps)
        ensures WipesOf(after, steps, i) <= Chances(s, i)
      {
        if IsActive(s.jobs[i]) {
          SpendsItsChance(after, steps, i);
        } else {
          NoDateNoWipe(after, steps, i);
        }
      }
    } else {
      var steps := ArmedCanBeWiped(after, i);
    }
  }

  /** It keeps one active job per tenant exactly when its job is active or the tenant has no active job. */
  lemma AcknowledgementKeepsOneActive(s: State, t: Step)
    requires OneActivePerTenant(s) && Accepts(s, t) && t.result == ExportReady
    ensures OneActivePerTenant(Next(s, t)) <==> IsActive(s.jobs[t.job]) || Count(s.jobs, ActiveOf(t.tenantId)) == 0
  {
    var i, after := t.job, Next(s, t);
    CountZero(s.jobs, ActiveOf(t.tenantId));
    if IsActive(s.jobs[i]) {
      ActivityOnlyFalls(s, t);
    } else if Count(s.jobs, ActiveOf(t.tenantId)) == 0 {
      forall k | 0 <= k < |s.jobs| && s.jobs[k].tenantId == t.tenantId
        ensures !IsActive(s.jobs[k])
      {
        assert !ActiveOf(t.tenantId)(s.jobs[k]);
      }
    } else {
      var k := FindOne(s.jobs, ActiveOf(t.tenantId));
      assert k != i && after.jobs[k] == s.jobs[k] && IsActive(after.jobs[i]);
    }
  }

  // ---------------------------------------------------------------- what each step does

  /** An offboarding that finds its tenant free: the tenant is archived, and its job waits for the export. */
  lemma OffboardingStarts(s: State, t: Step)
    requires t.Offboard? || t.ApprovedOffboard?
    requires t.tenantId in s.tenants && !s.tenants[t.tenantId].legalHold
    requires forall j :: j in s.jobs && j.tenantId == t.tenantId ==> j.status !in {Scheduled, ExportPending, WipeScheduled}
    ensures Next(s, t) == State(s.tenants[t.tenantId := Tenant("archived", "Offboarding scheduled", "offboarding", false)],
                                s.jobs + [Job(t.tenantId, ExportPending, Some(t.now + t.wipeInDays * 86_400))])
    ensures EventsOf(s, t) == [ExportRequested(|s.jobs|)]
  {
    CountZero(s.jobs, ActiveOf(t.tenantId));
    assert forall k :: 0 <= k < |s.jobs| ==> s.jobs[k] in s.jobs;
  }

  /** Otherwise nothing is archived or exported; a legal hold leaves a blocked job behind when the route meets it. */
  lemma OffboardingRefused(s: State, t: Step)
    requires t.Offboard? || t.ApprovedOffboard?
    requires t.tenantId !in s.tenants || s.tenants[t.tenantId].legalHold
             || exists j :: j in s.jobs && j.tenantId == t.tenantId && j.status in {Scheduled, ExportPending, WipeScheduled}
    ensures Next(s, t) == if t.Offboard? && t.tenantId in s.tenants && s.tenants[t.tenantId].legalHold
                          then State(s.tenants, s.jobs + [Job(t.tenantId, BlockedLegalHold, None)]) else s
    ensures EventsOf(s, t) == []
  {
    if j :| j in s.jobs && j.tenantId == t.tenantId && j.status in {Scheduled, ExportPending, WipeScheduled} {
      var k :| 0 <= k < |s.jobs| && s.jobs[k] == j;
      CountAtLeastOne(s.jobs, ActiveOf(t.tenantId), k);
    }
  }

  /** The wipe of a job is asked for no earlier than so many whole days after its offboarding. */
  lemma WipeWaitsForItsDays(s: State, t: Step, steps: seq<Step>, k: nat)
    requires t.Offboard? || t.ApprovedOffboard?
    requires t.tenantId in s.tenants && !s.tenants[t.tenantId].legalHold
    requires forall j :: j in s.jobs && j.tenantId == t.tenantId ==> j.status !in {Scheduled, ExportPending, WipeScheduled}
    requires k < |History(Next(s, t), steps)|
    ensures var e := History(Next(s, t), steps)[k]; e.WipeRequested? && e.job == |s.jobs| ==> e.at >= t.now + t.wipeInDays * 86_400
  {
    OffboardingStarts(s, t);
    var e := History(Next(s, t), steps)[k];
    if e.WipeRequested? && e.job == |s.jobs| {
      var n := WipesAreDue(Next(s, t), steps, k);
      RunKeepsJobs(Next(s, t), steps, e.job);
    }
  }

  /**
   * What the school server's report makes of a job, and whether it can be cancelled afterwards: not once the
   * wipe is completed, but still after it has failed.
   */
  lemma ReportDecidesCancelling(s: State, t: Step)
    requires t.Result? && t.tenantId in s.tenants && t.job < |s.jobs| && s.jobs[t.job].tenantId == t.tenantId
    ensures var after, cancel := Next(s, t), Cancel(t.tenantId, t.job);
            && after.tenants == s.tenants && |after.jobs| == |s.jobs|
            && (t.result == ExportReady ==> after.jobs[t.job].status == WipeScheduled)
            && (t.result == WipeCompleted ==> after.jobs[t.job].status == Completed && Next(after, cancel) == after)
            && (t.result == WipeFailed ==>
                  after.jobs[t.job].status == Failed && Next(after, cancel).jobs[t.job].status == Cancelled
                  && EventsOf(after, cancel) == [OffboardCancelled(t.job)])
  {
  }

  /** Cancelling restores a tenant that was archived for offboarding, and leaves one that has another reason by now. */
  lemma CancellingRestores(s: State, tenantId: nat, job: nat)
    requires tenantId in s.tenants && job < |s.jobs| && s.jobs[job].tenantId == tenantId
    ensures var t, after := s.tenants[tenantId], Next(s, Cancel(tenantId, job));
            if s.jobs[job].status in {Completed, WipeDispatched, Cancelled} then after == s
            else after == State(s.tenants[tenantId := if t.reason == "offboarding" then Tenant("active", "", "", t.legalHold) else t],
                                s.jobs[job := Job(tenantId, Cancelled, s.jobs[job].wipeAt)])
  {
  }

  /** Neither cancelling nor a report does anything to a job of another tenant, or to one that does not exist. */
  lemma ForeignJobsAreLeft(s: State, tenantId: nat, job: nat, result: ExportResult)
    requires tenantId !in s.tenants || job >= |s.jobs| || s.jobs[job].tenantId != tenantId
    ensures Next(s, Cancel(tenantId, job)) == s && EventsOf(s, Cancel(tenantId, job)) == []
    ensures Next(s, Result(tenantId, job, result)) == s && EventsOf(s, Result(tenantId, job, result)) == []
  {
  }

  /** A due job in the batch is sent to be wiped, unless its tenant is gone or under legal hold by now. */
  lemma DispatchDecides(s: State, now: int, limit: nat, i: nat)
    requires i < |s.jobs| && s.jobs[i].status == WipeScheduled && s.jobs[i].wipeAt.Some? && s.jobs[i].wipeAt.value <= now
    requires i < limit
    ensures var j, after := s.jobs[i], Next(s, Dispatch(now, limit));
            && after.tenants == s.tenants && |after.jobs| == |s.jobs|
            && after.jobs[i] == Job(j.tenantId,
                                    if j.tenantId !in s.tenants then Cancelled
                                    else if s.tenants[j.tenantId].legalHold then BlockedLegalHold else WipeDispatched, j.wipeAt)
            && WipesOf(s, [Dispatch(now, limit)], i) == (if j.tenantId in s.tenants && !s.tenants[j.tenantId].legalHold then 1 else 0)
  {
    CountAtMost(s.jobs[..i], DueAt(now));
    HistoryStep(s, [Dispatch(now, limit)], i);
    WipeExactlyWhenDue(s, Dispatch(now, limit), i);
  }

  /** A job that is not armed, or not due, is not touched by a pass. */
  lemma DispatchLeaves(s: State, now: int, limit: nat, i: nat)
    requires i < |s.jobs|
    requires s.jobs[i].status != WipeScheduled || s.jobs[i].wipeAt.None? || now < s.jobs[i].wipeAt.value
    ensures Next(s, Dispatch(now, limit)).jobs[i] == s.jobs[i]
  {
  }

  // ---------------------------------------------------------------- an acknowledgement out of turn

  const SCHOOL := Tenant("active", "", "", false)

  /** The export finishes only after the job was cancelled and a second offboarding was started. */
  const OUT_OF_TURN := [Offboard(7, 0, 0), Cancel(7, 0), Offboard(7, 30, 0), Result(7, 0, ExportReady), Dispatch(1, 20)]

  const START := State(map[7 := SCHOOL], [])
  const REOPENED := State(map[7 := Archived(SCHOOL)], [Job(7, Cancelled, Some(0)), Job(7, ExportPending, Some(30 * DAY))])
  const REVIVED := State(map[7 := Archived(SCHOOL)], [Job(7, WipeScheduled, Some(0)), Job(7, ExportPending, Some(30 * DAY))])

  lemma CancelledAndReopened()
    ensures Next(Next(Next(START, OUT_OF_TURN[0]), OUT_OF_TURN[1]), OUT_OF_TURN[2]) == REOPENED
  {
    var s1 := State(map[7 := Archived(SCHOOL)], [Job(7, ExportPending, Some(0))]);
    var s2 := State(map[7 := SCHOOL], [Job(7, Cancelled, Some(0))]);
    assert Next(START, OUT_OF_TURN[0]) == s1;
    assert Next(s1, OUT_OF_TURN[1]) == s2;
    CountZero(s2.jobs, ActiveOf(7));
    assert Next(s2, OUT_OF_TURN[2]) == REOPENED;
  }

  /** A late acknowledgement revives the cancelled job: two jobs of the tenant are active at once. */
  lemma LateExportRevivesACancelledJob()
    ensures Run(START, OUT_OF_TURN[..4]) == REVIVED && !OneActivePerTenant(REVIVED)
  {
    CancelledAndReopened();
    RunOfFour(START, OUT_OF_TURN[..4]);
    assert Next(REOPENED, OUT_OF_TURN[3]) == REVIVED;
    assert IsActive(REVIVED.jobs[0]) && IsActive(REVIVED.jobs[1]);
  }

  /** And the cancelled job is wiped. */
  lemma CancelledJobIsWiped()
    ensures WipesOf(START, OUT_OF_TURN, 0) == 1
  {
    CancelledAndReopened();
    assert Next(REOPENED, OUT_OF_TURN[3]) == REVIVED;
    assert Wipes(REVIVED, 1, 20, 0) by {
      assert REVIVED.jobs[..0] == [];
    }
    WipeExactlyWhenDue(REVIVED, OUT_OF_TURN[4], 0);
    HistoryOfFive(START, OUT_OF_TURN, 0);
  }

  lemma RunOfTwo(s: State, steps: seq<Step>)
    requires |steps| == 2
    ensures Run(s, steps) == Next(Next(s, steps[0]), steps[1])
  {
    assert Run(Next(s, steps[0]), steps[1..]) == Run(Next(Next(s, steps[0]), steps[1]), steps[1..][1..]);
  }

  lemma RunOfFour(s: State, steps: seq<Step>)
    requires |steps| == 4
    ensures Run(s, steps) == Next(Next(Next(Next(s, steps[0]), steps[1]), steps[2]), steps[3])
  {
    var s2 := Next(Next(s, steps[0]), steps[1]);
    assert Run(Next(s, steps[0]), steps[1..]) == Run(s2, steps[1..][1..]);
    RunOfTwo(s2, steps[2..]);
    assert steps[1..][1..] == steps[2..];
  }

  lemma HistoryStep(s: State, steps: seq<Step>, i: nat)
    requires steps != []
    ensures WipesOf(s, steps, i) == Count(EventsOf(s, steps[0]), WipeOf(i)) + WipesOf(Next(s, steps[0]), steps[1..], i)
  {
    CountConcat(EventsOf(s, steps[0]), History(Next(s, steps[0]), steps[1..]), WipeOf(i));
  }

  lemma HistoryOfFive(s: State, steps: seq<Step>, i: nat)
    requires |steps| == 5 && !steps[0].Dispatch? && !steps[1].Dispatch? && !steps[2].Dispatch? && !steps[3].Dispatch?
    ensures var s4 := Next(Next(Next(Next(s, steps[0]), steps[1]), steps[2]), steps[3]);
            WipesOf(s, steps, i) == Count(EventsOf(s4, steps[4]), WipeOf(i))
  {
    var s1 := Next(s, steps[0]);
    var s2 := Next(s1, steps[1]);
    var s3 := Next(s2, steps[2]);
    var s4 := Next(s3, steps[3]);
    HistoryStep(s, steps, i);
    HistoryStep(s1, steps[1..], i);
    HistoryStep(s2, steps[2..], i);
    HistoryStep(s3, steps[3..], i);
    HistoryStep(s4, steps[4..], i);
    assert steps[1..][1..] == steps[2..] && steps[2..][1..] == steps[3..] && steps[3..][1..] == steps[4..] && steps[4..][1..] == [];
    WipeExactlyWhenDue(s, steps[0], i);
    WipeExactlyWhenDue(s1, steps[1], i);
    WipeExactlyWhenDue(s2, steps[2], i);
    WipeExactlyWhenDue(s3, steps[3], i);
  }

  // ---------------------------------------------------------------- cancelling

  /**
   * Cancelling a fresh offboarding puts the tenant back exactly when it was active and without a
   * message before; a suspended tenant comes back active.
   */
  lemma CancelUndoesOffboard(s: State, tenantId: nat, days: nat, now: int)
    requires tenantId in s.tenants && !s.tenants[tenantId].legalHold && Count(s.jobs, ActiveOf(tenantId)) == 0
    ensures var before, after := s.tenants[tenantId], Next(Next(s, Offboard(tenantId, days, now)), Cancel(tenantId, |s.jobs|));
            && tenantId in after.tenants
            && (after.tenants == s.tenants <==> before.status == "active" && before.message == "" && before.reason == "")
            && after.tenants[tenantId].status == "active"
            && after.jobs == s.jobs + [Job(tenantId, Cancelled, Some(now + days * 86_400))]
  {
  }
}
