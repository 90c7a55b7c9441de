/**
 * Two-person approval of destructive actions. Deciding is one transaction under a row lock; listing
 * reads first and writes what it expired later, so other transactions may come in between.
 */
module DualControl {
  import opened Text
  import opened Whitespace

  datatype Status = Pending | Approved | Executed | Rejected | Expired

  /** What is to be done; never changed after the request was made. */
  datatype Task = Task(action: string, target: string, payload: string)

  datatype Decision = Decision(staffId: string, reason: string, at: int)

  datatype Request = Request(task: Task, requesterId: string, expiresAt: Option<int>,
                             status: Status, decision: Option<Decision>)

  /** `listings` holds, for every listing that has read but not yet written, the rows it will expire. */
  datatype State<+W> = State(requests: seq<Request>, world: W, listings: map<nat, set<nat>>)

  datatype Step =
    | Create(task: Task, requesterId: string, expiresAt: int)
    | Decide(id: nat, staffId: string, reason: string, approve: bool, now: int)
    | List(ids: set<nat>, now: int)
    | ListRead(session: nat, ids: set<nat>, now: int)
    | ListWrite(session: nat)

  /** An action that was carried out. */
  datatype Effect = Effect(id: nat, staffId: string, reason: string, at: int)

  predicate PastExpiry(q: Request, now: int) {
    q.status == Pending && q.expiresAt.Some? && q.expiresAt.value < now
  }

  /** The guards of a decision, in order. */
  datatype Verdict = NotFound | Gone | NotPending | ReasonMissing | OwnRequest | Refused | Failed | Done

  function VerdictOf<W>(s: State<W>, d: Step, effect: (W, Task) -> Option<W>): Verdict
    requires d.Decide?
  {
    if d.id >= |s.requests| then NotFound
    else
      var q := s.requests[d.id];
      if PastExpiry(q, d.now) then Gone
      else if q.status != Pending then NotPending
      else if Strip(d.reason) == "" then ReasonMissing
      else if q.requesterId == d.staffId then OwnRequest
      else if !d.approve then Refused
      else if effect(s.world, q.task).None? then Failed
      else Done
  }

  function Settle(q: Request, d: Step, status: Status): Request
    requires d.Decide?
  {
    q.(status := status, decision := Some(Decision(d.staffId, d.reason, d.now)))
  }

  /** A decision; every refusal rolls back, except that an expired request is marked as such. */
  function Decided<W>(s: State<W>, d: Step, effect: (W, Task) -> Option<W>): State<W>
    requires d.Decide?
  {
    match VerdictOf(s, d, effect)
    case Gone => s.(requests := s.requests[d.id := s.requests[d.id].(status := Expired)])
    case Refused => s.(requests := s.requests[d.id := Settle(s.requests[d.id], d, Rejected)])
    case Done =>
      s.(requests := s.requests[d.id := Settle(s.requests[d.id], d, Executed)],
         world := effect(s.world, s.requests[d.id].task).value)
    case _ => s
  }

  function ExpireAll(requests: seq<Request>, ids: set<nat>): (rs: seq<Request>)
    ensures |rs| == |requests|
    ensures forall i :: 0 <= i < |rs| ==> rs[i] == if i in ids then requests[i].(status := Expired) else requests[i]
  {
    seq(|requests|, i requires 0 <= i < |requests| => if i in ids then requests[i].(status := Expired) else requests[i])
  }

  /** The listed rows that are pending and past their expiry now. */
  function Stale(requests: seq<Request>, ids: set<nat>, now: int): set<nat> {
    set i | i in ids && i < |requests| && PastExpiry(requests[i], now)
  }

  function Next<W>(s: State<W>, t: Step, effect: (W, Task) -> Option<W>): State<W> {
    match t
    case Create(task, requester, expiresAt) =>
      s.(requests := s.requests + [Request(task, requester, Some(expiresAt), Pending, None)])
    case Decide(_, _, _, _, _) => Decided(s, t, effect)
    case List(ids, now) => s.(requests := ExpireAll(s.requests, Stale(s.requests, ids, now)))
    case ListRead(session, ids, now) => s.(listings := s.listings[session := Stale(s.requests, ids, now)])
    case ListWrite(session) =>
      if session in s.listings
      then s.(requests := ExpireAll(s.requests, s.listings[session]), listings := s.listings - {session})
      else s
  }

  function EffectsOf<W>(s: State<W>, t: Step, effect: (W, Task) -> Option<W>): seq<Effect> {
    if t.Decide? && VerdictOf(s, t, effect) == Done then [Effect(t.id, t.staffId, t.reason, t.now)] else []
  }

  function Run<W>(s: State<W>, steps: seq<Step>, effect: (W, Task) -> Option<W>): State<W>
    decreases |steps|
  {
    if steps == [] then s else Run(Next(s, steps[0], effect), steps[1..], effect)
  }

  function History<W>(s: State<W>, steps: seq<Step>, effect: (W, Task) -> Option<W>): seq<Effect>
    decreases |steps|
  {
    if steps == [] then []
    else EffectsOf(s, steps[0], effect) + History(Next(s, steps[0], effect), steps[1..], effect)
  }

  // ---------------------------------------------------------------- one step

  /** What no step changes about a request. */
  predicate SameRequest(q: Request, r: Request) {
    q.task == r.task && q.requesterId == r.requesterId && q.expiresAt == r.expiresAt
  }

  lemma StepKeepsRequests<W>(s: State<W>, t: Step, effect: (W, Task) -> Option<W>, i: nat)
    requires i < |s.requests|
    ensures i < |Next(s, t, effect).requests| && SameRequest(s.requests[i], Next(s, t, effect).requests[i])
    ensures s.requests[i].status != Pending ==> Next(s, t, effect).requests[i].status != Pending
  {
  }

  /** Some character of the reason is not white space. */
  predicate HasText(reason: string) {
    exists k :: 0 <= k < |reason| && !IsSpace(reason[k])
  }

  /** A request that may be decided: it is pending, and its time, if it has one, is not over. */
  predicate Open(q: Request, now: int) {
    q.status == Pending && (q.expiresAt.Some? ==> now <= q.expiresAt.value)
  }

  /** Another person decides an open request and says why. */
  predicate MayDecide<W>(s: State<W>, d: Step) {
    && d.Decide? && d.id < |s.requests| && Open(s.requests[d.id], d.now)
    && HasText(d.reason) && d.staffId != s.requests[d.id].requesterId
  }

  /** What every decision does, told from the request and the message. */
  lemma DecisionOutcome<W>(s: State<W>, d: Step, effect: (W, Task) -> Option<W>)
    requires d.Decide?
    ensures var next := Next(s, d, effect);
            if MayDecide(s, d) then
              var q := s.requests[d.id];
              var decision := Some(Decision(d.staffId, d.reason, d.now));
              if !d.approve then
                next == s.(requests := s.requests[d.id := Request(q.task, q.requesterId, q.expiresAt, Rejected, decision)])
              else match effect(s.world, q.task)
                   case None => next == s
                   case Some(w) =>
                     next == s.(requests := s.requests[d.id := Request(q.task, q.requesterId, q.expiresAt, Executed, decision)],
                                world := w)
            else if d.id < |s.requests| && s.requests[d.id].status == Pending && !Open(s.requests[d.id], d.now) then
              next == s.(requests := s.requests[d.id := s.requests[d.id].(status := Expired)])
            else next == s
    ensures EffectsOf(s, d, effect) ==
              if MayDecide(s, d) && d.approve && effect(s.world, s.requests[d.id].task).Some?
              then [Effect(d.id, d.staffId, d.reason, d.now)] else []
  {
    StripBlank(d.reason);
  }

  /** The answer, in the order of the guards. */
  lemma DecisionAnswer<W>(s: State<W>, d: Step, effect: (W, Task) -> Option<W>)
    requires d.Decide?
    ensures var v := VerdictOf(s, d, effect);
            if d.id >= |s.requests| then v == NotFound
            else
              var q := s.requests[d.id];
              && (q.status == Pending && !Open(q, d.now) ==> v == Gone)
              && (q.status != Pending ==> v == NotPending)
              && (Open(q, d.now) && !HasText(d.reason) ==> v == ReasonMissing)
              && (Open(q, d.now) && HasText(d.reason) && q.requesterId == d.staffId ==> v == OwnRequest)
              && (MayDecide(s, d) && !d.approve ==> v == Refused)
              && (MayDecide(s, d) && d.approve ==>
                    v == if effect(s.world, q.task).Some? then Done else Failed)
  {
    StripBlank(d.reason);
  }

  /** What the other steps do to a request: listing marks what is overdue, at once or by a later write. */
  lemma ListingMarksOverdue<W>(s: State<W>, ids: set<nat>, now: int, effect: (W, Task) -> Option<W>, i: nat)
    requires i < |s.requests|
    ensures var q, q' := s.requests[i], Next(s, List(ids, now), effect).requests[i];
            q' == if i in ids && q.status == Pending && !Open(q, now) then q.(status := Expired) else q
    ensures Next(s, List(ids, now), effect).world == s.world
  {
  }

  /** A request is born pending, undecided, with the date it was given. */
  lemma CreatedPending<W>(s: State<W>, task: Task, requesterId: string, expiresAt: int, effect: (W, Task) -> Option<W>)
    ensures Next(s, Create(task, requesterId, expiresAt), effect)
            == s.(requests := s.requests + [Request(task, requesterId, Some(expiresAt), Pending, None)])
  {
  }

  // ---------------------------------------------------------------- runs

  lemma {:induction false} RunKeepsRequests<W>(s: State<W>, steps: seq<Step>, effect: (W, Task) -> Option<W>, i: nat)
    requires i < |s.requests|
    ensures var r := Run(s, steps, effect); i < |r.requests| && SameRequest(s.requests[i], r.requests[i])
    ensures s.requests[i].status != Pending ==> Run(s, steps, effect).requests[i].status != Pending
    decreases |steps|
  {
    if steps != [] {
      StepKeepsRequests(s, steps[0], effect, i);
      RunKeepsRequests(Next(s, steps[0], effect), steps[1..], effect, i);
    }
  }

  /** A request that is not pending causes no effect any more. */
  lemma {:induction false} SettledHasNoEffect<W>(s: State<W>, steps: seq<Step>, effect: (W, Task) -> Option<W>, i: nat, k: nat)
    requires i < |s.requests| && s.requests[i].status != Pending && k < |History(s, steps, effect)|
    ensures History(s, steps, effect)[k].id != i
    decreases |steps|
  {
    var here := EffectsOf(s, steps[0], effect);
    StepKeepsRequests(s, steps[0], effect, i);
    if k >= |here| {
      SettledHasNoEffect(Next(s, steps[0], effect), steps[1..], effect, i, k - |here|);
    }
  }

  /** Over every interleaving, each request is carried out at most once. */
  lemma {:induction false} AtMostOnce<W>(s: State<W>, steps: seq<Step>, effect: (W, Task) -> Option<W>, j: nat, k: nat)
    requires j < k < |History(s, steps, effect)|
    ensures History(s, steps, effect)[j].id != History(s, steps, effect)[k].id
    decreases |steps|
  {
    var here, rest := EffectsOf(s, steps[0], effect), Next(s, steps[0], effect);
    if here == [] {
      AtMostOnce(rest, steps[1..], effect, j, k);
    } else if j == 0 {
      SettledHasNoEffect(rest, steps[1..], effect, here[0].id, k - 1);
    } else {
      AtMostOnce(rest, steps[1..], effect, j - 1, k - 1);
    }
  }

  /** Somebody other than the requester approved it in time and said why. */
  predicate Authorized(q: Request, e: Effect) {
    && e.staffId != q.requesterId
    && Strip(e.reason) != ""
    && (q.expiresAt.Some? ==> e.at <= q.expiresAt.value)
  }

  /** Every effect was authorised, and its request was pending until then and is not pending afterwards. */
  lemma {:induction false} EffectsAreAuthorized<W>(s: State<W>, steps: seq<Step>, effect: (W, Task) -> Option<W>, k: nat)
    requires k < |History(s, steps, effect)|
    ensures var e, r := History(s, steps, effect)[k], Run(s, steps, effect);
            && e.id < |r.requests|
            && Authorized(r.requests[e.id], e)
            && r.requests[e.id].status != Pending
            && (e.id < |s.requests| ==> s.requests[e.id].status == Pending)
    decreases |steps|
  {
    var t := steps[0];
    var here, next := EffectsOf(s, t, effect), Next(s, t, effect);
    if k < |here| {
      RunKeepsRequests(next, steps[1..], effect, t.id);
    } else {
      EffectsAreAuthorized(next, steps[1..], effect, k - |here|);
      var e := History(s, steps, effect)[k];
      if e.id < |s.requests| {
        StepKeepsRequests(s, t, effect, e.id);
      }
    }
  }

  // ---------------------------------------------------------------- what the world went through

  /** The effects of a history applied to the world, one after the other. */
  function Apply<W>(world: W, tasks: seq<Task>, effect: (W, Task) -> Option<W>): Option<W>
    decreases |tasks|
  {
    if tasks == [] then Some(world)
    else
      match effect(world, tasks[0])
      case None => None
      case Some(w) => Apply(w, tasks[1..], effect)
  }

  function TasksOf<W>(s: State<W>, steps: seq<Step>, effect: (W, Task) -> Option<W>): seq<Task>
    decreases |steps|
  {
    if steps == [] then []
    else
      var here := EffectsOf(s, steps[0], effect);
      (if here != [] && here[0].id < |s.requests| then [s.requests[here[0].id].task] else [])
      + TasksOf(Next(s, steps[0], effect), steps[1..], effect)
  }

  lemma ApplyCons<W>(world: W, task: Task, rest: seq<Task>, effect: (W, Task) -> Option<W>)
    requires effect(world, task).Some?
    ensures Apply(world, [task] + rest, effect) == Apply(effect(world, task).value, rest, effect)
  {
    assert ([task] + rest)[1..] == rest;
  }

  /** What one step does to the world. */
  lemma StepWorld<W>(s: State<W>, t: Step, effect: (W, Task) -> Option<W>)
    ensures EffectsOf(s, t, effect) == [] ==> Next(s, t, effect).world == s.world
    ensures EffectsOf(s, t, effect) != [] ==>
              && |EffectsOf(s, t, effect)| == 1 && EffectsOf(s, t, effect)[0].id < |s.requests|
              && effect(s.world, s.requests[EffectsOf(s, t, effect)[0].id].task) == Some(Next(s, t, effect).world)
  {
  }

  /** Nothing else touches the world: it is what the recorded effects made of it, in their order. */
  lemma {:induction false} WorldIsItsHistory<W>(s: State<W>, steps: seq<Step>, effect: (W, Task) -> Option<W>)
    ensures Apply(s.world, TasksOf(s, steps, effect), effect) == Some(Run(s, steps, effect).world)
    ensures |TasksOf(s, steps, effect)| == |History(s, steps, effect)|
    decreases |steps|
  {
    if steps != [] {
      var t := steps[0];
      var here, next := EffectsOf(s, t, effect), Next(s, t, effect);
      var rest := TasksOf(next, steps[1..], effect);
      WorldIsItsHistory(next, steps[1..], effect);
      StepWorld(s, t, effect);
      if here != [] {
        ApplyCons(s.world, s.requests[here[0].id].task, rest, effect);
      } else {
        assert [] + rest == rest;
      }
    }
  }

  /** Each of those tasks is the one its request was made with. */
  lemma {:induction false} TasksAreTheRequests<W>(s: State<W>, steps: seq<Step>, effect: (W, Task) -> Option<W>, k: nat)
    requires k < |History(s, steps, effect)|
    ensures k < |TasksOf(s, steps, effect)| && History(s, steps, effect)[k].id < |Run(s, steps, effect).requests|
    ensures TasksOf(s, steps, effect)[k] == Run(s, steps, effect).requests[History(s, steps, effect)[k].id].task
    decreases |steps|
  {
    var here, next := EffectsOf(s, steps[0], effect), Next(s, steps[0], effect);
    StepWorld(s, steps[0], effect);
    if k < |here| {
      var id := here[0].id;
      StepKeepsRequests(s, steps[0], effect, id);
      RunKeepsRequests(next, steps[1..], effect, id);
    } else {
      TasksAreTheRequests(next, steps[1..], effect, k - |here|);
    }
  }

  // ---------------------------------------------------------------- what becomes of a settled request

  /** Some listing that was read and is not yet written will mark the request as expired. */
  predicate Listed<W>(s: State<W>, i: nat) {
    exists session :: session in s.listings && i in s.listings[session]
  }

  predicate WritesLate<W>(s: State<W>, t: Step, i: nat) {
    t.ListWrite? && t.session in s.listings && i in s.listings[t.session]
  }

  /** In the course of the run a listing writes the request. */
  predicate WrittenLate<W>(s: State<W>, steps: seq<Step>, effect: (W, Task) -> Option<W>, i: nat)
    decreases |steps|
  {
    steps != [] && (WritesLate(s, steps[0], i) || WrittenLate(Next(s, steps[0], effect), steps[1..], effect, i))
  }

  function MarkedExpired(q: Request, late: bool): Request {
    if late then q.(status := Expired) else q
  }

  lemma SettledStep<W>(s: State<W>, t: Step, effect: (W, Task) -> Option<W>, i: nat)
    requires i < |s.requests| && s.requests[i].status != Pending
    ensures i < |Next(s, t, effect).requests|
    ensures Next(s, t, effect).requests[i] == MarkedExpired(s.requests[i], WritesLate(s, t, i))
  {
  }

  /** In any run, all that can happen to a request that is not pending is that a listing marks it as expired. */
  lemma {:induction false} SettledFate<W>(s: State<W>, steps: seq<Step>, effect: (W, Task) -> Option<W>, i: nat)
    requires i < |s.requests| && s.requests[i].status != Pending
    ensures i < |Run(s, steps, effect).requests|
    ensures Run(s, steps, effect).requests[i] == MarkedExpired(s.requests[i], WrittenLate(s, steps, effect, i))
    decreases |steps|
  {
    if steps != [] {
      SettledStep(s, steps[0], effect, i);
      SettledFate(Next(s, steps[0], effect), steps[1..], effect, i);
    }
  }

  lemma ListedStep<W>(s: State<W>, t: Step, effect: (W, Task) -> Option<W>, i: nat)
    requires i < |s.requests| && s.requests[i].status != Pending && !Listed(s, i)
    ensures !Listed(Next(s, t, effect), i) && !WritesLate(s, t, i)
  {
    var next := Next(s, t, effect);
    forall session | session in next.listings
      ensures i !in next.listings[session]
    {
      assert session in s.listings ==> i !in s.listings[session];
    }
  }

  lemma {:induction false} UnlistedIsNotWritten<W>(s: State<W>, steps: seq<Step>, effect: (W, Task) -> Option<W>, i: nat)
    requires i < |s.requests| && s.requests[i].status != Pending && !Listed(s, i)
    ensures !WrittenLate(s, steps, effect, i)
    decreases |steps|
  {
    if steps != [] {
      ListedStep(s, steps[0], effect, i);
      SettledStep(s, steps[0], effect, i);
      UnlistedIsNotWritten(Next(s, steps[0], effect), steps[1..], effect, i);
    }
  }

  ghost predicate NeverChanges<W>(s: State<W>, effect: (W, Task) -> Option<W>, i: nat)
    requires i < |s.requests|
  {
    forall steps :: i < |Run(s, steps, effect).requests| && Run(s, steps, effect).requests[i] == s.requests[i]
  }

  /**
   * A request that is not pending keeps its status and decision in every run exactly when it is expired
   * already or no open listing holds it; listings that hold other rows, or begin later, do no harm.
   */
  lemma SettledIsAbsorbing<W>(s: State<W>, effect: (W, Task) -> Option<W>, i: nat)
    requires i < |s.requests| && s.requests[i].status != Pending
    ensures NeverChanges(s, effect, i) <==> s.requests[i].status == Expired || !Listed(s, i)
  {
    if s.requests[i].status == Expired || !Listed(s, i) {
      forall steps
        ensures i < |Run(s, steps, effect).requests| && Run(s, steps, effect).requests[i] == s.requests[i]
      {
        SettledFate(s, steps, effect, i);
        if !Listed(s, i) {
          UnlistedIsNotWritten(s, steps, effect, i);
        }
      }
    } else {
      var session :| session in s.listings && i in s.listings[session];
      var steps := [ListWrite(session)];
      assert WritesLate(s, steps[0], i);
      SettledFate(s, steps, effect, i);
    }
  }

  predicate Carried(h: seq<Effect>, i: nat) {
    exists k :: 0 <= k < |h| && h[k].id == i
  }

  lemma CarriedConcat(g: seq<Effect>, h: seq<Effect>, i: nat)
    ensures Carried(g + h, i) <==> Carried(g, i) || Carried(h, i)
  {
    if Carried(g, i) {
      var k :| 0 <= k < |g| && g[k].id == i;
      assert (g + h)[k].id == i;
    }
    if Carried(h, i) {
      var k :| 0 <= k < |h| && h[k].id == i;
      assert (g + h)[|g| + k].id == i;
    }
  }

  lemma NotCarried<W>(s: State<W>, steps: seq<Step>, effect: (W, Task) -> Option<W>, i: nat)
    requires i < |s.requests| && s.requests[i].status != Pending
    ensures !Carried(History(s, steps, effect), i)
  {
    if Carried(History(s, steps, effect), i) {
      var k :| 0 <= k < |History(s, steps, effect)| && History(s, steps, effect)[k].id == i;
      SettledHasNoEffect(s, steps, effect, i, k);
    }
  }

  /** A rejection is on record, and in no run from there is the request carried out. */
  lemma RejectedIsNeverCarriedOut<W>(s: State<W>, d: Step, effect: (W, Task) -> Option<W>, steps: seq<Step>)
    requires d.Decide? && !d.approve && d.id < |s.requests|
    requires s.requests[d.id].status == Pending
    requires s.requests[d.id].expiresAt.Some? ==> d.now <= s.requests[d.id].expiresAt.value
    requires d.staffId != s.requests[d.id].requesterId && exists k :: 0 <= k < |d.reason| && !IsSpace(d.reason[k])
    ensures var next := Next(s, d, effect);
            && d.id < |next.requests| && next.requests[d.id].status == Rejected
            && next.requests[d.id].decision == Some(Decision(d.staffId, d.reason, d.now))
            && next.world == s.world && EffectsOf(s, d, effect) == []
            && !Carried(History(next, steps, effect), d.id)
  {
    DecisionOutcome(s, d, effect);
    NotCarried(Next(s, d, effect), steps, effect, d.id);
  }

  /**
   * In any run, a request that was pending ends executed exactly when its effect happened and no
   * listing wrote the request; approved is never left behind.
   */
  lemma {:induction false} ExecutedMeansDone<W>(s: State<W>, steps: seq<Step>, effect: (W, Task) -> Option<W>, i: nat)
    requires i < |s.requests| && s.requests[i].status == Pending
    ensures i < |Run(s, steps, effect).requests|
    ensures Run(s, steps, effect).requests[i].status == Executed
            <==> Carried(History(s, steps, effect), i) && !WrittenLate(s, steps, effect, i)
    ensures Run(s, steps, effect).requests[i].status != Approved
    decreases |steps|
  {
    if steps != [] {
      var here, next := EffectsOf(s, steps[0], effect), Next(s, steps[0], effect);
      StepKeepsRequests(s, steps[0], effect, i);
      CarriedConcat(here, History(next, steps[1..], effect), i);
      PendingStep(s, steps[0], effect, i);
      if next.requests[i].status == Pending {
        ExecutedMeansDone(next, steps[1..], effect, i);
      } else {
        SettledFate(next, steps[1..], effect, i);
        NotCarried(next, steps[1..], effect, i);
      }
    }
  }

  /** What one step makes of a pending request. */
  lemma PendingStep<W>(s: State<W>, t: Step, effect: (W, Task) -> Option<W>, i: nat)
    requires i < |s.requests| && s.requests[i].status == Pending
    ensures i < |Next(s, t, effect).requests|
    ensures Next(s, t, effect).requests[i].status == Executed <==> Carried(EffectsOf(s, t, effect), i)
    ensures WritesLate(s, t, i) ==> Next(s, t, effect).requests[i].status == Expired && EffectsOf(s, t, effect) == []
    ensures Next(s, t, effect).requests[i].status in {Pending, Executed, Rejected, Expired}
    ensures Next(s, t, effect).requests[i].status == Pending ==> !WritesLate(s, t, i)
  {
    var here := EffectsOf(s, t, effect);
    if here != [] && here[0].id == i {
      assert Carried(here, i);
    }
  }

  /**
   * In any run, what is on record for a request that was carried out is who approved it, why and when;
   * its status says executed, unless a listing wrote the request later.
   */
  lemma {:induction false} ExecutionIsOnRecord<W>(s: State<W>, steps: seq<Step>, effect: (W, Task) -> Option<W>, k: nat)
    requires k < |History(s, steps, effect)|
    ensures var e, r := History(s, steps, effect)[k], Run(s, steps, effect);
            && e.id < |r.requests|
            && r.requests[e.id].decision == Some(Decision(e.staffId, e.reason, e.at))
            && r.requests[e.id].status in {Executed, Expired}
            && (e.id < |s.requests| ==>
                  (r.requests[e.id].status == Executed <==> !WrittenLate(s, steps, effect, e.id)))
    decreases |steps|
  {
    var here, next := EffectsOf(s, steps[0], effect), Next(s, steps[0], effect);
    if k < |here| {
      SettledFate(next, steps[1..], effect, here[0].id);
    } else {
      ExecutionIsOnRecord(next, steps[1..], effect, k - |here|);
      var e := History(s, steps, effect)[k];
      if e.id < |s.requests| {
        EffectsAreAuthorized(s, steps, effect, k);
        PendingStep(s, steps[0], effect, e.id);
        if WritesLate(s, steps[0], e.id) {
          SettledHasNoEffect(next, steps[1..], effect, e.id, k - |here|);
        }
      }
    }
  }

  predicate ListsAtOnce(steps: seq<Step>) {
    forall k :: 0 <= k < |steps| ==> !steps[k].ListWrite?
  }

  /** Where listing is one transaction, nothing is written late. */
  lemma {:induction false} ListingAtOnceIsNotLate<W>(s: State<W>, steps: seq<Step>, effect: (W, Task) -> Option<W>, i: nat)
    requires ListsAtOnce(steps)
    ensures !WrittenLate(s, steps, effect, i)
    decreases |steps|
  {
    if steps != [] {
      assert forall k :: 0 <= k < |steps| - 1 ==> steps[1..][k] == steps[k + 1];
      ListingAtOnceIsNotLate(Next(s, steps[0], effect), steps[1..], effect, i);
    }
  }

  /**
   * There a request that is not pending keeps its status and decision, and a pending one ends executed
   * exactly when it was carried out.
   */
  lemma ListingAtOnceKeepsSettled<W>(s: State<W>, steps: seq<Step>, effect: (W, Task) -> Option<W>, i: nat)
    requires ListsAtOnce(steps) && i < |s.requests|
    ensures i < |Run(s, steps, effect).requests|
    ensures s.requests[i].status != Pending ==> Run(s, steps, effect).requests[i] == s.requests[i]
    ensures s.requests[i].status == Pending ==>
              (Run(s, steps, effect).requests[i].status == Executed <==> Carried(History(s, steps, effect), i))
  {
    ListingAtOnceIsNotLate(s, steps, effect, i);
    if s.requests[i].status == Pending {
      ExecutedMeansDone(s, steps, effect, i);
    } else {
      SettledFate(s, steps, effect, i);
    }
  }

  // ---------------------------------------------------------------- when a listing writes late

  const LATE_LISTING := [
    Create(Task("tenant.destroy", "1", ""), "a", 10),
    ListRead(0, {0}, 11),
    Decide(0, "b", "x", true, 10),
    ListWrite(0)
  ]

  function CountUp(n: int, t: Task): Option<int> {
    Some(n + 1)
  }

  /**
   * A listing that read before a slow approval committed overwrites the executed request with
   * "expired". The action has happened, and is still not repeated.
   */
  lemma LateListingHidesTheExecution()
    ensures var r := Run(State([], 0, map[]), LATE_LISTING, CountUp);
            r.world == 1 && |r.requests| == 1 && r.requests[0].status == Expired
    ensures var r := Run(State([], 0, map[]), LATE_LISTING[..3], CountUp);
            r.world == 1 && |r.requests| == 1 && r.requests[0].status == Executed
  {
    var s := State([], 0, map[]);
    var created := Request(Task("tenant.destroy", "1", ""), "a", Some(10), Pending, None);
    var s1 := State([created], 0, map[]);
    var s2 := State([created], 0, map[0 := {0}]);
    var d := Decide(0, "b", "x", true, 10);
    var s3 := State([Settle(created, d, Executed)], 1, map[0 := {0}]);
    assert Next(s, LATE_LISTING[0], CountUp) == s1;
    assert Stale(s1.requests, {0}, 11) == {0};
    assert Next(s1, LATE_LISTING[1], CountUp) == s2;
    assert Strip("x") == "x";
    assert "a" != "b" by { assert "a"[0] != "b"[0]; }
    assert Next(s2, d, CountUp) == s3;
    var s4 := Next(s3, LATE_LISTING[3], CountUp);
    RunOfThree(s, LATE_LISTING[..3], CountUp);
    assert Run(s4, [], CountUp) == s4;
    assert LATE_LISTING == LATE_LISTING[..3] + [LATE_LISTING[3]];
    RunAppend(s, LATE_LISTING[..3], LATE_LISTING[3], CountUp);
  }

  lemma RunOfThree<W>(s: State<W>, steps: seq<Step>, effect: (W, Task) -> Option<W>)
    requires |steps| == 3
    ensures Run(s, steps, effect) == Next(Next(Next(s, steps[0], effect), steps[1], effect), steps[2], effect)
  {
    RunAppend(s, steps[..2], steps[2], effect);
    RunAppend(s, steps[..1], steps[1], effect);
    RunAppend(s, [], steps[0], effect);
    assert [] + [steps[0]] == steps[..1] && steps[..1] + [steps[1]] == steps[..2] && steps[..2] + [steps[2]] == steps;
  }

  lemma {:induction false} RunAppend<W>(s: State<W>, steps: seq<Step>, t: Step, effect: (W, Task) -> Option<W>)
    ensures Run(s, steps + [t], effect) == Next(Run(s, steps, effect), t, effect)
    decreases |steps|
  {
    var all := steps + [t];
    if steps == [] {
      assert all[1..] == [];
    } else {
      assert all[1..] == steps[1..] + [t];
      RunAppend(Next(s, steps[0], effect), steps[1..], t, effect);
    }
  }
}
