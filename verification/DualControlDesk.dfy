/** The request rows as objects: what creating, listing and deciding assign, and what a rollback restores. */
module DualControlDesk {
  import opened Text
  import opened Whitespace
  import opened DualControl

  class DualControlRequest {
    const task: Task
    const requestedById: string
    const expiresAt: Option<int>
    var status: Status
    var decidedAt: Option<int>
    var approvedById: string
    var decisionReason: string

    constructor (task: Task, requestedById: string, expiresAt: int)
      ensures View() == Request(task, requestedById, Some(expiresAt), Pending, None)
    {
      this.task, this.requestedById, this.expiresAt := task, requestedById, Some(expiresAt);
      status, decidedAt, approvedById, decisionReason := Pending, None, "", "";
    }

    function View(): Request
      reads this
    {
      Request(task, requestedById, expiresAt, status,
              if decidedAt.Some? then Some(Decision(approvedById, decisionReason, decidedAt.value)) else None)
    }

    method ExpireIfNeeded(now: int) returns (expired: bool)
      modifies this`status
      ensures expired == PastExpiry(old(View()), now)
      ensures View() == if expired then old(View()).(status := Expired) else old(View())
    {
      if status != Pending || expiresAt.None? {
        return false;
      }
      if expiresAt.value < now {
        status := Expired;
        return true;
      }
      return false;
    }

    /** Undo what a failed transaction assigned. */
    method Rollback(status: Status, decidedAt: Option<int>, approvedById: string, decisionReason: string)
      modifies this
      ensures this.status == status && this.decidedAt == decidedAt
      ensures this.approvedById == approvedById && this.decisionReason == decisionReason
    {
      this.status, this.decidedAt, this.approvedById, this.decisionReason := status, decidedAt, approvedById, decisionReason;
    }
  }

  class Desk<W> {
    var rows: seq<DualControlRequest>
    var world: W

    constructor (world: W)
      ensures Valid() && View() == State([], world, map[])
    {
      rows, this.world := [], world;
    }

    ghost predicate Valid()
      reads this
    {
      forall i, j :: 0 <= i < j < |rows| ==> rows[i] != rows[j]
    }

    function Requests(): (rs: seq<Request>)
      reads this, rows
      ensures |rs| == |rows|
    {
      seq(|rows|, i requires 0 <= i < |rows| reads this, rows => rows[i].View())
    }

    function View(): State<W>
      reads this, rows
    {
      State(Requests(), world, map[])
    }

    method CreateRequest(task: Task, staffId: string, now: int, expiry: int, ghost effect: (W, Task) -> Option<W>)
      requires Valid()
      modifies this`rows
      ensures Valid()
      ensures View() == Next(old(View()), Create(task, staffId, now + expiry), effect)
    {
      var row := new DualControlRequest(task, staffId, now + expiry);
      rows := rows + [row];
    }

    /** Every listed row is expired if needed, in one transaction. */
    method ListRequests(ids: set<nat>, now: int, ghost effect: (W, Task) -> Option<W>)
      requires Valid()
      modifies rows
      ensures Valid() && View() == Next(old(View()), List(ids, now), effect)
    {
      ghost var before := Requests();
      for n := 0 to |rows|
        invariant Valid()
        invariant forall i :: 0 <= i < |rows| ==>
                    rows[i].View() == if i < n && i in Stale(before, ids, now) then before[i].(status := Expired) else before[i]
      {
        if n in ids {
          var expired := rows[n].ExpireIfNeeded(now);
        }
      }
    }

    /** Mark one row as expired if its time is over. */
    method ExpireRow(id: nat, now: int) returns (expired: bool)
      requires Valid() && id < |rows|
      modifies rows[id]
      ensures Valid() && rows == old(rows) && world == old(world)
      ensures var q := old(Requests())[id];
              && expired == PastExpiry(q, now)
              && Requests() == if expired then old(Requests())[id := q.(status := Expired)] else old(Requests())
    {
      expired := rows[id].ExpireIfNeeded(now);
    }

    /** Enter the decision on one row. */
    method DecideRow(id: nat, staffId: string, reason: string, now: int, status: Status)
      requires Valid() && id < |rows|
      modifies rows[id]
      ensures Valid() && rows == old(rows) && world == old(world)
      ensures var q := old(Requests())[id];
              Requests() == old(Requests())[id := q.(status := status, decision := Some(Decision(staffId, reason, now)))]
    {
      var req := rows[id];
      req.decidedAt := Some(now);
      req.approvedById := staffId;
      req.decisionReason := reason;
      req.status := status;
    }

    /** Carry out an approved request; when that fails, everything is as before. */
    method Execute(id: nat, staffId: string, reason: string, now: int, effect: (W, Task) -> Option<W>) returns (done: bool)
      requires Valid() && id < |rows|
      modifies this`world, rows[id]
      ensures Valid() && rows == old(rows)
      ensures var q := old(Requests())[id]; var w := effect(old(world), q.task);
              && done == w.Some?
              && world == (if done then w.value else old(world))
              && Requests() == (if done
                                then old(Requests())[id := q.(status := Executed, decision := Some(Decision(staffId, reason, now)))]
                                else old(Requests()))
    {
      var req := rows[id];
      var status, decidedAt, approvedById, decisionReason := req.status, req.decidedAt, req.approvedById, req.decisionReason;
      assert old(Requests())[id] == old(rows[id].View());
      DecideRow(id, staffId, reason, now, Approved);
      assert Requests()[id] == req.View();
      match effect(world, req.task) {
        case None =>
          req.Rollback(status, decidedAt, approvedById, decisionReason);
          assert req.View() == old(rows[id].View());
          return false;
        case Some(w) =>
          world := w;
          req.status := Executed;
          assert req.View() == old(rows[id].View()).(status := Executed, decision := Some(Decision(staffId, reason, now)));
          assert Requests() == old(Requests())[id := req.View()];
          return true;
      }
    }

    method Decide(id: nat, staffId: string, reason: string, approve: bool, now: int, effect: (W, Task) -> Option<W>)
        returns (verdict: Verdict)
      requires Valid()
      modifies this`world, rows
      ensures Valid() && rows == old(rows)
      ensures View() == Next(old(View()), Step.Decide(id, staffId, reason, approve, now), effect)
      ensures verdict == VerdictOf(old(View()), Step.Decide(id, staffId, reason, approve, now), effect)
    {
      if id >= |rows| {
        return NotFound;
      }
      var expired := ExpireRow(id, now);
      if expired {
        return Gone;
      }
      if rows[id].status != Pending {
        return NotPending;
      }
      if Strip(reason) == "" {
        return ReasonMissing;
      }
      if rows[id].requestedById == staffId {
        return OwnRequest;
      }
      if !approve {
        DecideRow(id, staffId, reason, now, Rejected);
        return Refused;
      }
      var done := Execute(id, staffId, reason, now, effect);
      return if done then Done else Failed;
    }
  }
}
