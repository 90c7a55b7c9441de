/**
 * Billing one subscription from several replicas and consoles at once. Every transaction works on
 * the snapshot it began with; only workers hold the row lock; at commit the unique constraint on
 * (subscription, period key) rolls back whoever comes second.
 */
module Interleaving {
  import opened Calendar
  import opened InvoiceTable
  import opened Periods
  import opened CatchUp

  datatype Kind = Worker | Manual

  /** An open transaction: who runs it, its clock, and what it read when it began. */
  datatype Transaction = Transaction(kind: Kind, now: DateTime, read: Account)

  datatype System = System(account: Account, running: map<nat, Transaction>)

  /** Creating one invoice by hand: at the anchor, or now when there is none; then past it. */
  function ManualCreate(t: Terms, a: Account, now: DateTime): Account {
    var start := if a.next.Some? then a.next.value else now;
    if Billed(a.rows, PeriodKey(t, start)) then a
    else Account(Step(t, start), a.rows + [InvoiceFor(t, start)])
  }

  /** What a transaction wants to leave behind, computed on its snapshot. */
  function Effect(t: Terms, x: Transaction): Account {
    match x.kind
    case Worker => Pass(t, x.read, x.now)
    case Manual => ManualCreate(t, x.read, x.now)
  }

  lemma EffectExtends(t: Terms, x: Transaction)
    ensures x.read.rows <= Effect(t, x).rows
    ensures UniqueKeys(x.read.rows) ==> UniqueKeys(Effect(t, x).rows)
  {
    if x.kind.Worker? {
      PassIsSafe(t, x.read, x.now, MAX_CATCHUP_PERIODS);
    }
  }

  /** The rows a transaction inserts. */
  function Inserted(t: Terms, x: Transaction): seq<Invoice> {
    EffectExtends(t, x);
    Effect(t, x).rows[|x.read.rows|..]
  }

  predicate Conflicts(rows: seq<Invoice>, more: seq<Invoice>) {
    exists i :: 0 <= i < |more| && Billed(rows, more[i].key)
  }

  /** A commit writes the anchor only if the transaction moved it, and nothing at all on a conflict. */
  function Committed(t: Terms, a: Account, x: Transaction): Account {
    if Conflicts(a.rows, Inserted(t, x)) then a
    else Account(if Effect(t, x).next != x.read.next then Effect(t, x).next else a.next,
                 a.rows + Inserted(t, x))
  }

  datatype Action =
    | Begin(id: nat, kind: Kind, now: DateTime)
    | Commit(id: nat)
    | Abort(id: nat)

  predicate WorkerRuns(s: System) {
    exists id :: id in s.running && s.running[id].kind.Worker?
  }

  /** A worker that cannot take the row lock skips the subscription. */
  predicate Enabled(s: System, step: Action) {
    match step
    case Begin(id, kind, now) => id !in s.running && (kind.Worker? ==> !WorkerRuns(s))
    case Commit(id) => id in s.running
    case Abort(id) => id in s.running
  }

  function After(t: Terms, s: System, step: Action): System
    requires Enabled(s, step)
  {
    match step
    case Begin(id, kind, now) => s.(running := s.running[id := Transaction(kind, now, s.account)])
    case Commit(id) => System(Committed(t, s.account, s.running[id]), s.running - {id})
    case Abort(id) => s.(running := s.running - {id})
  }

  // ---------------------------------------------------------------- one invoice per period

  lemma AppendKeepsUnique(seen: seq<Invoice>, rows: seq<Invoice>, more: seq<Invoice>)
    requires UniqueKeys(rows) && UniqueKeys(seen + more) && !Conflicts(rows, more)
    ensures UniqueKeys(rows + more)
  {
    forall i, j | 0 <= i < j < |more|
      ensures more[i].key != more[j].key
    {
      assert (seen + more)[|seen| + i] == more[i] && (seen + more)[|seen| + j] == more[j];
    }
    forall i, j | 0 <= i < |rows| && 0 <= j < |more|
      ensures rows[i].key != more[j].key
    {
      assert !Billed(rows, more[j].key);
    }
  }

  /** Snapshots are earlier states of a table that only grows. */
  ghost predicate TableOk(s: System) {
    && UniqueKeys(s.account.rows)
    && forall id :: id in s.running ==> s.running[id].read.rows <= s.account.rows
  }

  lemma SnapshotUnique(snapshot: seq<Invoice>, rows: seq<Invoice>)
    requires UniqueKeys(rows) && snapshot <= rows
    ensures UniqueKeys(snapshot)
  {
    assert forall i :: 0 <= i < |snapshot| ==> snapshot[i] == rows[i];
  }

  lemma CommitKeepsTable(t: Terms, a: Account, x: Transaction)
    requires UniqueKeys(a.rows) && x.read.rows <= a.rows
    ensures UniqueKeys(Committed(t, a, x).rows)
    ensures a.rows <= Committed(t, a, x).rows
  {
    EffectExtends(t, x);
    SnapshotUnique(x.read.rows, a.rows);
    var more := Inserted(t, x);
    assert Effect(t, x).rows == x.read.rows + more;
    if !Conflicts(a.rows, more) {
      AppendKeepsUnique(x.read.rows, a.rows, more);
    }
  }

  lemma StepKeepsTable(t: Terms, s: System, step: Action)
    requires TableOk(s) && Enabled(s, step)
    ensures TableOk(After(t, s, step))
    ensures s.account.rows <= After(t, s, step).account.rows
  {
    if step.Commit? {
      CommitKeepsTable(t, s.account, s.running[step.id]);
      var after := After(t, s, step);
      forall id | id in after.running
        ensures after.running[id].read.rows <= after.account.rows
      {
        PrefixTransitive(after.running[id].read.rows, s.account.rows, after.account.rows);
      }
    }
  }

  ghost predicate IsRun(t: Terms, states: seq<System>, steps: seq<Action>) {
    && |states| == |steps| + 1
    && forall k :: 0 <= k < |steps| ==> Enabled(states[k], steps[k]) && states[k + 1] == After(t, states[k], steps[k])
  }

  /** In every run whatsoever there is one invoice per period key, and no invoice is ever lost. */
  lemma {:induction false} OneInvoicePerPeriod(t: Terms, states: seq<System>, steps: seq<Action>, k: nat)
    requires IsRun(t, states, steps) && k < |states|
    requires UniqueKeys(states[0].account.rows) && states[0].running == map[]
    ensures TableOk(states[k])
    ensures UniqueKeys(states[k].account.rows)
    ensures k > 0 ==> states[k - 1].account.rows <= states[k].account.rows
  {
    if k > 0 {
      OneInvoicePerPeriod(t, states, steps, k - 1);
      assert Enabled(states[k - 1], steps[k - 1]);
      StepKeepsTable(t, states[k - 1], steps[k - 1]);
    }
  }
}
