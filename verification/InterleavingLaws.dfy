/**
 * What the snapshots do not spoil: the anchor. A transaction whose snapshot is stale either conflicts
 * with the table or leaves the anchor alone.
 */
module InterleavingLaws {
  import opened Calendar
  import opened Text
  import opened InvoiceTable
  import opened Periods
  import opened Iteration
  import opened CatchUp
  import opened Interleaving

  /** By-hand creation begins while there is an anchor to bill, or when there is nothing left for it to move to. */
  predicate Anchored(t: Terms, s: System, step: Action) {
    step.Begin? && step.kind.Manual? ==> s.account.next.Some? || Step(t, step.now).None?
  }

  /** The same of a transaction that has begun. */
  predicate Grounded(t: Terms, x: Transaction) {
    x.kind.Manual? ==> x.read.next.Some? || Step(t, x.now).None?
  }

  /**
   * A transaction whose anchor was moved under it cannot write: the period it is about to bill is
   * in the table by now, and a worker has not seen that row.
   */
  ghost predicate Harmless(t: Terms, a: Account, x: Transaction) {
    || x.read.next == a.next
    || (&& x.read.next.Some?
        && Billed(a.rows, PeriodKey(t, x.read.next.value))
        && (x.kind.Worker? ==> !Billed(x.read.rows, PeriodKey(t, x.read.next.value))))
    || (x.read.next.None? && (x.kind.Worker? || Step(t, x.now).None?))
  }

  ghost predicate OneWorker(s: System) {
    forall i, j :: i in s.running && j in s.running && s.running[i].kind.Worker? && s.running[j].kind.Worker? ==> i == j
  }

  /** What every interleaving keeps. */
  ghost predicate Safe(t: Terms, s: System) {
    && TableOk(s)
    && OneWorker(s)
    && (forall id :: id in s.running ==> Harmless(t, s.account, s.running[id]))
    && (forall id :: id in s.running ==> Grounded(t, s.running[id]))
  }

  /** The anchor moves strictly forward, or the schedule ends and its end is invoiced. */
  ghost predicate Forward(t: Terms, before: Option<DateTime>, after: Account) {
    && before.Some?
    && if after.next.Some? then Before(before.value, after.next.value) else ScheduleOver(t, before.value, after.rows)
  }

  /** A pass over a due anchor makes sure that the anchor's period is in its table, and moves on. */
  lemma PassBillsAnchor(t: Terms, a: Account, now: DateTime)
    ensures !Due(a, now) ==> Pass(t, a, now) == a
    ensures Due(a, now) ==> Billed(Pass(t, a, now).rows, PeriodKey(t, a.next.value))
    ensures Due(a, now) ==> Forward(t, a.next, Pass(t, a, now))
  {
    if Due(a, now) {
      var first, last := BillNext(t, a, now), Pass(t, a, now);
      IterateAdds(Biller(t, now), a, 1, MAX_CATCHUP_PERIODS - 1);
      assert Iterate(Biller(t, now), a, 1) == Iterate(Biller(t, now), first, 0);
      BillNextIsSafe(t, a, now);
      PassIsSafe(t, first, now, MAX_CATCHUP_PERIODS - 1);
      BilledAppend(a.rows, InvoiceFor(t, a.next.value), PeriodKey(t, a.next.value));
      BilledInPrefix(first.rows, last.rows, PeriodKey(t, a.next.value));
      NotBackTransitive(t, a.next, first, last);
      StrictlyForward(a.next.value, first.next, last.next);
    } else {
      IterateAtRest(Biller(t, now), a, MAX_CATCHUP_PERIODS);
    }
  }

  lemma StrictlyForward(a: DateTime, b: Option<DateTime>, c: Option<DateTime>)
    requires b.Some? ==> Before(a, b.value)
    requires b.Some? && c.Some? ==> !Before(c.value, b.value)
    requires b.None? ==> c.None?
    ensures c.Some? ==> Before(a, c.value)
  {
    if c.Some? {
      NotBeforeTransitive(a, b.value, c.value);
      BeforeIsTotal(a, c.value);
    }
  }

  lemma BilledInRest(a: seq<Invoice>, b: seq<Invoice>, key: string)
    requires a <= b && Billed(b, key) && !Billed(a, key)
    ensures Billed(b[|a|..], key)
  {
    var i :| 0 <= i < |b| && b[i].key == key;
    assert forall j :: 0 <= j < |a| ==> a[j] == b[j];
    assert i >= |a|;
    assert b[|a|..][i - |a|].key == key;
  }

  /** A transaction that moves the anchor inserts the anchor's period, or is a worker that found it there. */
  lemma MovingInserts(t: Terms, x: Transaction)
    requires Grounded(t, x)
    requires Effect(t, x).next != x.read.next
    ensures Forward(t, x.read.next, Effect(t, x))
    ensures var key := PeriodKey(t, x.read.next.value);
            Billed(Inserted(t, x), key) || (x.kind.Worker? && Billed(x.read.rows, key))
  {
    EffectExtends(t, x);
    PassBillsAnchor(t, x.read, x.now);
    var key := PeriodKey(t, x.read.next.value);
    if x.kind.Worker? {
      if !Billed(x.read.rows, key) {
        BilledInRest(x.read.rows, Effect(t, x).rows, key);
      }
    } else {
      ByHandMoves(t, x);
      BilledInRest(x.read.rows, Effect(t, x).rows, key);
    }
  }

  lemma ByHandMoves(t: Terms, x: Transaction)
    requires x.kind.Manual? && x.read.next.Some? && Effect(t, x).next != x.read.next
    ensures Forward(t, x.read.next, Effect(t, x))
    ensures Billed(Effect(t, x).rows, PeriodKey(t, x.read.next.value)) && !Billed(x.read.rows, PeriodKey(t, x.read.next.value))
  {
    var d := x.read.next.value;
    BilledAppend(x.read.rows, InvoiceFor(t, d), PeriodKey(t, d));
    assert Step(t, d).None? ==> LastBilled(t, d, Effect(t, x).rows, d);
  }

  lemma BilledConflicts(rows: seq<Invoice>, more: seq<Invoice>, key: string)
    requires Billed(rows, key) && Billed(more, key)
    ensures Conflicts(rows, more)
  {
    var i :| 0 <= i < |more| && more[i].key == key;
    assert Billed(rows, more[i].key);
  }

  /** What ends a schedule in the snapshot is in the table after the commit. */
  lemma EndIsCommitted(t: Terms, from: DateTime, read: seq<Invoice>, more: seq<Invoice>, rows: seq<Invoice>)
    requires ScheduleOver(t, from, read + more) && read <= rows
    ensures ScheduleOver(t, from, rows + more)
  {
    var d :| LastBilled(t, from, read + more, d);
    BilledInEither(read, more, rows, PeriodKey(t, d));
    assert LastBilled(t, from, rows + more, d);
  }

  lemma EffectIsAppended(t: Terms, x: Transaction)
    ensures Effect(t, x).rows == x.read.rows + Inserted(t, x)
  {
    EffectExtends(t, x);
  }

  lemma CommittedIsForward(t: Terms, a: Account, x: Transaction)
    requires x.read.next == a.next && x.read.rows <= a.rows && Forward(t, a.next, Effect(t, x))
    requires Effect(t, x).next != x.read.next && !Conflicts(a.rows, Inserted(t, x))
    ensures Forward(t, a.next, Committed(t, a, x))
  {
    EffectIsAppended(t, x);
    if Effect(t, x).next.None? {
      EndIsCommitted(t, a.next.value, x.read.rows, Inserted(t, x), a.rows);
    }
  }

  lemma BilledInOne(a: seq<Invoice>, b: seq<Invoice>, key: string)
    requires Billed(a + b, key)
    ensures Billed(a, key) || Billed(b, key)
  {
    var i :| 0 <= i < |a + b| && (a + b)[i].key == key;
    assert if i < |a| then a[i].key == key else b[i - |a|].key == key;
  }

  lemma BilledInEither(a: seq<Invoice>, b: seq<Invoice>, c: seq<Invoice>, key: string)
    requires Billed(a + b, key) && a <= c
    ensures Billed(c + b, key)
  {
    if Billed(b, key) {
      BilledInSuffix(c, b, key);
    } else {
      BilledInOne(a, b, key);
      BilledInPrefix(a, c, key);
      BilledInPrefix(c, c + b, key);
    }
  }

  /** Nobody overwrites an anchor he has not read: a commit that moves it read its current value. */
  lemma MoverReadTheAnchor(t: Terms, a: Account, x: Transaction)
    requires Harmless(t, a, x) && Grounded(t, x) && x.read.rows <= a.rows
    requires Committed(t, a, x).next != a.next
    ensures x.read.next == a.next && Effect(t, x).next != x.read.next
    ensures Forward(t, a.next, Committed(t, a, x))
  {
    if Effect(t, x).next != x.read.next {
      MovingInserts(t, x);
      var key := PeriodKey(t, x.read.next.value);
      if x.read.next != a.next {
        BilledConflicts(a.rows, Inserted(t, x), key);
      } else {
        CommittedIsForward(t, a, x);
      }
    }
  }

  /** After a move, whoever still holds the old anchor has become harmless. */
  lemma MoveDisarmsOthers(t: Terms, a: Account, x: Transaction, y: Transaction)
    requires UniqueKeys(a.rows) && x.read.rows <= a.rows && y.read.rows <= a.rows
    requires Harmless(t, a, x) && Harmless(t, a, y)
    requires Grounded(t, x)
    requires !(x.kind.Worker? && y.kind.Worker?)
    ensures Harmless(t, Committed(t, a, x), y)
  {
    var a' := Committed(t, a, x);
    CommitKeepsTable(t, a, x);
    if a'.next != a.next {
      MoverReadTheAnchor(t, a, x);
      MovingInserts(t, x);
      var key := PeriodKey(t, a.next.value);
      if Billed(Inserted(t, x), key) {
        BilledInSuffix(a.rows, Inserted(t, x), key);
        if Billed(y.read.rows, key) {
          BilledInPrefix(y.read.rows, a.rows, key);
          BilledConflicts(a.rows, Inserted(t, x), key);
        }
      } else {
        BilledInPrefix(x.read.rows, a.rows, key);
        BilledInPrefix(a.rows, a'.rows, key);
      }
    }
    if y.read.next.Some? && Billed(a.rows, PeriodKey(t, y.read.next.value)) {
      BilledInPrefix(a.rows, a'.rows, PeriodKey(t, y.read.next.value));
    }
  }

  lemma BilledInSuffix(a: seq<Invoice>, b: seq<Invoice>, key: string)
    requires Billed(b, key)
    ensures Billed(a + b, key)
  {
    var i :| 0 <= i < |b| && b[i].key == key;
    assert (a + b)[|a| + i].key == key;
  }

  lemma CommitKeepsSafe(t: Terms, s: System, id: nat)
    requires Safe(t, s) && id in s.running
    ensures Safe(t, After(t, s, Commit(id)))
  {
    var after := After(t, s, Commit(id));
    StepKeepsTable(t, s, Commit(id));
    forall j | j in after.running
      ensures Harmless(t, after.account, after.running[j])
    {
      MoveDisarmsOthers(t, s.account, s.running[id], s.running[j]);
    }
  }

  lemma StepKeepsSafe(t: Terms, s: System, step: Action)
    requires Safe(t, s) && Enabled(s, step) && Anchored(t, s, step)
    ensures Safe(t, After(t, s, step))
    ensures var before, after := s.account.next, After(t, s, step).account.next;
            after == before || Forward(t, before, After(t, s, step).account)
  {
    StepKeepsTable(t, s, step);
    match step {
      case Begin(id, kind, now) =>
        var after := After(t, s, step);
        forall j | j in after.running
          ensures Harmless(t, after.account, after.running[j])
        {
        }
      case Commit(id) =>
        CommitKeepsSafe(t, s, id);
        if After(t, s, step).account.next != s.account.next {
          MoverReadTheAnchor(t, s.account, s.running[id]);
        }
      case Abort(id) =>
    }
  }

  /**
   * However worker passes, retries and by-hand creations interleave, each on its own snapshot: there
   * is one invoice per period key in every state, invoices are never lost, and the anchor only moves
   * forward, or to none once the end of the schedule is invoiced.
   */
  lemma {:induction false} NoDoubleBilling(t: Terms, states: seq<System>, steps: seq<Action>, k: nat)
    requires IsRun(t, states, steps) && k < |states|
    requires UniqueKeys(states[0].account.rows) && states[0].running == map[]
    requires forall j :: 0 <= j < |steps| ==> Anchored(t, states[j], steps[j])
    ensures Safe(t, states[k])
    ensures UniqueKeys(states[k].account.rows)
    ensures k > 0 ==> states[k - 1].account.rows <= states[k].account.rows
    ensures k > 0 ==> states[k].account.next == states[k - 1].account.next
                      || Forward(t, states[k - 1].account.next, states[k].account)
  {
    if k > 0 {
      NoDoubleBilling(t, states, steps, k - 1);
      assert Enabled(states[k - 1], steps[k - 1]) && Anchored(t, states[k - 1], steps[k - 1]);
      StepKeepsSafe(t, states[k - 1], steps[k - 1]);
      StepKeepsTable(t, states[k - 1], steps[k - 1]);
    }
  }

  // ---------------------------------------------------------------- one at a time

  lemma NothingOfItsOwnConflicts(a: seq<Invoice>, more: seq<Invoice>)
    requires UniqueKeys(a + more)
    ensures !Conflicts(a, more)
  {
    forall i | 0 <= i < |more|
      ensures !Billed(a, more[i].key)
    {
      assert (a + more)[|a| + i] == more[i];
      assert forall j :: 0 <= j < |a| ==> (a + more)[j] == a[j];
    }
  }

  /** A transaction that meets no other does what it would do alone. */
  lemma AloneIsSequential(t: Terms, s: System, id: nat, kind: Kind, now: DateTime)
    requires UniqueKeys(s.account.rows) && s.running == map[]
    ensures var begun := After(t, s, Begin(id, kind, now));
            Enabled(s, Begin(id, kind, now)) && Enabled(begun, Commit(id))
            && After(t, begun, Commit(id)) ==
                 System(if kind == Worker then BilledUpTo(t, s.account, now, 24) else ManualCreate(t, s.account, now), map[])
  {
    var x := Transaction(kind, now, s.account);
    EffectExtends(t, x);
    EffectIsAppended(t, x);
    NothingOfItsOwnConflicts(s.account.rows, Inserted(t, x));
    if kind == Worker {
      PassBillsTheFirst24(t, s.account, now);
    }
    var begun := After(t, s, Begin(id, kind, now));
    assert begun.running == map[id := x];
  }

  /** One creation by hand: the period at the anchor, or at the present moment without one, unless it is invoiced. */
  lemma CreatingByHand(t: Terms, a: Account, now: DateTime)
    ensures a.next.Some? && !Billed(a.rows, PeriodKey(t, a.next.value)) ==>
              ManualCreate(t, a, now) == Account(Step(t, a.next.value), a.rows + [InvoiceFor(t, a.next.value)])
    ensures a.next.None? && !Billed(a.rows, PeriodKey(t, now)) ==>
              ManualCreate(t, a, now) == Account(Step(t, now), a.rows + [InvoiceFor(t, now)])
    ensures Billed(a.rows, PeriodKey(t, if a.next.Some? then a.next.value else now)) ==> ManualCreate(t, a, now) == a
  {
  }

  // ---------------------------------------------------------------- fixed cycles: exactly when the anchor holds

  ghost predicate KeepsAnchor(t: Terms, before: System, after: System) {
    NotBack(t, before.account.next, after.account)
  }

  ghost predicate NeverBack(t: Terms, states: seq<System>) {
    forall k :: 0 < k < |states| ==> KeepsAnchor(t, states[k - 1], states[k])
  }

  /** No run that starts with nothing under way moves the anchor back. */
  ghost predicate AnchorHolds(t: Terms, a: Account) {
    forall states, steps | IsRun(t, states, steps) && states[0] == System(a, map[]) :: NeverBack(t, states)
  }

  lemma {:induction false} CyclePassKeepsAnchor(t: Terms, a: Account, now: DateTime, k: nat)
    requires t.schedule.None? && a.next.Some?
    ensures Iterate(Biller(t, now), a, k).next.Some?
    decreases k
  {
    if k > 0 {
      CyclePassKeepsAnchor(t, BillNext(t, a, now), now, k - 1);
    }
  }

  ghost predicate AllAnchored(s: System) {
    s.account.next.Some? && forall id :: id in s.running ==> s.running[id].read.next.Some?
  }

  lemma CycleStepStaysAnchored(t: Terms, s: System, step: Action)
    requires t.schedule.None? && AllAnchored(s) && Enabled(s, step)
    ensures AllAnchored(After(t, s, step)) && Anchored(t, s, step)
  {
    if step.Commit? && s.running[step.id].kind.Worker? {
      CyclePassKeepsAnchor(t, s.running[step.id].read, s.running[step.id].now, MAX_CATCHUP_PERIODS);
    }
  }

  lemma {:induction false} CycleStaysAnchored(t: Terms, states: seq<System>, steps: seq<Action>, k: nat)
    requires IsRun(t, states, steps) && k < |states| && t.schedule.None?
    requires states[0].account.next.Some? && states[0].running == map[]
    ensures AllAnchored(states[k])
    ensures k < |steps| ==> Anchored(t, states[k], steps[k])
  {
    if k > 0 {
      CycleStaysAnchored(t, states, steps, k - 1);
      assert Enabled(states[k - 1], steps[k - 1]);
      CycleStepStaysAnchored(t, states[k - 1], steps[k - 1]);
    }
    if k < |steps| {
      assert Enabled(states[k], steps[k]);
      CycleStepStaysAnchored(t, states[k], steps[k]);
    }
  }

  lemma CycleNeverBack(t: Terms, states: seq<System>, steps: seq<Action>)
    requires IsRun(t, states, steps) && t.schedule.None?
    requires UniqueKeys(states[0].account.rows) && states[0].account.next.Some? && states[0].running == map[]
    ensures NeverBack(t, states)
  {
    forall k | 0 <= k < |steps|
      ensures Anchored(t, states[k], steps[k])
    {
      CycleStaysAnchored(t, states, steps, k);
    }
    forall k | 0 < k < |states|
      ensures KeepsAnchor(t, states[k - 1], states[k])
    {
      NoDoubleBilling(t, states, steps, k);
    }
  }

  // Without an anchor: two creations by hand in years so late that no key of theirs is taken.

  function LongestKey(rows: seq<Invoice>): nat {
    if rows == [] then 0 else if |rows[0].key| > LongestKey(rows[1..]) then |rows[0].key| else LongestKey(rows[1..])
  }

  lemma {:induction false} LongerIsUnbilled(rows: seq<Invoice>, key: string)
    requires |key| > LongestKey(rows)
    ensures !Billed(rows, key)
  {
    if rows != [] {
      LongerIsUnbilled(rows[1..], key);
      assert forall i :: 0 < i < |rows| ==> rows[i] == rows[1..][i - 1];
    }
  }

  lemma LateYearIsUnbilled(t: Terms, rows: seq<Invoice>, d: DateTime)
    requires d.year >= Power10(LongestKey(rows))
    ensures !Billed(rows, PeriodKey(t, d))
  {
    DecimalIsLong(d.year, LongestKey(rows));
    LongerIsUnbilled(rows, PeriodKey(t, d));
  }

  lemma ByHandInserts(t: Terms, a: Account, now: DateTime)
    requires a.next.None? && !Billed(a.rows, PeriodKey(t, now))
    ensures var x := Transaction(Manual, now, a);
            Effect(t, x) == Account(Step(t, now), a.rows + [InvoiceFor(t, now)]) && Inserted(t, x) == [InvoiceFor(t, now)]
  {
  }

  /** What makes two creations that both found no anchor move it back, the one for `late` being committed first. */
  predicate MovesBack(t: Terms, a: Account, early: DateTime, late: DateTime) {
    && Step(t, early).Some? && Step(t, late).Some? && Before(Step(t, early).value, Step(t, late).value)
    && !Billed(a.rows, PeriodKey(t, early)) && !Billed(a.rows, PeriodKey(t, late))
    && PeriodKey(t, early) != PeriodKey(t, late)
  }

  lemma ByHandConflicts(t: Terms, a: Account, b: Account, now: DateTime)
    requires a.next.None? && a.rows <= b.rows
    ensures var x := Transaction(Manual, now, a);
            Committed(t, b, x) ==
              if Billed(b.rows, PeriodKey(t, now)) then b
              else Account(if Step(t, now).Some? then Step(t, now) else b.next, b.rows + [InvoiceFor(t, now)])
  {
    var x := Transaction(Manual, now, a);
    var key := PeriodKey(t, now);
    if Billed(a.rows, key) {
      BilledInPrefix(a.rows, b.rows, key);
      assert Inserted(t, x) == [];
    } else {
      ByHandInserts(t, a, now);
      assert [InvoiceFor(t, now)][0].key == key;
      assert Conflicts(b.rows, Inserted(t, x)) <==> Billed(b.rows, key);
    }
  }

  lemma SecondCreationMovesBack(t: Terms, a: Account, early: DateTime, late: DateTime)
    requires a.next.None?
    ensures var once := Committed(t, a, Transaction(Manual, late, a));
            !NotBack(t, once.next, Committed(t, once, Transaction(Manual, early, a))) <==> MovesBack(t, a, early, late)
  {
    var once := Committed(t, a, Transaction(Manual, late, a));
    ByHandConflicts(t, a, a, late);
    ByHandConflicts(t, a, once, early);
    BilledAppend(a.rows, InvoiceFor(t, late), PeriodKey(t, early));
  }

  lemma RunOfFour(t: Terms, s0: System, s1: System, s2: System, s3: System, s4: System, steps: seq<Action>)
    requires |steps| == 4
    requires Enabled(s0, steps[0]) && s1 == After(t, s0, steps[0])
    requires Enabled(s1, steps[1]) && s2 == After(t, s1, steps[1])
    requires Enabled(s2, steps[2]) && s3 == After(t, s2, steps[2])
    requires Enabled(s3, steps[3]) && s4 == After(t, s3, steps[3])
    ensures IsRun(t, [s0, s1, s2, s3, s4], steps)
  {
    var states := [s0, s1, s2, s3, s4];
    forall k | 0 <= k < 4
      ensures Enabled(states[k], steps[k]) && states[k + 1] == After(t, states[k], steps[k])
    {
      assert k in {0, 1, 2, 3};
    }
  }

  lemma CommitOf(t: Terms, s: System, id: nat)
    requires id in s.running
    ensures After(t, s, Commit(id)).account == Committed(t, s.account, s.running[id])
    ensures After(t, s, Commit(id)).running == s.running - {id}
  {
  }

  lemma UnanchoredRun(t: Terms, a: Account, early: DateTime, late: DateTime)
      returns (states: seq<System>, steps: seq<Action>)
    requires a.next.None?
    ensures IsRun(t, states, steps) && |states| == 5
    ensures states[0] == System(a, map[]) && states[1].account == a && states[2].account == a
    ensures var once := Committed(t, a, Transaction(Manual, late, a));
            states[3].account == once && states[4].account == Committed(t, once, Transaction(Manual, early, a))
  {
    var x, y := Transaction(Manual, late, a), Transaction(Manual, early, a);
    var s0, s1, s2 := System(a, map[]), System(a, map[0 := x]), System(a, map[0 := x, 1 := y]);
    CommitOf(t, s2, 0);
    var s3 := After(t, s2, Commit(0));
    assert 1 in s3.running && s3.running[1] == y;
    CommitOf(t, s3, 1);
    var s4 := After(t, s3, Commit(1));
    steps := [Begin(0, Manual, late), Begin(1, Manual, early), Commit(0), Commit(1)];
    RunOfFour(t, s0, s1, s2, s3, s4, steps);
    states := [s0, s1, s2, s3, s4];
  }

  lemma UnanchoredKeeps(t: Terms, before: System, after: System)
    requires before.account.next.None?
    ensures KeepsAnchor(t, before, after)
  {
  }

  lemma OnlyTheLastMoves(t: Terms, states: seq<System>)
    requires |states| == 5
    requires states[0].account.next.None? && states[1].account.next.None? && states[2].account.next.None?
    ensures NeverBack(t, states) <==> KeepsAnchor(t, states[3], states[4])
  {
    UnanchoredKeeps(t, states[0], states[1]);
    UnanchoredKeeps(t, states[1], states[2]);
    UnanchoredKeeps(t, states[2], states[3]);
    if KeepsAnchor(t, states[3], states[4]) {
      forall k | 0 < k < |states|
        ensures KeepsAnchor(t, states[k - 1], states[k])
      {
        assert k in {1, 2, 3, 4};
      }
    } else {
      assert !KeepsAnchor(t, states[4 - 1], states[4]);
    }
  }

  /** Two creations by hand that begin together without an anchor: exactly when their run moves it back. */
  lemma TwoCreationsMoveBackExactly(t: Terms, a: Account, early: DateTime, late: DateTime)
      returns (states: seq<System>, steps: seq<Action>)
    requires a.next.None?
    ensures IsRun(t, states, steps) && states[0] == System(a, map[])
    ensures !NeverBack(t, states) <==> MovesBack(t, a, early, late)
  {
    states, steps := UnanchoredRun(t, a, early, late);
    SecondCreationMovesBack(t, a, early, late);
    OnlyTheLastMoves(t, states);
  }

  /** On a fixed cycle without an anchor, whatever the table holds, some run of two creations moves it back. */
  lemma UnanchoredCreationCanMoveBack(t: Terms, a: Account) returns (states: seq<System>, steps: seq<Action>)
    requires t.schedule.None? && a.next.None?
    ensures IsRun(t, states, steps) && states[0] == System(a, map[])
    ensures !NeverBack(t, states)
  {
    var y := Power10(LongestKey(a.rows));
    Power10IsPositive(LongestKey(a.rows));
    var early, late := CivilTime(y, 1, 1, 0), CivilTime(y + 1, 1, 1, 0);
    LateYearIsUnbilled(t, a.rows, early);
    LateYearIsUnbilled(t, a.rows, late);
    PeriodKeyIdentifiesUnit(t, early, late);
    AddMonthsFields(early, CycleMonths(t.cycle), early.day);
    AddMonthsFields(late, CycleMonths(t.cycle), late.day);
    states, steps := TwoCreationsMoveBackExactly(t, a, early, late);
  }

  /** So it is on a schedule, between any three successive dates of which the first two are not invoiced. */
  lemma ScheduledCreationCanMoveBack(t: Terms, a: Account, ds: seq<DateTime>, i: nat)
      returns (states: seq<System>, steps: seq<Action>)
    requires t.schedule == Some(ds) && Increasing(ds) && i + 2 < |ds| && a.next.None?
    requires !Billed(a.rows, PeriodKey(t, ds[i])) && !Billed(a.rows, PeriodKey(t, ds[i + 1])) && !SameDay(ds[i], ds[i + 1])
    ensures IsRun(t, states, steps) && states[0] == System(a, map[])
    ensures !NeverBack(t, states)
  {
    NextScheduledInOrder(ds, i);
    NextScheduledInOrder(ds, i + 1);
    PeriodKeyIdentifiesUnit(t, ds[i], ds[i + 1]);
    states, steps := TwoCreationsMoveBackExactly(t, a, ds[i], ds[i + 1]);
  }

  /**
   * On a fixed cycle, every run from a state with unique keys and nothing under way keeps the anchor
   * from moving back exactly when the subscription has an anchor to begin with.
   */
  lemma CycleAnchorHoldsExactly(t: Terms, a: Account)
    requires t.schedule.None? && UniqueKeys(a.rows)
    ensures AnchorHolds(t, a) <==> a.next.Some?
  {
    if a.next.Some? {
      forall states, steps | IsRun(t, states, steps) && states[0] == System(a, map[])
        ensures NeverBack(t, states)
      {
        CycleNeverBack(t, states, steps);
      }
    } else {
      var states, steps := UnanchoredCreationCanMoveBack(t, a);
    }
  }
}
