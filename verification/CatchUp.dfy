/**
 * The catch-up pass: every period a subscription has fallen behind on is invoiced, at most 24 per
 * pass. The capped, retried pass is proved to refine the plain specification without a cap.
 */
module CatchUp {
  import opened Calendar
  import opened Text
  import opened Iteration
  import opened InvoiceTable
  import opened Numbers
  import opened Periods

  const MAX_CATCHUP_PERIODS := 24

  /** What a pass changes: the next billing date and the invoices of the subscription. */
  datatype Account = Account(next: Option<DateTime>, rows: seq<Invoice>)

  predicate Due(a: Account, now: DateTime) {
    a.next.Some? && !Before(now, a.next.value)
  }

  /** Bill the next date, if it is due. */
  function BillNext(t: Terms, a: Account, now: DateTime): Account {
    if Due(a, now) then Account(Step(t, a.next.value), Add(a.rows, InvoiceFor(t, a.next.value))) else a
  }

  function Biller(t: Terms, now: DateTime): Account -> Account {
    a => BillNext(t, a, now)
  }

  /** One pass. */
  function Pass(t: Terms, a: Account, now: DateTime): Account {
    Iterate(Biller(t, now), a, MAX_CATCHUP_PERIODS)
  }

  function Passes(t: Terms, a: Account, now: DateTime, n: nat): Account {
    Rounds(Biller(t, now), MAX_CATCHUP_PERIODS, a, n)
  }

  // ---------------------------------------------------------------- the specification

  /** The first `k` due dates are billed, all of them if there are fewer, and the anchor stands after them. */
  function BilledUpTo(t: Terms, a: Account, now: DateTime, k: nat): Account {
    Account(AnchorAfter(t, a.next, now, k), AddAll(a.rows, InvoicesFor(t, FirstDue(t, a.next, now, k))))
  }

  /** Without a cap: every due date is billed, and the anchor stands at the first that is not due. */
  function Uncapped(t: Terms, a: Account, now: DateTime): Account {
    BilledUpTo(t, a, now, |DueChain(t, a.next, now)|)
  }

  lemma AddAllFirst(rows: seq<Invoice>, row: Invoice, more: seq<Invoice>)
    ensures AddAll(rows, [row] + more) == AddAll(Add(rows, row), more)
  {
    assert ([row] + more)[1..] == more;
  }

  lemma BilledUpToFirst(t: Terms, a: Account, now: DateTime, k: nat)
    requires k > 0 && Due(a, now)
    ensures BilledUpTo(t, a, now, k) == BilledUpTo(t, BillNext(t, a, now), now, k - 1)
  {
    var d := a.next.value;
    var rest := FirstDue(t, Step(t, d), now, k - 1);
    FirstDueOneMore(t, d, now, k);
    assert ([d] + rest)[1..] == rest;
    assert InvoicesFor(t, [d] + rest) == [InvoiceFor(t, d)] + InvoicesFor(t, rest);
    AddAllFirst(a.rows, InvoiceFor(t, d), InvoicesFor(t, rest));
  }

  lemma BilledUpToNothing(t: Terms, a: Account, now: DateTime, k: nat)
    requires k == 0 || !Due(a, now)
    ensures BilledUpTo(t, a, now, k) == a
  {
    DueIsChained(t, a.next, now);
    assert FirstDue(t, a.next, now, k) == [];
  }

  lemma BilledUpToTurn(t: Terms, a: Account, now: DateTime, k: nat)
    ensures BilledUpTo(t, a, now, k) == if k == 0 then a else BilledUpTo(t, BillNext(t, a, now), now, k - 1)
  {
    if k > 0 && Due(a, now) {
      BilledUpToFirst(t, a, now, k);
    } else {
      BilledUpToNothing(t, a, now, k);
      if k > 0 {
        BilledUpToNothing(t, a, now, k - 1);
      }
    }
  }

  function Billing(t: Terms, now: DateTime): (Account, nat) -> Account {
    (a: Account, k: nat) => BilledUpTo(t, a, now, k)
  }

  /** After any number of turns exactly that many due dates are billed, or all of them. */
  lemma TurnsBillTheFirst(t: Terms, a: Account, now: DateTime, k: nat)
    ensures Iterate(Biller(t, now), a, k) == BilledUpTo(t, a, now, k)
  {
    forall x
      ensures Billing(t, now)(x, 0) == x
    {
      BilledUpToNothing(t, x, now, 0);
    }
    forall x, n: nat
      ensures Billing(t, now)(x, n + 1) == Billing(t, now)(Biller(t, now)(x), n)
    {
      BilledUpToTurn(t, x, now, n + 1);
    }
    IterateFollows(Biller(t, now), Billing(t, now), a, k);
  }

  /** Something is left to bill exactly while fewer dates were billed than were due. */
  lemma BacklogLength(t: Terms, a: Account, now: DateTime, k: nat)
    ensures Due(Iterate(Biller(t, now), a, k), now) <==> k < |DueChain(t, a.next, now)|
  {
    TurnsBillTheFirst(t, a, now, k);
    AnchorAfterDropsDates(t, a.next, now, k);
    DueIsChained(t, AnchorAfter(t, a.next, now, k), now);
  }

  /** The dates that a number of turns bills have different period keys. */
  predicate KeysApart(t: Terms, a: Account, now: DateTime, k: nat) {
    t.schedule.Some? ==> DistinctDays(FirstDue(t, a.next, now, k))
  }

  lemma FirstKeysDistinct(t: Terms, a: Account, now: DateTime, k: nat)
    requires KeysApart(t, a, now, k)
    ensures UniqueKeys(InvoicesFor(t, FirstDue(t, a.next, now, k)))
  {
    if t.schedule.Some? {
      ScheduleKeysDistinct(t, FirstDue(t, a.next, now, k));
    } else {
      CycleChainKeysDistinct(t, a.next, now);
      PrefixKeysDistinct(t, DueChain(t, a.next, now), k);
    }
  }

  lemma PrefixKeysDistinct(t: Terms, ds: seq<DateTime>, k: nat)
    requires UniqueKeys(InvoicesFor(t, ds))
    ensures UniqueKeys(InvoicesFor(t, ds[..Min(k, |ds|)]))
  {
    var n := Min(k, |ds|);
    assert ds == ds[..n] + ds[n..];
    InvoicesForConcat(t, ds[..n], ds[n..]);
    var all, first := InvoicesFor(t, ds), InvoicesFor(t, ds[..n]);
    assert forall i :: 0 <= i < n ==> all[i] == first[i];
  }

  /**
   * On a fixed cycle, or on a schedule with one date a day, `k` turns append one invoice for each of the
   * first `k` due dates that had none, in date order; nothing else is added or changed.
   */
  lemma TurnsAddExactlyTheMissing(t: Terms, a: Account, now: DateTime, k: nat)
    requires KeysApart(t, a, now, k)
    ensures Iterate(Biller(t, now), a, k).rows == a.rows + Missing(a.rows, InvoicesFor(t, FirstDue(t, a.next, now, k)))
  {
    TurnsBillTheFirst(t, a, now, k);
    FirstKeysDistinct(t, a, now, k);
    AddAllAppendsTheMissing(a.rows, InvoicesFor(t, FirstDue(t, a.next, now, k)));
  }

  /** One pass bills the first 24 due dates, adds exactly what they were missing, and leaves the rest due. */
  lemma PassBillsTheFirst24(t: Terms, a: Account, now: DateTime)
    ensures Pass(t, a, now) == BilledUpTo(t, a, now, 24)
    ensures KeysApart(t, a, now, 24) ==>
              Pass(t, a, now).rows == a.rows + Missing(a.rows, InvoicesFor(t, FirstDue(t, a.next, now, 24)))
    ensures var ds := DueChain(t, a.next, now);
            DueChain(t, Pass(t, a, now).next, now) == if 24 <= |ds| then ds[24..] else []
  {
    TurnsBillTheFirst(t, a, now, 24);
    AnchorAfterDropsDates(t, a.next, now, 24);
    if KeysApart(t, a, now, 24) {
      TurnsAddExactlyTheMissing(t, a, now, 24);
    }
  }

  /**
   * Retrying the capped pass bills 24 more dates each time. It reaches the uncapped result as soon as that
   * covers the backlog, no sooner, and every later pass changes nothing.
   */
  lemma CatchUpRefinesUncapped(t: Terms, a: Account, now: DateTime, n: nat)
    ensures Passes(t, a, now, n) == BilledUpTo(t, a, now, 24 * n)
    ensures 24 * n >= |DueChain(t, a.next, now)| ==>
              && Passes(t, a, now, n) == Uncapped(t, a, now)
              && Pass(t, Passes(t, a, now, n), now) == Passes(t, a, now, n)
    ensures Due(Passes(t, a, now, n), now) <==> 24 * n < |DueChain(t, a.next, now)|
  {
    var d := |DueChain(t, a.next, now)|;
    var k := MAX_CATCHUP_PERIODS * n;
    RoundsAddUp(Biller(t, now), MAX_CATCHUP_PERIODS, a, n);
    TurnsBillTheFirst(t, a, now, k);
    BacklogLength(t, a, now, k);
    if k >= d {
      BacklogLength(t, a, now, d);
      StopsEarly(t, a, now, d, k);
      TurnsBillTheFirst(t, a, now, d);
      IterateAtRest(Biller(t, now), Passes(t, a, now, n), MAX_CATCHUP_PERIODS);
    }
  }

  lemma UncappedTurn(t: Terms, a: Account, now: DateTime)
    ensures Uncapped(t, BillNext(t, a, now), now) == Uncapped(t, a, now)
  {
    if Due(a, now) {
      DueChainFirst(t, a.next.value, now);
      BilledUpToFirst(t, a, now, |DueChain(t, a.next, now)|);
    }
  }

  /** A turn at an earlier time is a turn at a later time, or none. */
  lemma EarlierTurn(t: Terms, a: Account, now: DateTime, later: DateTime)
    requires !Before(later, now)
    ensures Uncapped(t, BillNext(t, a, now), later) == Uncapped(t, a, later)
  {
    if Due(a, now) {
      NotBeforeTransitive(a.next.value, now, later);
      assert BillNext(t, a, now) == BillNext(t, a, later);
      UncappedTurn(t, a, later);
    } else {
      assert BillNext(t, a, now) == a;
    }
  }

  function Outcome(t: Terms, later: DateTime): Account -> Account {
    a => Uncapped(t, a, later)
  }

  lemma EarlierTurnsDoNotMatter(t: Terms, a: Account, now: DateTime, later: DateTime, k: nat)
    requires !Before(later, now)
    ensures Uncapped(t, Iterate(Biller(t, now), a, k), later) == Uncapped(t, a, later)
  {
    forall x
      ensures Outcome(t, later)(Biller(t, now)(x)) == Outcome(t, later)(x)
    {
      EarlierTurn(t, x, now, later);
    }
    IteratePreserves(Biller(t, now), Outcome(t, later), a, k);
  }

  /** One capped pass at each of these times. */
  function Worked(t: Terms, a: Account, clocks: seq<DateTime>): Account
    decreases |clocks|
  {
    if clocks == [] then a else Worked(t, Pass(t, a, clocks[0]), clocks[1..])
  }

  /**
   * However often the worker ran before, and however far each capped pass got: billing what is due in
   * the end gives the account that billing everything at once in the end would have given.
   */
  lemma {:induction false} EarlierPassesDoNotMatter(t: Terms, a: Account, clocks: seq<DateTime>, later: DateTime)
    requires forall i :: 0 <= i < |clocks| ==> !Before(later, clocks[i])
    ensures Uncapped(t, Worked(t, a, clocks), later) == Uncapped(t, a, later)
    ensures !Due(Worked(t, a, clocks), later) ==> Worked(t, a, clocks) == Uncapped(t, a, later)
    decreases |clocks|
  {
    if clocks != [] {
      EarlierTurnsDoNotMatter(t, a, clocks[0], later, MAX_CATCHUP_PERIODS);
      EarlierPassesDoNotMatter(t, Pass(t, a, clocks[0]), clocks[1..], later);
    } else if !Due(a, later) {
      BilledUpToNothing(t, a, later, |DueChain(t, a.next, later)|);
    }
  }

  /** The whole backlog is cleared by appending what was missing, in date order. */
  lemma UncappedAddsExactlyTheMissing(t: Terms, a: Account, now: DateTime)
    requires t.schedule.Some? ==> DistinctDays(DueChain(t, a.next, now))
    ensures Uncapped(t, a, now).rows == a.rows + Missing(a.rows, InvoicesFor(t, DueChain(t, a.next, now)))
  {
    var ds := DueChain(t, a.next, now);
    assert FirstDue(t, a.next, now, |ds|) == ds;
    TurnsBillTheFirst(t, a, now, |ds|);
    TurnsAddExactlyTheMissing(t, a, now, |ds|);
  }

  // ---------------------------------------------------------------- what a pass keeps

  /** A date from `from` on that the schedule has no date after, and whose period is invoiced. */
  predicate LastBilled(t: Terms, from: DateTime, rows: seq<Invoice>, d: DateTime) {
    !Before(d, from) && Step(t, d).None? && Billed(rows, PeriodKey(t, d))
  }

  /** The end of the schedule is reached and invoiced. A fixed cycle has no end. */
  ghost predicate ScheduleOver(t: Terms, from: DateTime, rows: seq<Invoice>) {
    t.schedule.Some? && exists d :: LastBilled(t, from, rows, d)
  }

  /** The anchor does not move back, and it is given up only at the end of the schedule. */
  ghost predicate NotBack(t: Terms, before: Option<DateTime>, after: Account) {
    before.Some? ==>
      if after.next.Some? then !Before(after.next.value, before.value) else ScheduleOver(t, before.value, after.rows)
  }

  lemma BillNextIsSafe(t: Terms, a: Account, now: DateTime)
    ensures UniqueKeys(a.rows) ==> UniqueKeys(BillNext(t, a, now).rows)
    ensures a.rows <= BillNext(t, a, now).rows
    ensures NotBack(t, a.next, BillNext(t, a, now))
    ensures a.next.None? ==> BillNext(t, a, now).next.None?
  {
    if Due(a, now) {
      var d := a.next.value;
      BilledAppend(a.rows, InvoiceFor(t, d), PeriodKey(t, d));
      assert Step(t, d).None? ==> LastBilled(t, d, BillNext(t, a, now).rows, d);
    }
  }

  lemma PrefixTransitive(a: seq<Invoice>, b: seq<Invoice>, c: seq<Invoice>)
    requires a <= b && b <= c
    ensures a <= c
  {
  }

  /** What was over stays over, and is over seen from any earlier date. */
  lemma ScheduleStaysOver(t: Terms, from: DateTime, rows: seq<Invoice>, earlier: DateTime, more: seq<Invoice>)
    requires ScheduleOver(t, from, rows) && !Before(from, earlier) && rows <= more
    ensures ScheduleOver(t, earlier, more)
  {
    var d :| LastBilled(t, from, rows, d);
    NotBeforeTransitive(earlier, from, d);
    BilledInPrefix(rows, more, PeriodKey(t, d));
    assert LastBilled(t, earlier, more, d);
  }

  lemma NotBackTransitive(t: Terms, a: Option<DateTime>, b: Account, c: Account)
    requires NotBack(t, a, b) && NotBack(t, b.next, c) && (b.next.None? ==> c.next.None?) && b.rows <= c.rows
    ensures NotBack(t, a, c)
  {
    if a.Some? {
      if b.next.None? {
        ScheduleStaysOver(t, a.value, b.rows, a.value, c.rows);
      } else if c.next.None? {
        ScheduleStaysOver(t, b.next.value, c.rows, a.value, c.rows);
      } else {
        NotBeforeTransitive(a.value, b.next.value, c.next.value);
      }
    }
  }

  /**
   * A pass never bills a period twice, keeps every earlier invoice, never moves the anchor back, and gives
   * it up only when the end of the schedule is invoiced.
   */
  lemma {:induction false} PassIsSafe(t: Terms, a: Account, now: DateTime, k: nat)
    ensures var after := Iterate(Biller(t, now), a, k);
            && (UniqueKeys(a.rows) ==> UniqueKeys(after.rows))
            && a.rows <= after.rows
            && NotBack(t, a.next, after)
            && (a.next.None? ==> after.next.None?)
    decreases k
  {
    if k > 0 {
      var b, c := BillNext(t, a, now), Iterate(Biller(t, now), a, k);
      BillNextIsSafe(t, a, now);
      PassIsSafe(t, b, now, k - 1);
      PrefixTransitive(a.rows, b.rows, c.rows);
      NotBackTransitive(t, a.next, b, c);
    }
  }

  lemma OneMorePeriod(t: Terms, a: Account, now: DateTime, k: nat)
    ensures Iterate(Biller(t, now), a, k + 1) == BillNext(t, Iterate(Biller(t, now), a, k), now)
  {
    IterateOneMore(Biller(t, now), a, k);
  }

  /** An account that is not due stays as it is, however many turns are left. */
  lemma StopsEarly(t: Terms, a: Account, now: DateTime, k: nat, turns: nat)
    requires k <= turns && !Due(Iterate(Biller(t, now), a, k), now)
    ensures Iterate(Biller(t, now), a, turns) == Iterate(Biller(t, now), a, k)
  {
    RestsWhenNotDue(t, Iterate(Biller(t, now), a, k), now);
    IterateStays(Biller(t, now), a, k, turns);
  }

  lemma RestsWhenNotDue(t: Terms, a: Account, now: DateTime)
    requires !Due(a, now)
    ensures Biller(t, now)(a) == a
  {
  }

  /** Where an invoice made without a given period starts: at the anchor, or now. */
  function StartOf(periodStart: Option<DateTime>, next: Option<DateTime>, now: DateTime): DateTime {
    if periodStart.Some? then periodStart.value else if next.Some? then next.value else now
  }

  /** `_next_period_start`, for a subscription that has no anchor. */
  function FirstAnchor(t: Terms, now: DateTime): DateTime {
    if t.schedule.Some? then (if NextScheduled(t.schedule.value, now).Some? then NextScheduled(t.schedule.value, now).value else now)
    else AddMonths(now, CycleMonths(t.cycle), now.day)
  }

  /** The first anchor is the date after now, as after a billing date; a schedule with none left starts now. */
  lemma FirstAnchorIsNext(t: Terms, now: DateTime)
    ensures FirstAnchor(t, now) == if Step(t, now).Some? then Step(t, now).value else now
    ensures t.schedule.None? ==> Before(now, FirstAnchor(t, now))
  {
    if t.schedule.None? {
      CycleSteps(t, now);
    }
  }

  // ---------------------------------------------------------------- the mutable rows

  datatype Status = Active | Trialing | PastDue | Cancelled | CancelledBlacklisted
  datatype Approval = Draft | Pending | Approved | ApprovalActive

  class Subscription {
    const terms: Terms
    const isCurrent: bool
    const status: Status
    const approval: Approval
    var nextInvoiceAt: Option<DateTime>
    /** The rows of the invoice table that carry this subscription's id, in insertion order. */
    var invoices: seq<Invoice>

    constructor (terms: Terms, isCurrent: bool, status: Status, approval: Approval, next: Option<DateTime>)
      ensures this.terms == terms && this.isCurrent == isCurrent && this.status == status
      ensures this.approval == approval && nextInvoiceAt == next && invoices == []
    {
      this.terms, this.isCurrent, this.status, this.approval := terms, isCurrent, status, approval;
      nextInvoiceAt, invoices := next, [];
    }

    function View(): Account
      reads this
    {
      Account(nextInvoiceAt, invoices)
    }

    /** Selected by the candidate query and approved. */
    predicate Eligible(now: DateTime)
      reads this
    {
      && isCurrent
      && (status == Active || status == PastDue)
      && nextInvoiceAt.Some? && !Before(now, nextInvoiceAt.value)
      && (approval == ApprovalActive || approval == Approved)
    }

    /**
     * Create the invoice of one period. A period already invoiced yields nothing; a subscription
     * without an anchor gets one.
     */
    method CreateInvoice(periodStart: Option<DateTime>, now: DateTime) returns (created: Option<Invoice>)
      modifies this
      ensures var start := if periodStart.Some? then periodStart.value
                           else if old(nextInvoiceAt).Some? then old(nextInvoiceAt).value else now;
              if Billed(old(invoices), PeriodKey(terms, start)) then created == None && View() == old(View())
              else
                && created == Some(InvoiceFor(terms, start))
                && invoices == old(invoices) + [InvoiceFor(terms, start)]
                && nextInvoiceAt == if old(nextInvoiceAt).Some? then old(nextInvoiceAt) else Some(FirstAnchor(terms, now))
    {
      var start := StartOf(periodStart, nextInvoiceAt, now);
      var key := PeriodKey(terms, start);
      if Billed(invoices, key) {
        return None;
      }
      var row := Invoice(key, start, WindowEnd(terms, start));
      invoices := invoices + [row];
      if nextInvoiceAt.None? {
        nextInvoiceAt := Some(FirstAnchor(terms, now));
      }
      return Some(row);
    }

    /** The next scheduled date; on a cycle, the same day one, three or twelve months on, or the month's last. */
    method AdvanceNextInvoiceAt(from: DateTime)
      modifies this`nextInvoiceAt
      ensures nextInvoiceAt == Step(terms, from)
      ensures terms.schedule.None? ==>
                && nextInvoiceAt.Some?
                && nextInvoiceAt.value.MonthIndex() ==
                     from.MonthIndex() + (match terms.cycle case Monthly => 1 case Termly => 3 case Yearly => 12)
                && nextInvoiceAt.value.day == Min(from.day, LengthOfMonth(nextInvoiceAt.value.MonthIndex()))
    {
      if terms.schedule.None? {
        CycleSteps(terms, from);
      }
      if terms.schedule.Some? {
        nextInvoiceAt := NextScheduled(terms.schedule.value, from);
      } else {
        nextInvoiceAt := Some(AddMonths(from, CycleMonths(terms.cycle), from.day));
      }
    }

    /** If the anchor is due, invoice the period it stands at and move it past that period. */
    method BillPeriod(now: DateTime) returns (due: bool, created: seq<Invoice>)
      modifies this
      ensures due == Due(old(View()), now) && View() == BillNext(terms, old(View()), now)
      ensures invoices == old(invoices) + created
    {
      if nextInvoiceAt.None? {
        return false, [];
      }
      var nia := nextInvoiceAt.value;
      if Before(now, nia) {
        return false, [];
      }
      var invoice := CreateInvoice(Some(nia), now);
      AdvanceNextInvoiceAt(nia);
      return true, if invoice.Some? then [invoice.value] else [];
    }

    /** One turn of the loop, when `reach(k)` is what `k` turns reach. */
    method BillAfter(ghost reach: nat -> Account, ghost before: Account, now: DateTime, ghost k: nat, ghost turns: nat)
        returns (due: bool, created: seq<Invoice>)
      requires Describes(reach, terms, before, now) && k < turns && View() == reach(k)
      modifies this
      ensures View() == if due then reach(k + 1) else reach(turns)
      ensures invoices == old(invoices) + created
    {
      assert reach(k) == Iterate(Biller(terms, now), before, k);
      assert reach(k + 1) == Iterate(Biller(terms, now), before, k + 1);
      assert reach(turns) == Iterate(Biller(terms, now), before, turns);
      OneMorePeriod(terms, before, now, k);
      due, created := BillPeriod(now);
      if !due {
        StopsEarly(terms, before, now, k, turns);
      }
    }

    /** The loop over the periods that are due, and the invoices it created. */
    method BillWhileDue(ghost reach: nat -> Account, ghost before: Account, now: DateTime, turns: nat)
        returns (created: seq<Invoice>)
      requires Describes(reach, terms, before, now) && View() == reach(0)
      modifies this
      ensures View() == reach(turns)
      ensures invoices == old(invoices) + created
    {
      created := [];
      var periods := 0;
      while periods < turns
        invariant 0 <= periods <= turns
        invariant View() == reach(periods)
        invariant invoices == old(invoices) + created
      {
        var due, more := BillAfter(reach, before, now, periods, turns);
        created := created + more;
        if !due {
          return;
        }
        periods := periods + 1;
      }
    }

    /** At most so many turns of the loop; a whole pass takes up to `MAX_CATCHUP_PERIODS`. */
    method CatchUpPeriods(now: DateTime, turns: nat) returns (created: seq<Invoice>)
      modifies this
      ensures View() == BilledUpTo(terms, old(View()), now, turns)
      ensures invoices == old(invoices) + created
    {
      ghost var before := View();
      ghost var reach := Turns(terms, before, now);
      assert reach(turns) == Iterate(Biller(terms, now), before, turns);
      TurnsBillTheFirst(terms, before, now, turns);
      created := BillWhileDue(reach, before, now, turns);
    }
  }

  /** What the turns of a pass reach, one after the other. */
  ghost function Turns(t: Terms, before: Account, now: DateTime): (reach: nat -> Account)
    ensures Describes(reach, t, before, now)
    ensures reach(0) == before
  {
    (k: nat) => Iterate(Biller(t, now), before, k)
  }

  ghost predicate Describes(reach: nat -> Account, t: Terms, before: Account, now: DateTime) {
    forall k: nat {:trigger Iterate(Biller(t, now), before, k)} :: reach(k) == Iterate(Biller(t, now), before, k)
  }

  predicate Apart(subs: seq<Subscription>, i: nat, j: nat)
    requires i < |subs| && j < |subs|
  {
    subs[i] != subs[j]
  }

  predicate Distinct(subs: seq<Subscription>) {
    forall i, j {:trigger Apart(subs, i, j)} :: 0 <= i < j < |subs| ==> Apart(subs, i, j)
  }

  lemma OthersApart(subs: seq<Subscription>, n: nat)
    requires Distinct(subs) && n < |subs|
    ensures forall i :: 0 <= i < |subs| && i != n ==> subs[i] != subs[n]
  {
    forall i | 0 <= i < |subs| && i != n
      ensures subs[i] != subs[n]
    {
      assert if i < n then Apart(subs, i, n) else Apart(subs, n, i);
    }
  }

  /**
   * What befalls one subscription in a batch: it is left out, or its transaction fails after some turns
   * and is rolled back, or it gets its whole pass.
   */
  datatype Fate = LeftOut | RolledBack(turns: nat) | WholePass

  function FateOf(eligible: bool, failsAfter: Option<nat>): Fate {
    if !eligible then LeftOut
    else if failsAfter.Some? then RolledBack(if failsAfter.value < MAX_CATCHUP_PERIODS then failsAfter.value else MAX_CATCHUP_PERIODS)
    else WholePass
  }

  /** A whole pass bills the first 24 due dates. */
  function Served(t: Terms, a: Account, fate: Fate, now: DateTime): Account {
    if fate.WholePass? then BilledUpTo(t, a, now, MAX_CATCHUP_PERIODS) else a
  }

  lemma BilledUpToExtends(t: Terms, a: Account, now: DateTime, k: nat)
    ensures a.rows <= BilledUpTo(t, a, now, k).rows
  {
    AddAllKeys(a.rows, InvoicesFor(t, FirstDue(t, a.next, now, k)), "");
  }

  /** The invoices the batch reports for one subscription; those of a failed transaction stay on the list. */
  function Reported(t: Terms, a: Account, fate: Fate, now: DateTime): seq<Invoice> {
    var turns := match fate case LeftOut => 0 case RolledBack(n) => n case WholePass => MAX_CATCHUP_PERIODS;
    BilledUpToExtends(t, a, now, turns);
    BilledUpTo(t, a, now, turns).rows[|a.rows|..]
  }

  /** A subscription as the batch finds it. */
  datatype Candidate = Candidate(terms: Terms, account: Account, fate: Fate)

  function ReportedAll(cs: seq<Candidate>, now: DateTime): seq<Invoice> {
    if cs == [] then []
    else ReportedAll(cs[..|cs| - 1], now) + Reported(cs[|cs| - 1].terms, cs[|cs| - 1].account, cs[|cs| - 1].fate, now)
  }

  function CandidateOf(sub: Subscription, locked: set<Subscription>, failsAfter: Option<nat>, now: DateTime): Candidate
    reads sub
  {
    Candidate(sub.terms, sub.View(), FateOf(sub.Eligible(now) && sub !in locked, failsAfter))
  }

  function Candidates(subs: seq<Subscription>, locked: set<Subscription>, fails: seq<Option<nat>>, now: DateTime): seq<Candidate>
    requires |fails| == |subs|
    reads subs
  {
    seq(|subs|, i requires 0 <= i < |subs| reads subs => CandidateOf(subs[i], locked, fails[i], now))
  }

  /** One subscription's transaction, on the row lock if it is free. */
  method ServeOne(sub: Subscription, locked: set<Subscription>, failsAfter: Option<nat>, now: DateTime)
      returns (created: seq<Invoice>)
    modifies sub
    ensures var c := old(CandidateOf(sub, locked, failsAfter, now));
            sub.View() == Served(c.terms, c.account, c.fate, now) && created == Reported(c.terms, c.account, c.fate, now)
  {
    if !sub.Eligible(now) || sub in locked {
      return [];
    }
    var next, rows := sub.nextInvoiceAt, sub.invoices;
    match failsAfter {
      case Some(n) =>
        created := sub.CatchUpPeriods(now, if n < MAX_CATCHUP_PERIODS then n else MAX_CATCHUP_PERIODS);
        sub.nextInvoiceAt, sub.invoices := next, rows;
      case None =>
        created := sub.CatchUpPeriods(now, MAX_CATCHUP_PERIODS);
    }
  }

  /** Current, active or past due, with an approved deal and a due date, not locked by anybody, and no failure to come. */
  predicate Billable(sub: Subscription, locked: set<Subscription>, failsAfter: Option<nat>, now: DateTime)
    reads sub
  {
    && sub !in locked && failsAfter.None?
    && sub.isCurrent && sub.status in {Active, PastDue} && sub.approval in {ApprovalActive, Approved}
    && sub.nextInvoiceAt.Some? && (sub.nextInvoiceAt.value == now || Before(sub.nextInvoiceAt.value, now))
  }

  /** Where a batch leaves each subscription: its first 24 due dates billed, or as it was. */
  function Goals(subs: seq<Subscription>, locked: set<Subscription>, fails: seq<Option<nat>>, now: DateTime): (goals: seq<Account>)
    requires |fails| == |subs|
    reads subs
    ensures |goals| == |subs|
  {
    seq(|subs|, i requires 0 <= i < |subs| reads subs =>
      if Billable(subs[i], locked, fails[i], now) then BilledUpTo(subs[i].terms, subs[i].View(), now, 24) else subs[i].View())
  }

  lemma BillableIsServed(sub: Subscription, locked: set<Subscription>, failsAfter: Option<nat>, now: DateTime)
    ensures CandidateOf(sub, locked, failsAfter, now).fate.WholePass? <==> Billable(sub, locked, failsAfter, now)
    ensures CandidateOf(sub, locked, failsAfter, now).fate.LeftOut? <==> !Billable(sub, locked, None, now)
    ensures CandidateOf(sub, locked, failsAfter, now).fate.RolledBack? ==>
              failsAfter.Some? && CandidateOf(sub, locked, failsAfter, now).fate.turns == Min(failsAfter.value, 24)
  {
    if sub.nextInvoiceAt.Some? {
      BeforeIsTotal(sub.nextInvoiceAt.value, now);
    }
  }

  lemma ServedIsGoal(subs: seq<Subscription>, locked: set<Subscription>, fails: seq<Option<nat>>, now: DateTime)
    requires |fails| == |subs|
    ensures var cs, goals := Candidates(subs, locked, fails, now), Goals(subs, locked, fails, now);
            forall i :: 0 <= i < |subs| ==> Served(cs[i].terms, cs[i].account, cs[i].fate, now) == goals[i]
  {
    forall i | 0 <= i < |subs|
      ensures var c := Candidates(subs, locked, fails, now)[i];
              Served(c.terms, c.account, c.fate, now) == Goals(subs, locked, fails, now)[i]
    {
      BillableIsServed(subs[i], locked, fails[i], now);
    }
  }

  lemma AppendedRest(a: seq<Invoice>, b: seq<Invoice>)
    requires a <= b
    ensures a + b[|a|..] == b
  {
  }

  /** What the batch reports of a subscription it serves is what it appended; of a failed one, what it had appended before. */
  lemma ReportedIsAppended(t: Terms, a: Account, fate: Fate, now: DateTime)
    ensures fate.LeftOut? ==> Reported(t, a, fate, now) == []
    ensures fate.WholePass? ==> Served(t, a, fate, now).rows == a.rows + Reported(t, a, fate, now)
    ensures fate.RolledBack? ==> a.rows + Reported(t, a, fate, now) == BilledUpTo(t, a, now, fate.turns).rows
  {
    var turns := match fate case LeftOut => 0 case RolledBack(n) => n case WholePass => MAX_CATCHUP_PERIODS;
    var rows := BilledUpTo(t, a, now, turns).rows;
    BilledUpToExtends(t, a, now, turns);
    AppendedRest(a.rows, rows);
    if fate.LeftOut? {
      BilledUpToNothing(t, a, now, 0);
    }
  }

  lemma ReportedOneMore(cs: seq<Candidate>, now: DateTime, n: nat)
    requires n < |cs|
    ensures ReportedAll(cs[..n + 1], now) == ReportedAll(cs[..n], now) + Reported(cs[n].terms, cs[n].account, cs[n].fate, now)
  {
    assert cs[..n + 1][..n] == cs[..n];
  }

  /**
   * The batch: each eligible subscription whose row lock is free gets one pass, and no other row
   * is touched. Rows locked by another replica are skipped, and a transaction that fails, as one does
   * that meets the unique constraint, leaves its subscription as it was.
   */
  method GenerateDueInvoices(subs: seq<Subscription>, locked: set<Subscription>, fails: seq<Option<nat>>, now: DateTime)
      returns (created: seq<Invoice>)
    requires Distinct(subs) && |fails| == |subs|
    modifies subs
    ensures var goals := old(Goals(subs, locked, fails, now)); forall i :: 0 <= i < |subs| ==> subs[i].View() == goals[i]
    ensures created == ReportedAll(old(Candidates(subs, locked, fails, now)), now)
  {
    ghost var cs := Candidates(subs, locked, fails, now);
    ghost var goals := Goals(subs, locked, fails, now);
    ServedIsGoal(subs, locked, fails, now);
    created := [];
    for n := 0 to |subs|
      invariant forall i :: 0 <= i < n ==> subs[i].View() == goals[i]
      invariant forall i :: n <= i < |subs| ==> unchanged(subs[i])
      invariant created == ReportedAll(cs[..n], now)
    {
      OthersApart(subs, n);
      ReportedOneMore(cs, now, n);
      var more := ServeOne(subs[n], locked, fails[n], now);
      created := created + more;
    }
    assert cs[..|subs|] == cs;
  }
}
