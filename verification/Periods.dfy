/**
 * Billing periods of one subscription: the dates it is billed on, the chain of those that are due,
 * and the windows and keys of the invoices.
 */
module Periods {
  import opened Calendar
  import opened InvoiceTable
  import opened Numbers
  import opened Text

  datatype Cycle = Monthly | Termly | Yearly

  function CycleMonths(c: Cycle): (n: nat)
    ensures 1 <= n <= 12
  {
    match c
    case Monthly => 1
    case Termly => 3
    case Yearly => 12
  }

  /** What decides the billing dates: a cycle, or an explicit list of dates that overrides it. */
  datatype Terms = Terms(cycle: Cycle, schedule: Option<seq<DateTime>>)

  /** The first listed date later than `after`, in list order. */
  function NextScheduled(dates: seq<DateTime>, after: DateTime): (r: Option<DateTime>)
    ensures r.Some? ==> Before(after, r.value) && r.value in dates
  {
    if dates == [] then None
    else if Before(after, dates[0]) then Some(dates[0])
    else NextScheduled(dates[1..], after)
  }

  function ScheduledDates(t: Terms): seq<DateTime> {
    if t.schedule.Some? then t.schedule.value else []
  }

  /** The billing date that follows one just billed; a schedule that is exhausted has none. */
  function Step(t: Terms, from: DateTime): (r: Option<DateTime>)
    ensures r.Some? ==> Before(from, r.value)
  {
    if t.schedule.Some? then NextScheduled(t.schedule.value, from) else
      AddMonthsIsLater(from, CycleMonths(t.cycle), from.day);
      Some(AddMonths(from, CycleMonths(t.cycle), from.day))
  }

  /** The instant at which the window that opens at `start` is over. */
  function WindowBoundary(t: Terms, start: DateTime): DateTime {
    var next := NextScheduled(ScheduledDates(t), start);
    if next.Some? then next.value else AddMonths(start, CycleMonths(t.cycle))
  }

  /** The last second of the window; the calendar ends below at its own first second. */
  function WindowEnd(t: Terms, start: DateTime): DateTime {
    var boundary := WindowBoundary(t, start);
    if HasSecondBefore(boundary) then SecondBefore(boundary) else boundary
  }

  function PeriodKey(t: Terms, start: DateTime): string {
    if t.schedule.Some? then Padded(start.year, 4) + "-" + Padded(start.month, 2) + "-" + Padded(start.day, 2)
    else if t.cycle.Yearly? then Padded(start.year, 4)
    else Padded(start.year, 4) + "-" + Padded(start.month, 2)
  }

  function InvoiceNumber(tenantId: nat, key: string, subscriptionId: nat): string {
    "SAAS-" + (Decimal(tenantId) + "-" + key + "-" + Decimal(subscriptionId))
  }

  // ---------------------------------------------------------------- keys and numbers tell periods apart

  /** The calendar unit a key names: the day, the year, or the month. */
  predicate SameUnit(t: Terms, a: DateTime, b: DateTime) {
    && a.year == b.year
    && (t.schedule.Some? || t.cycle.Yearly? || a.month == b.month)
    && (t.schedule.Some? ==> a.month == b.month && a.day == b.day)
  }

  lemma PaddedInjective(a: nat, b: nat, width: nat)
    requires Padded(a, width) == Padded(b, width)
    ensures a == b
  {
    PaddedRoundTrip(a, width);
    PaddedRoundTrip(b, width);
  }

  lemma TwoPartsInjective(y: nat, m: nat, y': nat, m': nat)
    requires Padded(y, 4) + "-" + Padded(m, 2) == Padded(y', 4) + "-" + Padded(m', 2)
    ensures y == y' && m == m'
  {
    LastSeparator(Padded(y, 4), Padded(m, 2), Padded(y', 4), Padded(m', 2), '-');
    PaddedInjective(y, y', 4);
    PaddedInjective(m, m', 2);
  }

  /** Two starts of one subscription share a key exactly when they fall in the same unit. */
  lemma PeriodKeyIdentifiesUnit(t: Terms, a: DateTime, b: DateTime)
    ensures PeriodKey(t, a) == PeriodKey(t, b) <==> SameUnit(t, a, b)
  {
    if PeriodKey(t, a) == PeriodKey(t, b) {
      if t.schedule.Some? {
        var x, y := Padded(a.year, 4) + "-" + Padded(a.month, 2), Padded(b.year, 4) + "-" + Padded(b.month, 2);
        LastSeparator(x, Padded(a.day, 2), y, Padded(b.day, 2), '-');
        PaddedInjective(a.day, b.day, 2);
        TwoPartsInjective(a.year, a.month, b.year, b.month);
      } else if t.cycle.Yearly? {
        PaddedInjective(a.year, b.year, 4);
      } else {
        TwoPartsInjective(a.year, a.month, b.year, b.month);
      }
    }
  }

  /** Invoice numbers never collide, whatever dashes the period keys contain. */
  lemma InvoiceNumberInjective(t: nat, k: string, s: nat, t': nat, k': string, s': nat)
    requires InvoiceNumber(t, k, s) == InvoiceNumber(t', k', s')
    ensures t == t' && k == k' && s == s'
  {
    var n, n' := InvoiceNumber(t, k, s), InvoiceNumber(t', k', s');
    assert n[5..] == Decimal(t) + "-" + k + "-" + Decimal(s);
    assert n'[5..] == Decimal(t') + "-" + k' + "-" + Decimal(s');
    LastSeparator(Decimal(t) + "-" + k, Decimal(s), Decimal(t') + "-" + k', Decimal(s'), '-');
    FirstSeparator(Decimal(t), k, Decimal(t'), k', '-');
    DecimalInjective(t, t');
    DecimalInjective(s, s');
  }

  lemma TwoPartsAt(y: string, m: string)
    requires |y| == 4 && |m| == 2
    ensures var key := y + "-" + m; |key| == 7 && key[..4] == y && key[4] == '-' && key[5..7] == m
  {
  }

  lemma ThreePartsAt(y: string, m: string, d: string)
    requires |y| == 4 && |m| == 2 && |d| == 2
    ensures var key := y + "-" + m + "-" + d;
            |key| == 10 && key[..4] == y && key[4] == '-' && key[5..7] == m && key[7] == '-' && key[8..10] == d
  {
    TwoPartsAt(y, m);
    var key := y + "-" + m + "-" + d;
    assert key[..7] == y + "-" + m;
    assert key[..4] == key[..7][..4] && key[4] == key[..7][4] && key[5..7] == key[..7][5..7];
  }

  predicate Reads(text: string, n: nat) {
    AllDigits(text) && Value(text) == n
  }

  lemma PaddedReads(n: nat, width: nat, bound: nat)
    requires width >= 1 && bound == Power10(width) && n < bound
    ensures |Padded(n, width)| == width && Reads(Padded(n, width), n)
  {
    PaddedWidth(n, width);
    PaddedRoundTrip(n, width);
  }

  lemma DatePartsRead(d: DateTime)
    requires d.year <= 9999
    ensures |Padded(d.year, 4)| == 4 && Reads(Padded(d.year, 4), d.year)
    ensures |Padded(d.month, 2)| == 2 && Reads(Padded(d.month, 2), d.month)
    ensures |Padded(d.day, 2)| == 2 && Reads(Padded(d.day, 2), d.day)
  {
    assert Power10(2) == 100;
    assert Power10(4) == 10000;
    PaddedReads(d.year, 4, 10000);
    PaddedReads(d.month, 2, 100);
    PaddedReads(d.day, 2, 100);
  }

  /** The numerals of a key are its year, month and day, each in its place. */
  lemma PeriodKeyReads(t: Terms, d: DateTime)
    requires d.year <= 9999
    ensures var key := PeriodKey(t, d);
            && |key| == (if t.schedule.Some? then 10 else if t.cycle == Yearly then 4 else 7)
            && Reads(key[..4], d.year)
            && (|key| > 4 ==> key[4] == '-' && Reads(key[5..7], d.month))
            && (|key| > 7 ==> key[7] == '-' && Reads(key[8..10], d.day))
  {
    DatePartsRead(d);
    TwoPartsAt(Padded(d.year, 4), Padded(d.month, 2));
    ThreePartsAt(Padded(d.year, 4), Padded(d.month, 2), Padded(d.day, 2));
    if t.schedule.None? && t.cycle == Yearly {
      assert Padded(d.year, 4)[..4] == Padded(d.year, 4);
    }
  }

  lemma FrontAndBack(prefix: string, a: string, key: string, b: string)
    ensures prefix + (a + "-" + key + "-" + b) == prefix + a + "-" + (key + "-" + b)
  {
  }

  /** An invoice number begins with the tenant and ends with the subscription, the key between them. */
  lemma InvoiceNumberReads(tenantId: nat, key: string, subscriptionId: nat)
    ensures InvoiceNumber(tenantId, key, subscriptionId)
            == "SAAS-" + Decimal(tenantId) + "-" + (key + "-" + Decimal(subscriptionId))
  {
    FrontAndBack("SAAS-", Decimal(tenantId), key, Decimal(subscriptionId));
  }

  // ---------------------------------------------------------------- the chain of due dates

  /** How far `now` is past the next billing date; it falls with every step, so catching up ends. */
  function Lateness(next: Option<DateTime>, now: DateTime): int {
    if next.Some? then Max(0, Stamp(now) - Stamp(next.value) + 1) else 0
  }

  lemma LatenessFalls(t: Terms, d: DateTime, now: DateTime)
    requires !Before(now, d)
    ensures 0 <= Lateness(Step(t, d), now) < Lateness(Some(d), now)
  {
    StampOrder(now, d);
    if Step(t, d).Some? {
      StampOrder(d, Step(t, d).value);
    }
  }

  /** Every billing date from `next` on that is not after `now`. There is no cap here. */
  function DueChain(t: Terms, next: Option<DateTime>, now: DateTime): (ds: seq<DateTime>)
    decreases Lateness(next, now)
  {
    if next.None? || Before(now, next.value) then [] else
      LatenessFalls(t, next.value, now);
      [next.value] + DueChain(t, Step(t, next.value), now)
  }

  lemma {:induction false} DueChainLinks(t: Terms, next: Option<DateTime>, now: DateTime, i: nat)
    requires i + 1 < |DueChain(t, next, now)|
    ensures Step(t, DueChain(t, next, now)[i]) == Some(DueChain(t, next, now)[i + 1])
    decreases i
  {
    var rest := DueChain(t, Step(t, next.value), now);
    assert DueChain(t, next, now) == [next.value] + rest;
    if i > 0 {
      DueChainLinks(t, Step(t, next.value), now, i - 1);
    }
  }

  /** Nothing in the chain is after `now`, and what follows its last date is. */
  lemma {:induction false} DueChainIsExactlyWhatIsDue(t: Terms, next: Option<DateTime>, now: DateTime, i: nat)
    requires i < |DueChain(t, next, now)|
    ensures !Before(now, DueChain(t, next, now)[i])
    ensures i + 1 == |DueChain(t, next, now)| ==>
              Step(t, DueChain(t, next, now)[i]).None? || Before(now, Step(t, DueChain(t, next, now)[i]).value)
    decreases i
  {
    if i > 0 {
      DueChainIsExactlyWhatIsDue(t, Step(t, next.value), now, i - 1);
    }
  }

  /** Where the anchor stands once the first `k` due dates have been billed. */
  function AnchorAfter(t: Terms, next: Option<DateTime>, now: DateTime, k: nat): Option<DateTime>
    decreases k
  {
    if k == 0 || next.None? || Before(now, next.value) then next
    else AnchorAfter(t, Step(t, next.value), now, k - 1)
  }

  /** What stays due after billing `k` dates is the chain without its first `k` elements. */
  lemma {:induction false} AnchorAfterDropsDates(t: Terms, next: Option<DateTime>, now: DateTime, k: nat)
    ensures var ds := DueChain(t, next, now);
            DueChain(t, AnchorAfter(t, next, now, k), now) == if k <= |ds| then ds[k..] else []
    decreases k
  {
    if k > 0 && next.Some? && !Before(now, next.value) {
      AnchorAfterDropsDates(t, Step(t, next.value), now, k - 1);
    }
  }

  /** The first `k` due dates, or all of them when there are fewer. */
  function FirstDue(t: Terms, next: Option<DateTime>, now: DateTime, k: nat): seq<DateTime> {
    var ds := DueChain(t, next, now);
    ds[..Min(k, |ds|)]
  }

  lemma FirstDueOneMore(t: Terms, d: DateTime, now: DateTime, k: nat)
    requires k > 0 && !Before(now, d)
    ensures FirstDue(t, Some(d), now, k) == [d] + FirstDue(t, Step(t, d), now, k - 1)
  {
    var rest := DueChain(t, Step(t, d), now);
    assert DueChain(t, Some(d), now) == [d] + rest;
    assert Min(k, |rest| + 1) == 1 + Min(k - 1, |rest|);
  }

  lemma DueIsChained(t: Terms, next: Option<DateTime>, now: DateTime)
    ensures DueChain(t, next, now) == [] <==> next.None? || Before(now, next.value)
  {
  }

  lemma DueChainFirst(t: Terms, d: DateTime, now: DateTime)
    requires !Before(now, d)
    ensures DueChain(t, Some(d), now) == [d] + DueChain(t, Step(t, d), now)
  {
  }

  lemma AnchorAfterFirst(t: Terms, d: DateTime, now: DateTime, k: nat)
    requires !Before(now, d)
    ensures AnchorAfter(t, Some(d), now, k + 1) == AnchorAfter(t, Step(t, d), now, k)
  {
  }

  lemma AnchorAfterNothing(t: Terms, next: Option<DateTime>, now: DateTime, k: nat)
    requires k == 0 || DueChain(t, next, now) == []
    ensures AnchorAfter(t, next, now, k) == next && FirstDue(t, next, now, k) == []
  {
    DueIsChained(t, next, now);
  }

  lemma Regroup(d: DateTime, a: seq<DateTime>, b: seq<DateTime>)
    ensures [d] + (a + b) == ([d] + a) + b
  {
  }

  /**
   * A later clock continues where `k` turns at an earlier one stopped: what they billed comes first, then
   * what is due from the anchor on.
   */
  lemma {:induction false} DueChainContinues(t: Terms, next: Option<DateTime>, now: DateTime, later: DateTime, k: nat)
    requires !Before(later, now)
    ensures DueChain(t, next, later) == FirstDue(t, next, now, k) + DueChain(t, AnchorAfter(t, next, now, k), later)
    decreases k
  {
    DueIsChained(t, next, now);
    if k == 0 || DueChain(t, next, now) == [] {
      AnchorAfterNothing(t, next, now, k);
    } else {
      var d := next.value;
      NotBeforeTransitive(d, now, later);
      DueChainContinues(t, Step(t, d), now, later, k - 1);
      DueChainFirst(t, d, later);
      FirstDueOneMore(t, d, now, k);
      AnchorAfterFirst(t, d, now, k - 1);
      Regroup(d, FirstDue(t, Step(t, d), now, k - 1), DueChain(t, AnchorAfter(t, Step(t, d), now, k - 1), later));
    }
  }

  // ---------------------------------------------------------------- invoices

  function InvoiceFor(t: Terms, start: DateTime): Invoice {
    Invoice(PeriodKey(t, start), start, WindowEnd(t, start))
  }

  function InvoicesFor(t: Terms, starts: seq<DateTime>): (rows: seq<Invoice>)
    ensures |rows| == |starts|
  {
    if starts == [] then [] else [InvoiceFor(t, starts[0])] + InvoicesFor(t, starts[1..])
  }

  lemma {:induction false} InvoicesForAt(t: Terms, starts: seq<DateTime>, i: nat)
    requires i < |starts|
    ensures InvoicesFor(t, starts)[i] == InvoiceFor(t, starts[i])
  {
    if i > 0 {
      InvoicesForAt(t, starts[1..], i - 1);
    }
  }

  lemma {:induction false} InvoicesForConcat(t: Terms, a: seq<DateTime>, b: seq<DateTime>)
    ensures InvoicesFor(t, a + b) == InvoicesFor(t, a) + InvoicesFor(t, b)
    decreases |a|
  {
    if a == [] {
      assert a + b == b;
    } else {
      assert (a + b)[1..] == a[1..] + b;
      InvoicesForConcat(t, a[1..], b);
    }
  }

  // ---------------------------------------------------------------- keys along the chain

  /** On a fixed cycle every due date is a whole number of cycles after the first. */
  lemma {:induction false} CycleChainIsChainedAdvance(t: Terms, next: Option<DateTime>, now: DateTime, i: nat)
    requires t.schedule.None? && i < |DueChain(t, next, now)|
    ensures DueChain(t, next, now)[i] == Advanced(DueChain(t, next, now)[0], CycleMonths(t.cycle), i)
    decreases i
  {
    var ds := DueChain(t, next, now);
    if i > 0 {
      CycleChainIsChainedAdvance(t, next, now, i - 1);
      DueChainLinks(t, next, now, i - 1);
    }
  }

  /** The months from one billing date to the next, cycle by cycle, and the day kept or cut to the month's length. */
  lemma CycleSteps(t: Terms, d: DateTime)
    requires t.schedule.None?
    ensures Step(t, d).Some?
    ensures var r := Step(t, d).value;
            && (t.cycle == Monthly ==> r.MonthIndex() == d.MonthIndex() + 1)
            && (t.cycle == Termly ==> r.MonthIndex() == d.MonthIndex() + 3)
            && (t.cycle == Yearly ==> r.MonthIndex() == d.MonthIndex() + 12)
            && r.day == Min(d.day, LengthOfMonth(r.MonthIndex()))
  {
    AddMonthsFields(d, CycleMonths(t.cycle), d.day);
  }

  /** The month of the i-th due date on a fixed cycle. */
  lemma {:induction false} CycleDueMonths(t: Terms, next: Option<DateTime>, now: DateTime, i: nat)
    requires t.schedule.None? && i < |DueChain(t, next, now)|
    ensures var ds := DueChain(t, next, now);
            && next == Some(ds[0])
            && (t.cycle == Monthly ==> ds[i].MonthIndex() == ds[0].MonthIndex() + i)
            && (t.cycle == Termly ==> ds[i].MonthIndex() == ds[0].MonthIndex() + 3 * i)
            && (t.cycle == Yearly ==> ds[i].MonthIndex() == ds[0].MonthIndex() + 12 * i)
  {
    if i > 0 {
      CycleDueMonths(t, next, now, i - 1);
      DueChainLinks(t, next, now, i - 1);
      CycleSteps(t, DueChain(t, next, now)[i - 1]);
    }
  }

  /** On a monthly cycle every calendar month from the anchor to the last due date has exactly one due date. */
  lemma EveryMonthIsDueOnce(t: Terms, next: Option<DateTime>, now: DateTime, month: int)
    requires t.schedule.None? && t.cycle == Monthly && DueChain(t, next, now) != []
    requires var ds := DueChain(t, next, now); next.value.MonthIndex() <= month <= ds[|ds| - 1].MonthIndex()
    ensures var ds := DueChain(t, next, now); var i := month - next.value.MonthIndex();
            && 0 <= i < |ds| && ds[i].MonthIndex() == month
            && forall j :: 0 <= j < |ds| && ds[j].MonthIndex() == month ==> j == i
  {
    var ds := DueChain(t, next, now);
    forall j | 0 <= j < |ds|
      ensures ds[j].MonthIndex() == next.value.MonthIndex() + j
    {
      CycleDueMonths(t, next, now, j);
    }
  }

  lemma {:induction false} VisitedIncreases(d: DateTime, c: nat, i: nat, j: nat)
    requires i < j
    ensures Visited(d, c, i) + c <= Visited(d, c, j)
    decreases j
  {
    if i + 1 < j {
      VisitedIncreases(d, c, i, j - 1);
    }
  }

  lemma CycleChainKeysDiffer(t: Terms, next: Option<DateTime>, now: DateTime, i: nat, j: nat)
    requires t.schedule.None?
    requires i < j < |DueChain(t, next, now)|
    ensures PeriodKey(t, DueChain(t, next, now)[i]) != PeriodKey(t, DueChain(t, next, now)[j])
  {
    var ds := DueChain(t, next, now);
    CycleChainIsChainedAdvance(t, next, now, i);
    CycleChainIsChainedAdvance(t, next, now, j);
    ChainedMonth(ds[0], CycleMonths(t.cycle), i);
    ChainedMonth(ds[0], CycleMonths(t.cycle), j);
    VisitedIncreases(ds[0], CycleMonths(t.cycle), i, j);
    assert t.cycle.Yearly? ==> ds[j].MonthIndex() >= ds[i].MonthIndex() + 12;
    PeriodKeyIdentifiesUnit(t, ds[i], ds[j]);
  }

  /** On a fixed cycle no two due dates share a period key. */
  lemma CycleChainKeysDistinct(t: Terms, next: Option<DateTime>, now: DateTime)
    requires t.schedule.None?
    ensures UniqueKeys(InvoicesFor(t, DueChain(t, next, now)))
  {
    var ds := DueChain(t, next, now);
    forall i, j | 0 <= i < j < |ds|
      ensures InvoicesFor(t, ds)[i].key != InvoicesFor(t, ds)[j].key
    {
      CycleChainKeysDiffer(t, next, now, i, j);
      InvoicesForAt(t, ds, i);
      InvoicesForAt(t, ds, j);
    }
  }

  predicate SameDay(a: DateTime, b: DateTime) {
    a.year == b.year && a.month == b.month && a.day == b.day
  }

  predicate Increasing(ds: seq<DateTime>) {
    forall i, j :: 0 <= i < j < |ds| ==> Before(ds[i], ds[j])
  }

  predicate DistinctDays(ds: seq<DateTime>) {
    forall i, j :: 0 <= i < j < |ds| ==> !SameDay(ds[i], ds[j])
  }

  lemma ScheduleKeysAgree(t: Terms, ds: seq<DateTime>, i: nat, j: nat)
    requires t.schedule.Some? && i < |ds| && j < |ds|
    ensures InvoicesFor(t, ds)[i].key == InvoicesFor(t, ds)[j].key <==> SameDay(ds[i], ds[j])
  {
    PeriodKeyIdentifiesUnit(t, ds[i], ds[j]);
    InvoicesForAt(t, ds, i);
    InvoicesForAt(t, ds, j);
  }

  /** A schedule's keys are distinct exactly when its dates fall on distinct days. */
  lemma ScheduleKeysDistinct(t: Terms, ds: seq<DateTime>)
    requires t.schedule.Some?
    ensures UniqueKeys(InvoicesFor(t, ds)) <==> DistinctDays(ds)
  {
    var rows := InvoicesFor(t, ds);
    if UniqueKeys(rows) {
      forall i, j | 0 <= i < j < |ds|
        ensures !SameDay(ds[i], ds[j])
      {
        ScheduleKeysAgree(t, ds, i, j);
        assert rows[i].key != rows[j].key;
      }
    }
    if DistinctDays(ds) {
      forall i, j | 0 <= i < j < |rows|
        ensures rows[i].key != rows[j].key
      {
        ScheduleKeysAgree(t, ds, i, j);
      }
    }
  }

  // ---------------------------------------------------------------- windows tile time

  lemma WindowAbutsStep(t: Terms, start: DateTime)
    ensures Step(t, start).Some? ==> WindowBoundary(t, start) == Step(t, start).value
  {
  }

  /** The window of each due date ends one second before the next due date begins. */
  lemma WindowsTile(t: Terms, next: Option<DateTime>, now: DateTime, i: nat)
    requires i + 1 < |DueChain(t, next, now)| && HasSecondBefore(DueChain(t, next, now)[i + 1])
    ensures var ds := DueChain(t, next, now);
            Stamp(InvoiceFor(t, ds[i]).end) + 1_000_000 == Stamp(InvoiceFor(t, ds[i + 1]).start)
  {
    DueChainLinks(t, next, now, i);
    WindowAbutsStep(t, DueChain(t, next, now)[i]);
    SecondBeforeIsOneSecond(DueChain(t, next, now)[i + 1]);
  }

  /** A window that no later scheduled date ends lasts one cycle: one month, three, or twelve. */
  lemma OpenWindowsLastACycle(t: Terms, start: DateTime)
    requires t.schedule.Some? ==> NextScheduled(t.schedule.value, start).None?
    ensures var end := WindowBoundary(t, start);
            && (t.cycle == Monthly ==> end.MonthIndex() == start.MonthIndex() + 1)
            && (t.cycle == Termly ==> end.MonthIndex() == start.MonthIndex() + 3)
            && (t.cycle == Yearly ==> end.MonthIndex() == start.MonthIndex() + 12)
            && end.day == Min(start.day, LengthOfMonth(end.MonthIndex()))
            && (HasSecondBefore(end) ==> Stamp(InvoiceFor(t, start).end) + 1_000_000 == Stamp(end))
            && InvoiceFor(t, start).start == start
  {
    AddMonthsFields(start, CycleMonths(t.cycle), 0);
    if HasSecondBefore(WindowBoundary(t, start)) {
      SecondBeforeIsOneSecond(WindowBoundary(t, start));
    }
  }

  /** What `k` turns at one time and a pass at a later time bill between them. */
  function Successive(t: Terms, next: Option<DateTime>, now: DateTime, later: DateTime, k: nat): seq<DateTime> {
    FirstDue(t, next, now, k) + DueChain(t, AnchorAfter(t, next, now, k), later)
  }

  /** The windows tile across passes too, and on a fixed cycle no key comes twice. */
  lemma SuccessivePassesTile(t: Terms, next: Option<DateTime>, now: DateTime, later: DateTime, k: nat)
    requires !Before(later, now)
    ensures var ds := Successive(t, next, now, later, k);
            forall i :: 0 <= i && i + 1 < |ds| && HasSecondBefore(ds[i + 1]) ==>
              Stamp(InvoiceFor(t, ds[i]).end) + 1_000_000 == Stamp(InvoiceFor(t, ds[i + 1]).start)
    ensures t.schedule.None? ==> UniqueKeys(InvoicesFor(t, Successive(t, next, now, later, k)))
  {
    var ds := Successive(t, next, now, later, k);
    DueChainContinues(t, next, now, later, k);
    forall i | 0 <= i && i + 1 < |ds| && HasSecondBefore(ds[i + 1])
      ensures Stamp(InvoiceFor(t, ds[i]).end) + 1_000_000 == Stamp(InvoiceFor(t, ds[i + 1]).start)
    {
      WindowsTile(t, next, later, i);
    }
    if t.schedule.None? {
      CycleChainKeysDistinct(t, next, later);
    }
  }

  // ---------------------------------------------------------------- schedules

  lemma {:induction false} NextScheduledInOrder(ds: seq<DateTime>, i: nat)
    requires Increasing(ds) && i < |ds|
    ensures NextScheduled(ds, ds[i]) == if i + 1 < |ds| then Some(ds[i + 1]) else None
    decreases |ds|
  {
    var rest := ds[1..];
    assert forall a, b :: 0 <= a < b < |rest| ==> rest[a] == ds[a + 1] && rest[b] == ds[b + 1];
    if i > 0 {
      assert rest[i - 1] == ds[i];
      assert Before(ds[0], ds[i]);
      NextScheduledInOrder(rest, i - 1);
    } else if |ds| > 1 {
      assert Before(ds[0], rest[0]);
    }
  }

  /** How many leading dates of an increasing schedule are due. */
  function DueCount(ds: seq<DateTime>, now: DateTime): (n: nat)
    ensures n <= |ds|
    ensures forall i :: 0 <= i < n ==> !Before(now, ds[i])
    ensures n < |ds| ==> Before(now, ds[n])
  {
    if ds == [] || Before(now, ds[0]) then 0 else 1 + DueCount(ds[1..], now)
  }

  /** From its `i`-th date on, a schedule is visited once per date, in order, up to `now`. */
  lemma {:induction false} ScheduleVisitedFrom(t: Terms, ds: seq<DateTime>, now: DateTime, i: nat)
    requires t.schedule == Some(ds) && Increasing(ds) && i <= |ds|
    requires i <= DueCount(ds, now)
    ensures DueChain(t, if i < |ds| then Some(ds[i]) else None, now) == ds[i..DueCount(ds, now)]
    decreases |ds| - i
  {
    var n := DueCount(ds, now);
    if i < n {
      NextScheduledInOrder(ds, i);
      ScheduleVisitedFrom(t, ds, now, i + 1);
      assert ds[i..n] == [ds[i]] + ds[i + 1..n];
    } else if i < |ds| {
      assert Before(now, ds[i]);
    }
  }

  /** A whole schedule, once every date is due: each date once, in order, and then no next date. */
  lemma ScheduleVisitedOnce(t: Terms, ds: seq<DateTime>, now: DateTime)
    requires t.schedule == Some(ds) && Increasing(ds) && ds != []
    requires !Before(now, ds[|ds| - 1])
    ensures DueChain(t, Some(ds[0]), now) == ds
    ensures Step(t, ds[|ds| - 1]) == None
  {
    var n := DueCount(ds, now);
    assert n < |ds| - 1 ==> Before(ds[n], ds[|ds| - 1]);
    assert n == |ds|;
    ScheduleVisitedFrom(t, ds, now, 0);
    NextScheduledInOrder(ds, |ds| - 1);
    assert ds[0..|ds|] == ds;
  }

  /** Two dates on one day: the second period of such a schedule never gets an invoice. */
  lemma SameDayDatesShareAnInvoice(t: Terms, morning: DateTime, evening: DateTime)
    requires t.schedule.Some? && SameDay(morning, evening)
    ensures AddAll([], InvoicesFor(t, [morning, evening])) == [InvoiceFor(t, morning)]
  {
    PeriodKeyIdentifiesUnit(t, morning, evening);
    SharedKeyKeepsFirst(InvoiceFor(t, morning), InvoiceFor(t, evening));
    assert InvoicesFor(t, [morning, evening]) == [InvoiceFor(t, morning), InvoiceFor(t, evening)];
  }

  /** Every date of a schedule gets its own invoice exactly when no two fall on one day. */
  lemma EveryDateIsInvoiced(t: Terms, ds: seq<DateTime>)
    requires t.schedule.Some?
    ensures |AddAll([], InvoicesFor(t, ds))| == |ds| <==> DistinctDays(ds)
  {
    ScheduleKeysDistinct(t, ds);
    NoneIsShared(InvoicesFor(t, ds));
  }
}
