/** Building the explicit billing dates of a termly deal, and what those dates make the billing run do. */
module TermSchedule {
  import opened Calendar
  import opened Numbers
  import opened Text
  import opened Periods

  const MAX_TERMS := 24

  datatype Request = Request(
    termStartDates: Option<seq<DateTime>>,
    termIntervalMonths: Option<nat>,
    termCount: nat,
    contractStart: Option<DateTime>)

  datatype Refusal = NotTermly | DatesAndInterval | WrongNumberOfDates | NotIncreasing | NoFirstTerm

  datatype Outcome =
    | NoSchedule
    | Schedule(dates: seq<DateTime>)
    | Refused(why: Refusal)

  function Explicit(r: Request): seq<DateTime> {
    if r.termStartDates.Some? then r.termStartDates.value else []
  }

  predicate AdjacentIncrease(ds: seq<DateTime>) {
    forall i :: 0 <= i < |ds| - 1 ==> Before(ds[i], ds[i + 1])
  }

  function IntervalDates(start: DateTime, months: nat, count: nat): seq<DateTime> {
    seq(count, i requires 0 <= i < count => AddMonths(start, months * i))
  }

  function BuildTermSchedule(r: Request, cycle: Cycle): Outcome {
    var explicit := Explicit(r);
    if explicit == [] && r.termIntervalMonths.None? && r.termCount == 3 then NoSchedule
    else if !cycle.Termly? then Refused(NotTermly)
    else if explicit != [] && r.termIntervalMonths.Some? then Refused(DatesAndInterval)
    else if explicit != [] then
      if |explicit| != r.termCount then Refused(WrongNumberOfDates)
      else if |explicit| > MAX_TERMS || !AdjacentIncrease(explicit) then Refused(NotIncreasing)
      else Schedule(explicit)
    else if r.contractStart.None? then Refused(NoFirstTerm)
    else
      var months := if r.termIntervalMonths.Some? && r.termIntervalMonths.value != 0 then r.termIntervalMonths.value else 3;
      Schedule(IntervalDates(r.contractStart.value, months, r.termCount))
  }

  lemma {:induction false} AdjacentGivesAll(ds: seq<DateTime>, i: nat, j: nat)
    requires AdjacentIncrease(ds) && i < j < |ds|
    ensures Before(ds[i], ds[j])
    decreases j
  {
    if i + 1 < j {
      AdjacentGivesAll(ds, i, j - 1);
      assert Before(ds[j - 1], ds[j - 1 + 1]);
      BeforeTransitive(ds[i], ds[j - 1], ds[j]);
    }
  }

  /** Checking neighbours is enough: the accepted dates increase throughout. */
  lemma AdjacentIncreaseIsIncreasing(ds: seq<DateTime>)
    ensures AdjacentIncrease(ds) <==> Increasing(ds)
  {
    if AdjacentIncrease(ds) {
      forall i, j | 0 <= i < j < |ds|
        ensures Before(ds[i], ds[j])
      {
        AdjacentGivesAll(ds, i, j);
      }
    }
  }

  lemma ProductGrows(months: nat, i: nat, j: nat)
    requires months >= 1 && i < j
    ensures months * i < months * j
  {
  }

  lemma LongerJumpIsLater(start: DateTime, p: nat, q: nat)
    requires p < q
    ensures AddMonths(start, p).MonthIndex() < AddMonths(start, q).MonthIndex()
  {
    AddMonthsFields(start, p, 0);
    AddMonthsFields(start, q, 0);
  }

  /** Interval dates fall in distinct months, in order. */
  lemma IntervalDatesIncrease(start: DateTime, months: nat, count: nat)
    requires months >= 1
    ensures Increasing(IntervalDates(start, months, count)) && DistinctDays(IntervalDates(start, months, count))
  {
    var ds := IntervalDates(start, months, count);
    forall i, j | 0 <= i < j < |ds|
      ensures Before(ds[i], ds[j]) && !SameDay(ds[i], ds[j])
    {
      ProductGrows(months, i, j);
      LongerJumpIsLater(start, months * i, months * j);
    }
  }

  /** Every accepted schedule has the asked number of dates, strictly increasing; interval dates are on distinct days. */
  lemma AcceptedScheduleIncreases(r: Request, cycle: Cycle)
    requires BuildTermSchedule(r, cycle).Schedule?
    ensures var ds := BuildTermSchedule(r, cycle).dates;
            && cycle == Termly
            && |ds| == r.termCount
            && Increasing(ds)
            && (Explicit(r) == [] ==> DistinctDays(ds))
  {
    if Explicit(r) != [] {
      AdjacentIncreaseIsIncreasing(Explicit(r));
    } else {
      var months := if r.termIntervalMonths.Some? && r.termIntervalMonths.value != 0 then r.termIntervalMonths.value else 3;
      IntervalDatesIncrease(r.contractStart.value, months, r.termCount);
    }
  }

  /** A list of dates is refused as out of order exactly when it is too long or two neighbours do not increase. */
  lemma ExplicitDatesAcceptedExactly(r: Request, cycle: Cycle)
    requires Explicit(r) != []
    ensures BuildTermSchedule(r, cycle) == Schedule(Explicit(r)) <==>
              && cycle == Termly && r.termIntervalMonths.None? && |Explicit(r)| == r.termCount
              && r.termCount <= 24 && Increasing(Explicit(r))
  {
    AdjacentIncreaseIsIncreasing(Explicit(r));
  }

  /** Without dates of its own a termly deal is scheduled from its start, every three months unless it says otherwise. */
  lemma IntervalDatesAcceptedExactly(r: Request, cycle: Cycle)
    requires Explicit(r) == [] && !(r.termIntervalMonths.None? && r.termCount == 3)
    ensures BuildTermSchedule(r, cycle).Schedule? <==> cycle == Termly && r.contractStart.Some?
    ensures BuildTermSchedule(r, cycle).Schedule? ==>
              var ds := BuildTermSchedule(r, cycle).dates;
              var months := if r.termIntervalMonths.None? || r.termIntervalMonths.value == 0 then 3 else r.termIntervalMonths.value;
              && |ds| == r.termCount
              && forall i :: 0 <= i < |ds| ==>
                   && ds[i].MonthIndex() == r.contractStart.value.MonthIndex() + months * i
                   && ds[i].day == Min(r.contractStart.value.day, LengthOfMonth(ds[i].MonthIndex()))
  {
    if BuildTermSchedule(r, cycle).Schedule? {
      var ds := BuildTermSchedule(r, cycle).dates;
      var months := if r.termIntervalMonths.None? || r.termIntervalMonths.value == 0 then 3 else r.termIntervalMonths.value;
      forall i | 0 <= i < |ds|
        ensures ds[i].MonthIndex() == r.contractStart.value.MonthIndex() + months * i
        ensures ds[i].day == Min(r.contractStart.value.day, LengthOfMonth(ds[i].MonthIndex()))
      {
        AddMonthsFields(r.contractStart.value, months * i, 0);
      }
    }
  }

  /** Which reason a refused request is given, and which requests ask for no schedule at all. */
  lemma RefusedBecause(r: Request, cycle: Cycle)
    ensures var o := BuildTermSchedule(r, cycle);
            && (o == NoSchedule <==> Explicit(r) == [] && r.termIntervalMonths.None? && r.termCount == 3)
            && (o == Refused(NotTermly) <==> o != NoSchedule && cycle != Termly)
            && (o == Refused(DatesAndInterval) <==> cycle == Termly && Explicit(r) != [] && r.termIntervalMonths.Some?)
            && (o == Refused(WrongNumberOfDates) <==>
                  cycle == Termly && Explicit(r) != [] && r.termIntervalMonths.None? && |Explicit(r)| != r.termCount)
            && (o == Refused(NoFirstTerm) <==> o != NoSchedule && cycle == Termly && Explicit(r) == [] && r.contractStart.None?)
  {
  }

  /** A deal built from an interval starts in its first term, though the dates drop a fraction of a second. */
  lemma IntervalDealStartsItsSchedule(start: DateTime, months: nat, count: nat)
    requires months >= 1 && count >= 1
    ensures var ds := IntervalDates(start, months, count);
            !Before(start, ds[0]) && (count > 1 ==> Before(start, ds[1]))
  {
    AddMonthsFields(start, months * 0, 0);
    assert AddMonths(start, 0).day == start.day by {
      DayNumberByIndex(start);
    }
    if count > 1 {
      AddMonthsFields(start, months * 1, 0);
    }
  }

  /** The billing date a new deal starts from: the contract start, or the first of the dates given. */
  function FirstBillingDate(r: Request): Option<DateTime> {
    if r.contractStart.Some? then r.contractStart
    else if Explicit(r) != [] then Some(Explicit(r)[0])
    else None
  }

  lemma TailIncreases(ds: seq<DateTime>)
    requires Increasing(ds) && ds != []
    ensures Increasing(ds[1..])
  {
    var rest := ds[1..];
    assert forall a, b :: 0 <= a < b < |rest| ==> rest[a] == ds[a + 1] && rest[b] == ds[b + 1];
  }

  /** From any date on, the next scheduled date is the first one after it. */
  lemma {:induction false} NextScheduledAfter(ds: seq<DateTime>, first: DateTime)
    requires Increasing(ds)
    ensures NextScheduled(ds, first) == if DueCount(ds, first) < |ds| then Some(ds[DueCount(ds, first)]) else None
  {
    if ds != [] && !Before(first, ds[0]) {
      TailIncreases(ds);
      NextScheduledAfter(ds[1..], first);
    }
  }

  lemma LaterMeansMoreDue(ds: seq<DateTime>, first: DateTime, now: DateTime)
    requires Increasing(ds) && !Before(now, first)
    ensures DueCount(ds, first) <= DueCount(ds, now)
  {
    forall i | 0 <= i < DueCount(ds, first)
      ensures !Before(now, ds[i])
    {
      assert !Before(first, ds[i]);
    }
  }

  /** Billing that starts at any date bills that date, and then each scheduled date after it that is due. */
  lemma BilledFrom(t: Terms, ds: seq<DateTime>, first: DateTime, now: DateTime)
    requires t.schedule == Some(ds) && Increasing(ds) && !Before(now, first)
    ensures DueCount(ds, first) <= DueCount(ds, now)
    ensures DueChain(t, Some(first), now) == [first] + ds[DueCount(ds, first)..DueCount(ds, now)]
  {
    NextScheduledAfter(ds, first);
    LaterMeansMoreDue(ds, first, now);
    ScheduleVisitedFrom(t, ds, now, DueCount(ds, first));
  }

  /** Once everything due has been billed, the anchor is one step past the last due date. */
  lemma {:induction false} AnchorPastChain(t: Terms, next: Option<DateTime>, now: DateTime)
    requires DueChain(t, next, now) != []
    ensures var ds := DueChain(t, next, now); AnchorAfter(t, next, now, |ds|) == Step(t, ds[|ds| - 1])
    decreases Lateness(next, now)
  {
    LatenessFalls(t, next.value, now);
    var rest := DueChain(t, Step(t, next.value), now);
    assert DueChain(t, next, now) == [next.value] + rest;
    if rest != [] {
      AnchorPastChain(t, Step(t, next.value), now);
    }
  }

  lemma NothingAfterTheLast(ds: seq<DateTime>, last: DateTime)
    requires Increasing(ds) && (ds != [] ==> !Before(last, ds[|ds| - 1]))
    ensures NextScheduled(ds, last) == None
  {
    var n := DueCount(ds, last);
    assert n < |ds| - 1 ==> Before(ds[n], ds[|ds| - 1]);
    NextScheduledAfter(ds, last);
  }

  lemma AllDue(ds: seq<DateTime>, now: DateTime)
    requires Increasing(ds) && (ds != [] ==> !Before(now, ds[|ds| - 1]))
    ensures DueCount(ds, now) == |ds|
  {
    var n := DueCount(ds, now);
    assert n < |ds| - 1 ==> Before(ds[n], ds[|ds| - 1]);
  }

  /** The billing starts on or after the first scheduled date, and before the second. */
  predicate StartsInFirstTerm(ds: seq<DateTime>, first: DateTime) {
    ds != [] && !Before(first, ds[0]) && (|ds| > 1 ==> Before(first, ds[1]))
  }

  lemma StartsInFirstTermCount(ds: seq<DateTime>, first: DateTime)
    requires Increasing(ds)
    ensures StartsInFirstTerm(ds, first) <==> DueCount(ds, first) == 1
  {
    var k := DueCount(ds, first);
    assert k > 1 ==> !Before(first, ds[1]);
  }

  /**
   * Wherever billing starts: the start is billed, then every scheduled date after it, and then there is
   * no next date. So there is one period per term exactly when the start lies in the first term; before
   * it there is one more, and from the second date on there are fewer.
   */
  lemma WholeContractIsBilled(t: Terms, ds: seq<DateTime>, first: DateTime, now: DateTime)
    requires t.schedule == Some(ds) && Increasing(ds)
    requires !Before(now, first) && (ds != [] ==> !Before(now, ds[|ds| - 1]))
    ensures var chain := DueChain(t, Some(first), now);
            && chain == [first] + ds[DueCount(ds, first)..]
            && AnchorAfter(t, Some(first), now, |chain|) == None
            && (|chain| == |ds| <==> StartsInFirstTerm(ds, first))
            && (|chain| > |ds| <==> ds == [] || Before(first, ds[0]))
  {
    var chain := DueChain(t, Some(first), now);
    AllDue(ds, now);
    BilledFrom(t, ds, first, now);
    StartsInFirstTermCount(ds, first);
    assert ds[DueCount(ds, first)..|ds|] == ds[DueCount(ds, first)..];
    AnchorPastChain(t, Some(first), now);
    NothingAfterTheLast(ds, chain[|chain| - 1]);
  }

  /** For the deals that are accepted: one period per term exactly when the deal starts in its first term. */
  lemma AcceptedDealIsBilledPerTerm(r: Request, cycle: Cycle, now: DateTime)
    requires BuildTermSchedule(r, cycle).Schedule?
    requires FirstBillingDate(r).Some? ==> !Before(now, FirstBillingDate(r).value)
    requires var ds := BuildTermSchedule(r, cycle).dates; ds != [] ==> !Before(now, ds[|ds| - 1])
    ensures FirstBillingDate(r).Some?
    ensures var ds := BuildTermSchedule(r, cycle).dates;
            |DueChain(Terms(cycle, Some(ds)), FirstBillingDate(r), now)| == |ds|
            <==> StartsInFirstTerm(ds, FirstBillingDate(r).value)
    ensures Explicit(r) == [] && r.termCount > 0 ==>
              StartsInFirstTerm(BuildTermSchedule(r, cycle).dates, FirstBillingDate(r).value)
    ensures r.contractStart.None? ==>
              StartsInFirstTerm(BuildTermSchedule(r, cycle).dates, FirstBillingDate(r).value)
  {
    var ds := BuildTermSchedule(r, cycle).dates;
    AcceptedScheduleIncreases(r, cycle);
    WholeContractIsBilled(Terms(cycle, Some(ds)), ds, FirstBillingDate(r).value, now);
    if Explicit(r) == [] && r.termCount > 0 {
      var months := if r.termIntervalMonths.Some? && r.termIntervalMonths.value != 0 then r.termIntervalMonths.value else 3;
      IntervalDealStartsItsSchedule(r.contractStart.value, months, r.termCount);
    }
  }

  const TERMS := [CivilTime(2026, 9, 1, 0), CivilTime(2027, 1, 1, 0), CivilTime(2027, 4, 1, 0)]

  /** A deal over three given term dates that starts on another day. */
  function DealFrom(start: DateTime): Request {
    Request(Some(TERMS), None, 3, Some(start))
  }

  lemma TermsIncrease()
    ensures AdjacentIncrease(TERMS) && Increasing(TERMS)
  {
    assert Before(TERMS[0], TERMS[1]) && Before(TERMS[1], TERMS[2]);
    AdjacentIncreaseIsIncreasing(TERMS);
  }

  lemma DealIsAccepted(start: DateTime)
    ensures BuildTermSchedule(DealFrom(start), Termly) == Schedule(TERMS) && FirstBillingDate(DealFrom(start)) == Some(start)
  {
    TermsIncrease();
  }

  /** A deal that starts a month early is accepted and has four periods for its three terms. */
  lemma EarlyDealHasOneMore()
    ensures var start := CivilTime(2026, 8, 1, 0);
            && BuildTermSchedule(DealFrom(start), Termly) == Schedule(TERMS)
            && DueChain(Terms(Termly, Some(TERMS)), FirstBillingDate(DealFrom(start)), CivilTime(2027, 5, 1, 0)) == [start] + TERMS
  {
    var start := CivilTime(2026, 8, 1, 0);
    TermsIncrease();
    DealIsAccepted(start);
    WholeContractIsBilled(Terms(Termly, Some(TERMS)), TERMS, start, CivilTime(2027, 5, 1, 0));
  }

  /** One that starts after its second date is accepted too, and skips a term. */
  lemma LateDealSkips()
    ensures var start := CivilTime(2027, 1, 15, 0);
            && BuildTermSchedule(DealFrom(start), Termly) == Schedule(TERMS)
            && DueChain(Terms(Termly, Some(TERMS)), FirstBillingDate(DealFrom(start)), CivilTime(2027, 5, 1, 0)) == [start, TERMS[2]]
  {
    var start := CivilTime(2027, 1, 15, 0);
    TermsIncrease();
    DealIsAccepted(start);
    WholeContractIsBilled(Terms(Termly, Some(TERMS)), TERMS, start, CivilTime(2027, 5, 1, 0));
    assert DueCount(TERMS, start) == 2;
  }
}
