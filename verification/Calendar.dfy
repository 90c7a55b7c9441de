/** Calendar instants and the month arithmetic that drives the billing dates. All instants are in UTC. */
module Calendar {
  import opened Numbers

  const MICROS_PER_SECOND := 1_000_000
  const MICROS_PER_DAY := 86_400_000_000

  predicate Leap(y: int) {
    y % 4 == 0 && (y % 100 != 0 || y % 400 == 0)
  }

  /** `calendar.monthrange(y, m)[1]` */
  function MonthLength(y: int, m: int): (n: int)
    requires 1 <= m <= 12
    ensures 28 <= n <= 31
  {
    if m == 2 then (if Leap(y) then 29 else 28)
    else if m == 4 || m == 6 || m == 9 || m == 11 then 30
    else 31
  }

  /** The lengths of the months, January first. */
  lemma GregorianMonths(y: int, m: int)
    requires 1 <= m <= 12
    ensures MonthLength(y, m) == [31, if Leap(y) then 29 else 28, 31, 30, 31, 30, 31, 31, 30, 31, 30, 31][m - 1]
    ensures Leap(y) <==> (y % 400 == 0 || (y % 4 == 0 && y % 100 != 0))
  {
  }

  datatype CivilTime = CivilTime(year: int, month: int, day: int, micros: int) {
    predicate Valid() {
      && 1 <= year
      && 1 <= month <= 12
      && 1 <= day <= MonthLength(year, month)
      && 0 <= micros < MICROS_PER_DAY
    }

    /** Months counted from year zero. */
    function MonthIndex(): int {
      year * 12 + month - 1
    }
  }

  type DateTime = d: CivilTime | d.Valid() witness CivilTime(1, 1, 1, 0)

  // ---------------------------------------------------------------- the timeline

  function DaysBeforeYear(y: int): int {
    (y - 1) * 365 + (y - 1) / 4 - (y - 1) / 100 + (y - 1) / 400
  }

  function DaysBeforeMonth(y: int, m: int): int
    requires 1 <= m <= 12
    decreases m
  {
    if m == 1 then 0 else DaysBeforeMonth(y, m - 1) + MonthLength(y, m - 1)
  }

  function DayNumber(d: DateTime): int {
    DaysBeforeYear(d.year) + DaysBeforeMonth(d.year, d.month) + d.day
  }

  /** Microseconds since the start of the calendar. */
  function Stamp(d: DateTime): int {
    DayNumber(d) * MICROS_PER_DAY + d.micros
  }

  /** Two instants are compared field by field, most significant field first. */
  predicate Before(a: DateTime, b: DateTime) {
    || a.MonthIndex() < b.MonthIndex()
    || (a.MonthIndex() == b.MonthIndex() && (a.day < b.day || (a.day == b.day && a.micros < b.micros)))
  }

  lemma LeapStep(y: int)
    ensures DaysBeforeYear(y + 1) == DaysBeforeYear(y) + (if Leap(y) then 366 else 365)
  {
    assert y / 4 == (y - 1) / 4 + (if y % 4 == 0 then 1 else 0);
    assert y / 100 == (y - 1) / 100 + (if y % 100 == 0 then 1 else 0);
    assert y / 400 == (y - 1) / 400 + (if y % 400 == 0 then 1 else 0);
    assert y % 400 == 0 ==> y % 100 == 0 && y % 4 == 0;
    assert y % 100 == 0 ==> y % 4 == 0;
  }

  lemma YearStep(y: int)
    ensures DaysBeforeYear(y + 1) == DaysBeforeYear(y) + (if Leap(y) then 366 else 365)
    ensures DaysBeforeMonth(y, 12) + 31 == (if Leap(y) then 366 else 365)
  {
    LeapStep(y);
    assert DaysBeforeMonth(y, 2) == 31;
    assert DaysBeforeMonth(y, 4) == DaysBeforeMonth(y, 3) + 31;
    assert DaysBeforeMonth(y, 6) == DaysBeforeMonth(y, 5) + 31;
    assert DaysBeforeMonth(y, 8) == DaysBeforeMonth(y, 7) + 31;
    assert DaysBeforeMonth(y, 10) == DaysBeforeMonth(y, 9) + 30;
    assert DaysBeforeMonth(y, 12) == DaysBeforeMonth(y, 11) + 30;
  }

  /** Days before the month with the given index. */
  function MonthStart(index: int): int {
    DaysBeforeYear(index / 12) + DaysBeforeMonth(index / 12, index % 12 + 1)
  }

  function LengthOfMonth(index: int): (n: int)
    ensures 28 <= n <= 31
  {
    MonthLength(index / 12, index % 12 + 1)
  }

  lemma MonthStartStep(index: int)
    ensures MonthStart(index + 1) == MonthStart(index) + LengthOfMonth(index)
  {
    YearStep(index / 12);
    if index % 12 == 11 {
      assert (index + 1) / 12 == index / 12 + 1 && (index + 1) % 12 == 0;
    } else {
      assert (index + 1) / 12 == index / 12 && (index + 1) % 12 == index % 12 + 1;
    }
  }

  lemma {:induction false} MonthStartMonotone(i: int, j: int)
    requires i < j
    ensures MonthStart(i) + LengthOfMonth(i) <= MonthStart(j)
    decreases j - i
  {
    MonthStartStep(j - 1);
    if i < j - 1 {
      MonthStartMonotone(i, j - 1);
    }
  }

  lemma DayNumberByIndex(d: DateTime)
    ensures DayNumber(d) == MonthStart(d.MonthIndex()) + d.day
    ensures d.day <= LengthOfMonth(d.MonthIndex())
  {
    assert d.MonthIndex() / 12 == d.year && d.MonthIndex() % 12 == d.month - 1;
  }

  lemma BeforeIsEarlier(a: DateTime, b: DateTime)
    requires Before(a, b)
    ensures Stamp(a) < Stamp(b)
  {
    DayNumberByIndex(a);
    DayNumberByIndex(b);
    if a.MonthIndex() < b.MonthIndex() {
      MonthStartMonotone(a.MonthIndex(), b.MonthIndex());
    }
  }

  lemma BeforeIsTotal(a: DateTime, b: DateTime)
    ensures a == b || Before(a, b) || Before(b, a)
  {
    assert a.year == b.year && a.month == b.month <==> a.MonthIndex() == b.MonthIndex();
  }

  lemma BeforeTransitive(a: DateTime, b: DateTime, c: DateTime)
    requires Before(a, b) && Before(b, c)
    ensures Before(a, c)
  {
  }

  lemma NotBeforeTransitive(a: DateTime, b: DateTime, c: DateTime)
    requires !Before(b, a) && !Before(c, b)
    ensures !Before(c, a)
  {
    BeforeIsTotal(a, b);
    BeforeIsTotal(b, c);
    if Before(c, a) && a != b {
      BeforeTransitive(c, a, b);
    }
  }

  /** Comparing fields is comparing points of the timeline, and distinct instants are distinct points. */
  lemma StampOrder(a: DateTime, b: DateTime)
    ensures Before(a, b) <==> Stamp(a) < Stamp(b)
    ensures a == b <==> Stamp(a) == Stamp(b)
  {
    BeforeIsTotal(a, b);
    if Before(a, b) {
      BeforeIsEarlier(a, b);
    } else if Before(b, a) {
      BeforeIsEarlier(b, a);
    }
  }

  // ---------------------------------------------------------------- one second earlier

  function PreviousDay(d: DateTime): CivilTime {
    if d.day > 1 then d.(day := d.day - 1)
    else if d.month > 1 then CivilTime(d.year, d.month - 1, MonthLength(d.year, d.month - 1), d.micros)
    else CivilTime(d.year - 1, 12, 31, d.micros)
  }

  /** Only the first second of the calendar has none before it. */
  predicate HasSecondBefore(d: DateTime) {
    d.year > 1 || d.month > 1 || d.day > 1 || d.micros >= MICROS_PER_SECOND
  }

  /** `d - timedelta(seconds=1)` */
  function SecondBefore(d: DateTime): (r: DateTime)
    requires HasSecondBefore(d)
  {
    if d.micros >= MICROS_PER_SECOND then d.(micros := d.micros - MICROS_PER_SECOND)
    else PreviousDay(d.(micros := d.micros + MICROS_PER_DAY - MICROS_PER_SECOND))
  }

  /** The borrow across days, months and years is exact. */
  lemma SecondBeforeIsOneSecond(d: DateTime)
    requires HasSecondBefore(d)
    ensures Stamp(SecondBefore(d)) == Stamp(d) - 1_000_000
    ensures SecondBefore(d).micros == if d.micros >= 1_000_000 then d.micros - 1_000_000 else d.micros + 86_399_000_000
  {
    if d.day == 1 && d.month == 1 && d.micros < MICROS_PER_SECOND {
      YearStep(d.year - 1);
    }
  }

  // ---------------------------------------------------------------- adding months

  /**
   * Move by whole months, clamping the day to the target month and dropping the fraction of
   * a second. An anchor day of zero means "the day of `when`".
   */
  function AddMonths(when: DateTime, months: nat, anchorDay: nat := 0): DateTime {
    var total := when.month - 1 + months;
    var year := when.year + total / 12;
    var month := total % 12 + 1;
    var wanted := if anchorDay != 0 then anchorDay else when.day;
    CivilTime(year, month, Min(wanted, MonthLength(year, month)),
              DropFraction(when.micros))
  }

  function DropFraction(micros: int): (r: int)
    ensures r <= micros < r + MICROS_PER_SECOND
    ensures r % MICROS_PER_SECOND == 0
    ensures micros % MICROS_PER_SECOND == 0 ==> r == micros
  {
    micros - micros % MICROS_PER_SECOND
  }

  lemma AddMonthsFields(when: DateTime, months: nat, anchorDay: nat)
    ensures var r := AddMonths(when, months, anchorDay);
            && r.MonthIndex() == when.MonthIndex() + months
            && r.day == Min(if anchorDay != 0 then anchorDay else when.day, LengthOfMonth(when.MonthIndex() + months))
            && r.micros == DropFraction(when.micros)
  {
    var total := when.month - 1 + months;
    var i := when.MonthIndex() + months;
    assert i == 12 * (when.year + total / 12) + total % 12;
    assert i / 12 == when.year + total / 12 && i % 12 == total % 12;
  }

  /** A month step of at least one month is strictly later, whatever the clamp does. */
  lemma AddMonthsIsLater(when: DateTime, months: nat, anchorDay: nat := 0)
    requires months >= 1
    ensures Before(when, AddMonths(when, months, anchorDay))
    ensures AddMonths(when, months, anchorDay).MonthIndex() == when.MonthIndex() + months
  {
    AddMonthsFields(when, months, anchorDay);
  }

  // ---------------------------------------------------------------- chained advances

  /** The billing anchor after `k` advances of `c` months, each re-anchored on the day it starts from. */
  function Advanced(start: DateTime, c: nat, k: nat): DateTime {
    if k == 0 then start else
      var last := Advanced(start, c, k - 1);
      AddMonths(last, c, last.day)
  }

  /** The smallest of the starting day and the lengths of the months visited by `k` advances. */
  function SmallestDay(start: DateTime, c: nat, k: nat): int {
    if k == 0 then start.day
    else Min(SmallestDay(start, c, k - 1), LengthOfMonth(Visited(start, c, k)))
  }

  /** The index of the month reached after `k` steps of `c` months. */
  function Visited(start: DateTime, c: nat, k: nat): int {
    if k == 0 then start.MonthIndex() else Visited(start, c, k - 1) + c
  }

  lemma {:induction false} VisitedClosedForm(start: DateTime, c: nat, k: nat)
    ensures Visited(start, c, k) == start.MonthIndex() + k * c
  {
    if k > 0 {
      VisitedClosedForm(start, c, k - 1);
      assert k * c == (k - 1) * c + c;
    }
  }

  lemma ChainedStep(start: DateTime, c: nat, k: nat, index: int)
    requires k >= 1
    requires Advanced(start, c, k - 1).MonthIndex() == index
    ensures Advanced(start, c, k).MonthIndex() == index + c
    ensures Advanced(start, c, k).day == Min(Advanced(start, c, k - 1).day, LengthOfMonth(index + c))
    ensures Advanced(start, c, k).micros == DropFraction(Advanced(start, c, k - 1).micros)
  {
    var last := Advanced(start, c, k - 1);
    AddMonthsFields(last, c, last.day);
  }

  lemma {:induction false} ChainedMonth(start: DateTime, c: nat, k: nat)
    ensures Advanced(start, c, k).MonthIndex() == Visited(start, c, k)
  {
    if k > 0 {
      ChainedMonth(start, c, k - 1);
      ChainedStep(start, c, k, Visited(start, c, k - 1));
    }
  }

  lemma {:induction false} ChainedMicros(start: DateTime, c: nat, k: nat)
    requires k > 0
    ensures Advanced(start, c, k).micros == DropFraction(start.micros)
  {
    ChainedStep(start, c, k, Advanced(start, c, k - 1).MonthIndex());
    if k > 1 {
      ChainedMicros(start, c, k - 1);
    }
  }

  lemma ClampOnce(start: DateTime, c: nat, k: nat)
    requires k > 0
    ensures Advanced(start, c, k).day == Min(Advanced(start, c, k - 1).day, LengthOfMonth(Visited(start, c, k)))
  {
    var index := Visited(start, c, k - 1);
    ChainedMonth(start, c, k - 1);
    ChainedStep(start, c, k, index);
    assert Visited(start, c, k) == index + c;
  }

  lemma {:induction false} ChainedDay(start: DateTime, c: nat, k: nat)
    ensures Advanced(start, c, k).day == SmallestDay(start, c, k)
  {
    if k > 0 {
      ChainedDay(start, c, k - 1);
      ClampOnce(start, c, k);
    }
  }

  /** Where `k` advances of `c` months end up, in closed form. */
  lemma ChainedAdvance(start: DateTime, c: nat, k: nat)
    ensures Advanced(start, c, k).MonthIndex() == start.MonthIndex() + k * c
    ensures Advanced(start, c, k).day == SmallestDay(start, c, k)
    ensures k > 0 ==> Advanced(start, c, k).micros == DropFraction(start.micros)
  {
    VisitedClosedForm(start, c, k);
    ChainedMonth(start, c, k);
    ChainedDay(start, c, k);
    if k > 0 {
      ChainedMicros(start, c, k);
    }
  }

  /** The smallest day is attained: by the start, or by the month visited at step `at`. */
  lemma {:induction false} SmallestDayIsMinimum(start: DateTime, c: nat, k: nat) returns (at: nat)
    ensures SmallestDay(start, c, k) <= start.day
    ensures forall j :: 1 <= j <= k ==> SmallestDay(start, c, k) <= LengthOfMonth(Visited(start, c, j))
    ensures at <= k
    ensures SmallestDay(start, c, k) == if at == 0 then start.day else LengthOfMonth(Visited(start, c, at))
  {
    at := 0;
    if k > 0 {
      at := SmallestDayIsMinimum(start, c, k - 1);
      if SmallestDay(start, c, k) < SmallestDay(start, c, k - 1) {
        at := k;
      }
    }
  }

  /** A visited month that is shorter than both the starting day and the last month pulls the anchor back for good. */
  ghost predicate Drifts(start: DateTime, c: nat, k: nat) {
    exists j :: 1 <= j <= k
      && LengthOfMonth(Visited(start, c, j)) < Min(start.day, LengthOfMonth(Visited(start, c, k)))
  }

  lemma DayDecidesAgreement(start: DateTime, c: nat, k: nat, jump: DateTime)
    requires k >= 1
    requires jump.MonthIndex() == Visited(start, c, k) && jump.micros == DropFraction(start.micros)
    ensures Advanced(start, c, k) == jump <==> SmallestDay(start, c, k) == jump.day
  {
    ChainedMonth(start, c, k);
    ChainedDay(start, c, k);
    ChainedMicros(start, c, k);
  }

  lemma DriftDecidesDay(start: DateTime, c: nat, k: nat)
    requires k >= 1
    ensures SmallestDay(start, c, k) == Min(start.day, LengthOfMonth(Visited(start, c, k))) <==> !Drifts(start, c, k)
  {
    var at := SmallestDayIsMinimum(start, c, k);
    assert at > 0 ==> 1 <= at <= k;
  }

  /** Repeated advances agree with one jump of the same length exactly when no visited month drifts the anchor. */
  lemma ChainedAdvanceVersusJump(start: DateTime, c: nat, k: nat)
    requires k >= 1
    ensures Advanced(start, c, k) == AddMonths(start, k * c) <==> !Drifts(start, c, k)
    ensures start.day <= 28 ==> Advanced(start, c, k) == AddMonths(start, k * c)
  {
    VisitedClosedForm(start, c, k);
    AddMonthsFields(start, k * c, 0);
    DayDecidesAgreement(start, c, k, AddMonths(start, k * c));
    DriftDecidesDay(start, c, k);
  }

  /** A subscription anchored on the 31st slips to the 28th after one February and stays there. */
  lemma AnchorDriftExample()
    ensures var start := CivilTime(2026, 1, 31, 0);
            Advanced(start, 1, 2) == CivilTime(2026, 3, 28, 0) && AddMonths(start, 2) == CivilTime(2026, 3, 31, 0)
  {
    var start := CivilTime(2026, 1, 31, 0);
    assert Advanced(start, 1, 1) == CivilTime(2026, 2, 28, 0);
  }
}
