/** The constraint model of `Timetable` means what it should. */
module TimetableLaws {
  import opened Counting
  import opened Timetable

  // ---------------------------------------------------------------- rosters

  lemma {:induction false} UniqueFilter(xs: seq<Slot>, p: Slot -> bool)
    requires UniqueIds(xs)
    ensures UniqueIds(Filter(xs, p))
  {
    if xs != [] {
      var rest := Filter(xs[1..], p);
      assert forall i :: 0 <= i < |xs| - 1 ==> xs[1..][i] == xs[i + 1];
      UniqueFilter(xs[1..], p);
      forall i | 0 <= i < |rest|
        ensures rest[i].slotId != xs[0].slotId
      {
        FilterMember(xs[1..], p, rest[i]);
        var j :| 0 <= j < |xs| - 1 && xs[1..][j] == rest[i];
        assert xs[0].slotId != xs[j + 1].slotId;
      }
    }
  }

  ghost predicate Members(xs: seq<Slot>, ys: seq<Slot>) {
    forall s :: s in xs <==> s in ys
  }

  lemma MovableMember(r: Problem, s: Slot)
    ensures s in r.Movable() <==> s in r.classSlots && ClashCount(s, r.allSlots) > 0
  {
    FilterMember(r.classSlots, r.Clashing(), s);
  }

  lemma FixedMember(r: Problem, s: Slot)
    ensures s in r.Fixed() <==> s in r.classSlots && ClashCount(s, r.allSlots) == 0
  {
    FilterMember(r.classSlots, r.Quiet(), s);
  }

  lemma ExternalMember(r: Problem, s: Slot)
    ensures s in r.External() <==> s in r.allSlots && s.slotId !in r.ClassIds()
  {
    FilterMember(r.allSlots, r.Elsewhere(), s);
  }

  lemma SameIdSameSlot(xs: seq<Slot>, a: Slot, b: Slot)
    requires UniqueIds(xs) && a in xs && b in xs && a.slotId == b.slotId
    ensures a == b
  {
    var i :| 0 <= i < |xs| && xs[i] == a;
    var j :| 0 <= j < |xs| && xs[j] == b;
    assert i == j;
  }

  /** Everyone is the class and the slots of other classes. */
  lemma ClassOrExternal(r: Problem, s: Slot)
    ensures s in r.Everyone() <==> s in r.classSlots || s in r.External()
    ensures !(s in r.classSlots && s in r.External())
  {
    ExternalMember(r, s);
  }

  /** Where the class is part of the school, everyone is the school. */
  lemma EveryoneIsTheSchool(r: Problem, s: Slot)
    requires WellFormed(r) && Covered(r)
    ensures s in r.allSlots <==> s in r.Everyone()
  {
    ExternalMember(r, s);
    if s in r.allSlots && s.slotId in r.ClassIds() {
      var c :| c in r.classSlots && c.slotId == s.slotId;
      SameIdSameSlot(r.allSlots, c, s);
    }
  }

  lemma UniqueConcat(xs: seq<Slot>, ys: seq<Slot>)
    requires UniqueIds(xs) && UniqueIds(ys)
    requires forall a, b :: a in xs && b in ys ==> a.slotId != b.slotId
    ensures UniqueIds(xs + ys)
  {
    var zs := xs + ys;
    forall i, j | 0 <= i < j < |zs|
      ensures zs[i].slotId != zs[j].slotId
    {
      assert i < |xs| ==> zs[i] in xs;
      assert j >= |xs| ==> zs[j] in ys;
    }
  }

  /** The class's slots, movable first. */
  function ClassRoster(r: Problem): seq<Slot> {
    r.Movable() + r.Fixed()
  }

  lemma ClassRosterIsTheClass(r: Problem)
    requires WellFormed(r)
    ensures UniqueIds(ClassRoster(r)) && Members(ClassRoster(r), r.classSlots)
  {
    UniqueFilter(r.classSlots, r.Clashing());
    UniqueFilter(r.classSlots, r.Quiet());
    forall a, b | a in r.Movable() && b in r.Fixed()
      ensures a.slotId != b.slotId
    {
      MovableMember(r, a);
      FixedMember(r, b);
      if a.slotId == b.slotId {
        SameIdSameSlot(r.classSlots, a, b);
      }
    }
    UniqueConcat(r.Movable(), r.Fixed());
    forall s
      ensures s in ClassRoster(r) <==> s in r.classSlots
    {
      MovableMember(r, s);
      FixedMember(r, s);
    }
  }

  function SchoolRoster(r: Problem): seq<Slot> {
    ClassRoster(r) + r.External()
  }

  lemma SchoolRosterIsEveryone(r: Problem)
    requires WellFormed(r)
    ensures UniqueIds(SchoolRoster(r)) && Members(SchoolRoster(r), r.Everyone())
  {
    ClassRosterIsTheClass(r);
    UniqueFilter(r.allSlots, r.Elsewhere());
    forall a, b | a in ClassRoster(r) && b in r.External()
      ensures a.slotId != b.slotId
    {
      ExternalMember(r, b);
      assert a in r.classSlots && a.slotId in r.ClassIds();
    }
    UniqueConcat(ClassRoster(r), r.External());
    forall s
      ensures s in SchoolRoster(r) <==> s in r.Everyone()
    {
      ClassOrExternal(r, s);
    }
  }

  /** Members that satisfy `p` have one id. */
  ghost predicate OneIdAmong(xs: seq<Slot>, p: Slot -> bool) {
    forall a, b {:trigger p(a), p(b)} :: a in xs && b in xs && p(a) && p(b) ==> a.slotId == b.slotId
  }

  lemma OneIdAmongMembers(xs: seq<Slot>, ys: seq<Slot>, p: Slot -> bool)
    requires Members(xs, ys)
    ensures OneIdAmong(xs, p) <==> OneIdAmong(ys, p)
  {
  }

  /** In a roster of distinct ids, "at most one" is about ids. */
  lemma AtMostOneById(xs: seq<Slot>, p: Slot -> bool)
    requires UniqueIds(xs)
    ensures Count(xs, p) <= 1 <==> OneIdAmong(xs, p)
  {
    AtMostOne(xs, p);
    if Count(xs, p) <= 1 {
      forall a, b | a in xs && b in xs && p(a) && p(b)
        ensures a.slotId == b.slotId
      {
        var i :| 0 <= i < |xs| && xs[i] == a;
        var j :| 0 <= j < |xs| && xs[j] == b;
        assert !(i < j) && !(j < i);
      }
    } else {
      var i, j := FindTwo(xs, p);
      assert xs[i].slotId != xs[j].slotId;
      assert xs[i] in xs && xs[j] in xs;
    }
  }

  // ---------------------------------------------------------------- reading an assignment

  /** The assignment says: slot `s` goes to period `f[s]` and nowhere else. */
  ghost predicate Encodes(r: Problem, x: Assignment, f: Placement) {
    && IsPlacement(r, f)
    && forall s, p :: s in r.Movable() && 0 <= p < |r.periods| ==> (Var(s.slotId, p) in x <==> f[s.slotId] == p)
  }

  function LandsIn(r: Problem, f: Placement, q: Period): Slot -> bool {
    (s: Slot) => PeriodOf(Relocated(r, f, s)) == q
  }

  function ChosenAt(x: Assignment, p: nat): Slot -> bool {
    (s: Slot) => Var(s.slotId, p) in x
  }

  lemma {:induction false} CountColumn(xs: seq<Slot>, p: nat, x: Assignment)
    ensures Count(Column(xs, p), Chosen(x)) == Count(xs, ChosenAt(x, p))
  {
    if xs != [] {
      CountColumn(xs[1..], p, x);
      assert Column(xs, p)[1..] == Column(xs[1..], p);
    }
  }

  lemma LandsWhereChosen(r: Problem, x: Assignment, f: Placement, s: Slot, p: nat)
    requires WellFormed(r) && Encodes(r, x, f) && s in r.Movable() && p < |r.periods|
    ensures ChosenAt(x, p)(s) <==> LandsIn(r, f, r.periods[p])(s)
  {
    var to := f[s.slotId];
    assert to != p ==> r.periods[to] != r.periods[p];
  }

  lemma StaysPut(r: Problem, f: Placement, s: Slot)
    requires IsPlacement(r, f) && (s in r.Fixed() || s in r.External())
    ensures Relocated(r, f, s) == s
  {
  }

  lemma MovableColumn(r: Problem, x: Assignment, f: Placement, xs: seq<Slot>, p: nat)
    requires WellFormed(r) && Encodes(r, x, f) && p < |r.periods|
    requires forall s :: s in xs ==> s in r.Movable()
    ensures Count(Column(xs, p), Chosen(x)) == Count(xs, LandsIn(r, f, r.periods[p]))
  {
    CountColumn(xs, p, x);
    forall i | 0 <= i < |xs|
      ensures ChosenAt(x, p)(xs[i]) == LandsIn(r, f, r.periods[p])(xs[i])
    {
      LandsWhereChosen(r, x, f, xs[i], p);
    }
    CountCongruent(xs, ChosenAt(x, p), LandsIn(r, f, r.periods[p]));
  }

  // ---------------------------------------------------------------- class periods

  lemma FixedStays(r: Problem, f: Placement, q: Period)
    requires IsPlacement(r, f)
    ensures Count(r.Fixed(), InPeriod(q)) == Count(r.Fixed(), LandsIn(r, f, q))
  {
    var xs := r.Fixed();
    forall i | 0 <= i < |xs|
      ensures InPeriod(q)(xs[i]) == LandsIn(r, f, q)(xs[i])
    {
      StaysPut(r, f, xs[i]);
    }
    CountCongruent(xs, InPeriod(q), LandsIn(r, f, q));
  }

  /** A period is crowded when two immovable class slots share it. */
  lemma CrowdedMeaning(r: Problem, q: Period)
    requires UniqueIds(r.classSlots)
    ensures Crowded(r, q) <==>
              exists a, b :: a in r.Fixed() && b in r.Fixed() && a.slotId != b.slotId && PeriodOf(a) == q && PeriodOf(b) == q
  {
    var fixed := r.Fixed();
    UniqueFilter(r.classSlots, r.Quiet());
    AtMostOneById(fixed, InPeriod(q));
    if exists a, b :: a in fixed && b in fixed && a.slotId != b.slotId && PeriodOf(a) == q && PeriodOf(b) == q {
      var a, b :| a in fixed && b in fixed && a.slotId != b.slotId && PeriodOf(a) == q && PeriodOf(b) == q;
      assert InPeriod(q)(a) && InPeriod(q)(b);
    }
    if Crowded(r, q) {
      var i, j := FindTwo(fixed, InPeriod(q));
      assert fixed[i] in fixed && fixed[j] in fixed;
    }
  }

  predicate ClassMeetsOnce(r: Problem, f: Placement, q: Period) {
    Count(r.classSlots, LandsIn(r, f, q)) <= 1
  }

  lemma ClassCount(r: Problem, f: Placement, q: Period)
    ensures Count(r.Movable(), LandsIn(r, f, q)) + Count(r.Fixed(), LandsIn(r, f, q)) == Count(r.classSlots, LandsIn(r, f, q))
  {
    CountSplit(r.classSlots, r.Clashing(), r.Quiet(), LandsIn(r, f, q));
  }

  lemma ClassRoomMeaning(r: Problem, x: Assignment, f: Placement, p: nat)
    requires WellFormed(r) && Encodes(r, x, f) && p < |r.periods|
    ensures ClassRoom(r, p, x) <==> Crowded(r, r.periods[p]) || ClassMeetsOnce(r, f, r.periods[p])
  {
    MovableColumn(r, x, f, r.Movable(), p);
    FixedStays(r, f, r.periods[p]);
    ClassCount(r, f, r.periods[p]);
  }

  // ---------------------------------------------------------------- teachers

  function TeacherLandsIn(r: Problem, f: Placement, t: string, q: Period): Slot -> bool {
    Both(OfTeacher(t), LandsIn(r, f, q))
  }

  ghost predicate TeacherMeetsOnce(r: Problem, f: Placement, t: string, q: Period) {
    OneIdAmong(r.Everyone(), TeacherLandsIn(r, f, t, q))
  }

  lemma TeacherMeetsOnceFor(r: Problem, f: Placement, t: string, q: Period, a: Slot, b: Slot)
    requires TeacherMeetsOnce(r, f, t, q)
    requires a in r.Everyone() && a.teacher == t && PeriodOf(Relocated(r, f, a)) == q
    requires b in r.Everyone() && b.teacher == t && PeriodOf(Relocated(r, f, b)) == q
    ensures a.slotId == b.slotId
  {
    var h := TeacherLandsIn(r, f, t, q);
    assert h(a) && h(b);
  }

  lemma TeacherMeetsOnceIf(r: Problem, f: Placement, t: string, q: Period)
    requires forall a, b | a in r.Everyone() && b in r.Everyone() && a.teacher == t && b.teacher == t
                           && PeriodOf(Relocated(r, f, a)) == q && PeriodOf(Relocated(r, f, b)) == q :: a.slotId == b.slotId
    ensures TeacherMeetsOnce(r, f, t, q)
  {
  }

  lemma StayersStay(r: Problem, f: Placement, xs: seq<Slot>, t: string, q: Period)
    requires IsPlacement(r, f) && forall s :: s in xs ==> s in r.Fixed() || s in r.External()
    ensures Count(xs, OfTeacherIn(t, q)) == Count(xs, TeacherLandsIn(r, f, t, q))
  {
    forall i | 0 <= i < |xs|
      ensures OfTeacherIn(t, q)(xs[i]) == TeacherLandsIn(r, f, t, q)(xs[i])
    {
      StaysPut(r, f, xs[i]);
    }
    CountCongruent(xs, OfTeacherIn(t, q), TeacherLandsIn(r, f, t, q));
  }

  lemma MyColumn(r: Problem, x: Assignment, f: Placement, t: string, p: nat)
    requires WellFormed(r) && Encodes(r, x, f) && p < |r.periods|
    ensures Count(Column(Filter(r.Movable(), OfTeacher(t)), p), Chosen(x))
            == Count(r.Movable(), TeacherLandsIn(r, f, t, r.periods[p]))
  {
    var mine := Filter(r.Movable(), OfTeacher(t));
    forall s | s in mine
      ensures s in r.Movable()
    {
      FilterMember(r.Movable(), OfTeacher(t), s);
    }
    MovableColumn(r, x, f, mine, p);
    CountFilter(r.Movable(), OfTeacher(t), LandsIn(r, f, r.periods[p]));
  }

  lemma MineNonempty(r: Problem, t: string)
    ensures Filter(r.Movable(), OfTeacher(t)) != [] <==> HasMovable(r, t)
  {
    var mine := Filter(r.Movable(), OfTeacher(t));
    if mine != [] {
      FilterMember(r.Movable(), OfTeacher(t), mine[0]);
    }
    if HasMovable(r, t) {
      var s :| s in r.Movable() && s.teacher == t;
      FilterMember(r.Movable(), OfTeacher(t), s);
    }
  }

  lemma TeacherCount(r: Problem, f: Placement, t: string, q: Period)
    requires WellFormed(r)
    ensures var h := TeacherLandsIn(r, f, t, q);
            Count(r.Movable(), h) + Count(r.Fixed(), h) + Count(r.External(), h) <= 1 <==> TeacherMeetsOnce(r, f, t, q)
  {
    var h := TeacherLandsIn(r, f, t, q);
    CountConcat(r.Movable(), r.Fixed(), h);
    CountConcat(ClassRoster(r), r.External(), h);
    SchoolRosterIsEveryone(r);
    AtMostOneById(SchoolRoster(r), h);
    OneIdAmongMembers(SchoolRoster(r), r.Everyone(), h);
  }

  lemma TeacherRoomMeaning(r: Problem, x: Assignment, f: Placement, t: string, p: nat)
    requires WellFormed(r) && Encodes(r, x, f) && p < |r.periods|
    ensures TeacherRoom(r, t, p, x) <==> (HasMovable(r, t) ==> TeacherMeetsOnce(r, f, t, r.periods[p]))
  {
    MineNonempty(r, t);
    MyColumn(r, x, f, t, p);
    StayersStay(r, f, r.Fixed(), t, r.periods[p]);
    StayersStay(r, f, r.External(), t, r.periods[p]);
    TeacherCount(r, f, t, r.periods[p]);
  }

  // ---------------------------------------------------------------- what overlapping means

  lemma {:induction false} LessIsStrict(a: string, b: string)
    ensures !(Less(a, b) && Less(b, a))
    ensures Less(a, b) || Less(b, a) || a == b
    decreases |a|
  {
    if a != "" && b != "" && a[0] == b[0] {
      LessIsStrict(a[1..], b[1..]);
      assert a == [a[0]] + a[1..] && b == [b[0]] + b[1..];
    }
  }

  lemma {:induction false} LessTransitive(a: string, b: string, c: string)
    requires Less(a, b) && Less(b, c)
    ensures Less(a, c)
    decreases |a|
  {
    if a != "" && a[0] == b[0] && b[0] == c[0] {
      LessTransitive(a[1..], b[1..], c[1..]);
    }
  }

  /** Periods that last overlap exactly when they share a moment: from its start on, and before its end. */
  lemma OverlapMeansCommonTime(p: Period, q: Period)
    requires Less(p.start, p.end) && Less(q.start, q.end)
    ensures PeriodsOverlap(p, q) <==>
              p.day == q.day
              && exists t :: !Less(t, p.start) && Less(t, p.end) && !Less(t, q.start) && Less(t, q.end)
  {
    LessIsStrict(p.start, q.start);
    if p.day == q.day && PeriodsOverlap(p, q) {
      var t := if Less(p.start, q.start) then q.start else p.start;
      LessIsStrict(t, t);
      assert !Less(t, p.start) && Less(t, p.end) && !Less(t, q.start) && Less(t, q.end);
    }
    if t :| !Less(t, p.start) && Less(t, p.end) && !Less(t, q.start) && Less(t, q.end) {
      StartsBefore(p.start, t, q.end);
      StartsBefore(q.start, t, p.end);
    }
  }

  lemma StartsBefore(start: string, t: string, end: string)
    requires !Less(t, start) && Less(t, end)
    ensures Less(start, end)
  {
    LessIsStrict(t, start);
    if Less(start, t) {
      LessTransitive(start, t, end);
    }
  }

  // ---------------------------------------------------------------- clashes after the move

  lemma LandsInSomePeriod(r: Problem, f: Placement, s: Slot)
    requires WellFormed(r) && (s in r.Everyone() || s in r.allSlots)
    ensures PeriodOf(Relocated(r, f, s)) in r.periods
  {
    ClassOrExternal(r, s);
    ExternalMember(r, s);
  }

  /** No other slot of the school needs the teacher of `s` while `s` lasts. */
  ghost predicate Undisturbed(r: Problem, f: Placement, s: Slot) {
    forall o | o in r.allSlots && o.slotId != s.slotId && o.teacher == s.teacher ::
      !Overlap(Relocated(r, f, s), Relocated(r, f, o))
  }

  lemma ClashCountMeaning(r: Problem, f: Placement, s: Slot)
    requires s.teacher != ""
    ensures ClashCount(Relocated(r, f, s), RelocatedAll(r, f, r.allSlots)) == 0 <==> Undisturbed(r, f, s)
  {
    var s', all' := Relocated(r, f, s), RelocatedAll(r, f, r.allSlots);
    CountZero(all', ClashesWith(s'));
    if Undisturbed(r, f, s) {
      forall i | 0 <= i < |all'|
        ensures !ClashesWith(s')(all'[i])
      {
        assert r.allSlots[i] in r.allSlots;
      }
    }
    if ClashCount(s', all') == 0 {
      forall o | o in r.allSlots && o.slotId != s.slotId && o.teacher == s.teacher
        ensures !Overlap(s', Relocated(r, f, o))
      {
        var i :| 0 <= i < |r.allSlots| && r.allSlots[i] == o;
        assert !ClashesWith(s')(all'[i]);
      }
    }
  }

  /** Staying where one is: the clash count before the move. */
  lemma ClashCountBefore(r: Problem, s: Slot, o: Slot)
    requires s in r.Fixed() && s.teacher != ""
    requires o in r.allSlots && o.teacher == s.teacher && Overlap(s, o)
    ensures o.slotId == s.slotId
  {
    FixedMember(r, s);
    CountZero(r.allSlots, ClashesWith(s));
    var i :| 0 <= i < |r.allSlots| && r.allSlots[i] == o;
    assert !ClashesWith(s)(r.allSlots[i]);
  }

  /** A slot that clashes has a teacher. */
  lemma MovableHasTeacher(r: Problem, s: Slot)
    requires s in r.Movable()
    ensures s.teacher != "" && s.teacher in Teachers(r) && s in r.classSlots
  {
    MovableMember(r, s);
  }

  /** What the teacher constraints say about a placement. */
  ghost predicate TeachersMeetOnce(r: Problem, f: Placement) {
    forall t, q :: HasMovable(r, t) && q in r.periods ==> TeacherMeetsOnce(r, f, t, q)
  }

  lemma NoMoverStays(r: Problem, f: Placement, s: Slot)
    requires WellFormed(r) && IsPlacement(r, f) && s in r.Everyone() && !HasMovable(r, s.teacher)
    ensures Relocated(r, f, s) == s
  {
    ClassOrExternal(r, s);
    MovableMember(r, s);
    FixedMember(r, s);
    StaysPut(r, f, s);
  }

  lemma MeetingOncePair(r: Problem, f: Placement, a: Slot, b: Slot)
    requires WellFormed(r) && TeachersMeetOnce(r, f)
    requires a in r.Everyone() && b in r.Everyone() && a.teacher == b.teacher && HasMovable(r, a.teacher)
    requires PeriodOf(Relocated(r, f, a)) == PeriodOf(Relocated(r, f, b))
    ensures a.slotId == b.slotId
  {
    LandsInSomePeriod(r, f, a);
    TeacherMeetsOnceFor(r, f, a.teacher, PeriodOf(Relocated(r, f, a)), a, b);
  }

  lemma OneAtATimeTeacher(r: Problem, f: Placement, t: string, q: Period)
    requires OneAtATime(r, f) && HasMovable(r, t)
    ensures TeacherMeetsOnce(r, f, t, q)
  {
    TeacherMeetsOnceIf(r, f, t, q);
  }

  lemma MeetingOnceGivesOneAtATime(r: Problem, f: Placement)
    requires WellFormed(r) && TeachersMeetOnce(r, f)
    ensures OneAtATime(r, f)
  {
    forall a, b | a in r.Everyone() && b in r.Everyone() && a.teacher == b.teacher && HasMovable(r, a.teacher)
                  && PeriodOf(Relocated(r, f, a)) == PeriodOf(Relocated(r, f, b))
      ensures a.slotId == b.slotId
    {
      MeetingOncePair(r, f, a, b);
    }
  }

  lemma OneAtATimeGivesMeetingOnce(r: Problem, f: Placement)
    requires OneAtATime(r, f)
    ensures TeachersMeetOnce(r, f)
  {
    forall t, q | HasMovable(r, t) && q in r.periods
      ensures TeacherMeetsOnce(r, f, t, q)
    {
      OneAtATimeTeacher(r, f, t, q);
    }
    TeachersMeetOnceIf(r, f);
  }

  /** Meeting once is being in no period twice. */
  lemma MeetingOnceIsOneAtATime(r: Problem, f: Placement)
    requires WellFormed(r)
    ensures TeachersMeetOnce(r, f) <==> OneAtATime(r, f)
  {
    if TeachersMeetOnce(r, f) {
      MeetingOnceGivesOneAtATime(r, f);
    } else if OneAtATime(r, f) {
      OneAtATimeGivesMeetingOnce(r, f);
    }
  }

  lemma OneAtATimePair(r: Problem, f: Placement, s: Slot, o: Slot)
    requires WellFormed(r) && IsPlacement(r, f) && OneAtATime(r, f) && Disjoint(r.periods) && Covered(r)
    requires s in r.classSlots && o in r.allSlots && s.teacher != "" && o.teacher == s.teacher
    requires Overlap(Relocated(r, f, s), Relocated(r, f, o))
    ensures o.slotId == s.slotId
  {
    EveryoneIsTheSchool(r, s);
    EveryoneIsTheSchool(r, o);
    LandsInSomePeriod(r, f, s);
    LandsInSomePeriod(r, f, o);
    if !HasMovable(r, s.teacher) {
      NoMoverStays(r, f, s);
      NoMoverStays(r, f, o);
      MovableMember(r, s);
      FixedMember(r, s);
      ClashCountBefore(r, s, o);
    }
  }

  /** Where periods do not overlap, being in no period twice is enough to be free of clashes. */
  lemma OneAtATimeIsClashFree(r: Problem, f: Placement)
    requires WellFormed(r) && IsPlacement(r, f) && OneAtATime(r, f) && Disjoint(r.periods) && Covered(r)
    ensures ClashFree(r, f)
  {
    forall s | s in r.classSlots
      ensures ClashCount(Relocated(r, f, s), RelocatedAll(r, f, r.allSlots)) == 0
    {
      if s.teacher != "" {
        ClashCountMeaning(r, f, s);
        forall o | o in r.allSlots && o.slotId != s.slotId && o.teacher == s.teacher
          ensures !Overlap(Relocated(r, f, s), Relocated(r, f, o))
        {
          if Overlap(Relocated(r, f, s), Relocated(r, f, o)) {
            OneAtATimePair(r, f, s, o);
          }
        }
      }
    }
  }

  lemma OneAtATimeIsNotOverloaded(r: Problem, f: Placement)
    requires WellFormed(r) && IsPlacement(r, f) && OneAtATime(r, f)
    ensures NoExternalOverload(r)
  {
    forall s, a, b | s in r.Movable() && a in r.External() && b in r.External()
                     && a.teacher == s.teacher && b.teacher == s.teacher && PeriodOf(a) == PeriodOf(b)
      ensures a.slotId == b.slotId
    {
      StaysPut(r, f, a);
      StaysPut(r, f, b);
      ClassOrExternal(r, a);
      ClassOrExternal(r, b);
      assert HasMovable(r, a.teacher);
    }
  }

  lemma ClashFreePair(r: Problem, f: Placement, m: Slot, a: Slot, b: Slot)
    requires WellFormed(r) && IsPlacement(r, f) && ClashFree(r, f) && NoExternalOverload(r) && Proper(r.periods) && Covered(r)
    requires m in r.Movable() && a in r.Everyone() && b in r.Everyone()
    requires a.teacher == m.teacher && b.teacher == m.teacher
    requires PeriodOf(Relocated(r, f, a)) == PeriodOf(Relocated(r, f, b))
    ensures a.slotId == b.slotId
  {
    MovableHasTeacher(r, m);
    ClassOrExternal(r, a);
    ClassOrExternal(r, b);
    EveryoneIsTheSchool(r, a);
    EveryoneIsTheSchool(r, b);
    LandsInSomePeriod(r, f, a);
    assert Overlap(Relocated(r, f, a), Relocated(r, f, b)) && Overlap(Relocated(r, f, b), Relocated(r, f, a));
    if a in r.classSlots {
      ClashCountMeaning(r, f, a);
    } else if b in r.classSlots {
      ClashCountMeaning(r, f, b);
    } else {
      StaysPut(r, f, a);
      StaysPut(r, f, b);
    }
  }

  lemma MoverOf(r: Problem, t: string) returns (m: Slot)
    requires HasMovable(r, t)
    ensures m in r.Movable() && m.teacher == t
  {
    m :| m in r.Movable() && m.teacher == t;
  }

  lemma TeachersMeetOnceIf(r: Problem, f: Placement)
    requires forall t, q | HasMovable(r, t) && q in r.periods :: TeacherMeetsOnce(r, f, t, q)
    ensures TeachersMeetOnce(r, f)
  {
  }

  /** Where periods last, being free of clashes leaves room for one kind of double booking only. */
  lemma ClashFreeIsOneAtATime(r: Problem, f: Placement)
    requires WellFormed(r) && IsPlacement(r, f) && ClashFree(r, f) && NoExternalOverload(r) && Proper(r.periods) && Covered(r)
    ensures OneAtATime(r, f)
  {
    forall a, b | a in r.Everyone() && b in r.Everyone() && a.teacher == b.teacher && HasMovable(r, a.teacher)
                  && PeriodOf(Relocated(r, f, a)) == PeriodOf(Relocated(r, f, b))
      ensures a.slotId == b.slotId
    {
      var m := MoverOf(r, a.teacher);
      ClashFreePair(r, f, m, a, b);
    }
  }

  // ---------------------------------------------------------------- the main results

  ghost predicate ClassMeetsOnceWherePossible(r: Problem, f: Placement) {
    forall q :: q in r.periods ==> Crowded(r, q) || ClassMeetsOnce(r, f, q)
  }

  lemma UncrowdedPair(r: Problem, f: Placement, q: Period, a: Slot, b: Slot)
    requires BookedOnceWherePossible(r, f) && !Crowded(r, q)
    requires a in r.classSlots && b in r.classSlots
    requires PeriodOf(Relocated(r, f, a)) == q && PeriodOf(Relocated(r, f, b)) == q
    ensures a.slotId == b.slotId
  {
  }

  lemma OneIdIfPairs(r: Problem, f: Placement, q: Period)
    requires forall a, b | a in r.classSlots && b in r.classSlots
                           && PeriodOf(Relocated(r, f, a)) == q && PeriodOf(Relocated(r, f, b)) == q :: a.slotId == b.slotId
    ensures OneIdAmong(r.classSlots, LandsIn(r, f, q))
  {
  }

  lemma UncrowdedOneId(r: Problem, f: Placement, q: Period)
    requires BookedOnceWherePossible(r, f) && !Crowded(r, q)
    ensures OneIdAmong(r.classSlots, LandsIn(r, f, q))
  {
    forall a, b | a in r.classSlots && b in r.classSlots
                  && PeriodOf(Relocated(r, f, a)) == q && PeriodOf(Relocated(r, f, b)) == q
      ensures a.slotId == b.slotId
    {
      UncrowdedPair(r, f, q, a, b);
    }
    OneIdIfPairs(r, f, q);
  }

  lemma ClassMeetsOnceIf(r: Problem, f: Placement, q: Period)
    requires UniqueIds(r.classSlots) && BookedOnceWherePossible(r, f) && !Crowded(r, q)
    ensures ClassMeetsOnce(r, f, q)
  {
    UncrowdedOneId(r, f, q);
    AtMostOneById(r.classSlots, LandsIn(r, f, q));
  }

  lemma ClassMeetsOnceFor(r: Problem, f: Placement, a: Slot, b: Slot)
    requires WellFormed(r) && ClassMeetsOnceWherePossible(r, f)
    requires a in r.classSlots && b in r.classSlots && a.slotId != b.slotId
    requires PeriodOf(Relocated(r, f, a)) == PeriodOf(Relocated(r, f, b))
    ensures Crowded(r, PeriodOf(Relocated(r, f, a)))
  {
    var q := PeriodOf(Relocated(r, f, a));
    LandsInSomePeriod(r, f, a);
    var h := LandsIn(r, f, q);
    assert h(a) && h(b);
    AtMostOneById(r.classSlots, h);
  }

  lemma BookedOnceMeaning(r: Problem, f: Placement)
    requires WellFormed(r)
    ensures ClassMeetsOnceWherePossible(r, f) <==> BookedOnceWherePossible(r, f)
  {
    if ClassMeetsOnceWherePossible(r, f) {
      forall a, b | a in r.classSlots && b in r.classSlots && a.slotId != b.slotId
                    && PeriodOf(Relocated(r, f, a)) == PeriodOf(Relocated(r, f, b))
        ensures Crowded(r, PeriodOf(Relocated(r, f, a)))
      {
        ClassMeetsOnceFor(r, f, a, b);
      }
    }
    if BookedOnceWherePossible(r, f) {
      forall q | q in r.periods && !Crowded(r, q)
        ensures ClassMeetsOnce(r, f, q)
      {
        ClassMeetsOnceIf(r, f, q);
      }
    }
  }

  lemma ClassRoomsMeaning(r: Problem, x: Assignment, f: Placement)
    requires WellFormed(r) && Encodes(r, x, f)
    ensures ClassRooms(r, x) <==> ClassMeetsOnceWherePossible(r, f)
  {
    forall p | 0 <= p < |r.periods|
      ensures ClassRoom(r, p, x) <==> Crowded(r, r.periods[p]) || ClassMeetsOnce(r, f, r.periods[p])
    {
      ClassRoomMeaning(r, x, f, p);
    }
    ClassRoomsByPeriod(r, x, f);
  }

  lemma ClassRoomsByPeriod(r: Problem, x: Assignment, f: Placement)
    requires forall p :: 0 <= p < |r.periods| ==>
               (ClassRoom(r, p, x) <==> Crowded(r, r.periods[p]) || ClassMeetsOnce(r, f, r.periods[p]))
    ensures ClassRooms(r, x) <==> ClassMeetsOnceWherePossible(r, f)
  {
    if ClassRooms(r, x) {
      forall q | q in r.periods
        ensures Crowded(r, q) || ClassMeetsOnce(r, f, q)
      {
        var p :| 0 <= p < |r.periods| && r.periods[p] == q;
        assert ClassRoom(r, p, x);
      }
    }
  }

  lemma MoverIsTeacher(r: Problem, t: string)
    requires HasMovable(r, t)
    ensures t in Teachers(r)
  {
    var s :| s in r.Movable() && s.teacher == t;
    MovableHasTeacher(r, s);
  }

  lemma TeacherRoomsMeaning(r: Problem, x: Assignment, f: Placement)
    requires WellFormed(r) && Encodes(r, x, f)
    ensures TeacherRooms(r, x) <==> TeachersMeetOnce(r, f)
  {
    forall t, p | 0 <= p < |r.periods|
      ensures TeacherRoom(r, t, p, x) <==> (HasMovable(r, t) ==> TeacherMeetsOnce(r, f, t, r.periods[p]))
    {
      TeacherRoomMeaning(r, x, f, t, p);
    }
    TeacherRoomsByPeriod(r, x, f);
  }

  lemma TeacherRoomsByPeriod(r: Problem, x: Assignment, f: Placement)
    requires forall t, p :: 0 <= p < |r.periods| ==>
               (TeacherRoom(r, t, p, x) <==> (HasMovable(r, t) ==> TeacherMeetsOnce(r, f, t, r.periods[p])))
    ensures TeacherRooms(r, x) <==> TeachersMeetOnce(r, f)
  {
    if TeacherRooms(r, x) {
      forall t, q | HasMovable(r, t) && q in r.periods
        ensures TeacherMeetsOnce(r, f, t, q)
      {
        MoverIsTeacher(r, t);
        var p :| 0 <= p < |r.periods| && r.periods[p] == q;
        assert TeacherRoom(r, t, p, x);
      }
    }
  }

  /**
   * An assignment that encodes a placement meets the capacity constraints exactly when the placement
   * books the class once in every period where that is still possible, and puts no teacher who has a
   * movable slot into a period twice. This holds whatever the periods are.
   */
  lemma EncodingIsExact(r: Problem, x: Assignment, f: Placement)
    requires WellFormed(r) && Encodes(r, x, f)
    ensures Capacities(r, x) <==> BookedOnceWherePossible(r, f) && OneAtATime(r, f)
  {
    ClassRoomsMeaning(r, x, f);
    TeacherRoomsMeaning(r, x, f);
    BookedOnceMeaning(r, f);
    MeetingOnceIsOneAtATime(r, f);
  }

  /**
   * What that means for clashes, where the class is part of the school: it excludes them where periods do
   * not overlap, and where periods last it demands no more, except that other classes do not double-book
   * such a teacher among themselves.
   */
  lemma OneAtATimeMeaning(r: Problem, f: Placement)
    requires WellFormed(r) && IsPlacement(r, f)
    ensures OneAtATime(r, f) ==> NoExternalOverload(r)
    ensures Covered(r) && Disjoint(r.periods) && OneAtATime(r, f) ==> ClashFree(r, f)
    ensures Covered(r) && Proper(r.periods) && ClashFree(r, f) && NoExternalOverload(r) ==> OneAtATime(r, f)
  {
    if OneAtATime(r, f) {
      OneAtATimeIsNotOverloaded(r, f);
      if Disjoint(r.periods) && Covered(r) {
        OneAtATimeIsClashFree(r, f);
      }
    } else if Proper(r.periods) && ClashFree(r, f) && NoExternalOverload(r) && Covered(r) {
      ClashFreeIsOneAtATime(r, f);
    }
  }

  /** With at most one immovable class slot a period, that is: no double-booking anywhere. */
  lemma UncrowdedMeansBookedOnce(r: Problem, f: Placement)
    requires WellFormed(r) && IsPlacement(r, f)
    ensures BookedOnce(r, f) <==> BookedOnceWherePossible(r, f) && forall q :: q in r.periods ==> !Crowded(r, q)
  {
    if BookedOnce(r, f) {
      forall q | q in r.periods
        ensures !Crowded(r, q)
      {
        if Crowded(r, q) {
          CrowdedMeaning(r, q);
          var a, b :| a in r.Fixed() && b in r.Fixed() && a.slotId != b.slotId && PeriodOf(a) == q && PeriodOf(b) == q;
          FixedMember(r, a);
          FixedMember(r, b);
          StaysPut(r, f, a);
          StaysPut(r, f, b);
        }
      }
    } else {
      var a, b :| a in r.classSlots && b in r.classSlots && a.slotId != b.slotId
                  && PeriodOf(Relocated(r, f, a)) == PeriodOf(Relocated(r, f, b));
      LandsInSomePeriod(r, f, a);
    }
  }
}
