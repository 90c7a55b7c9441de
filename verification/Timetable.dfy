/**
 * Repairing a class timetable by solving a boolean constraint problem. The encoding is proved to accept
 * exactly the placements with one booking per period of each teacher who has a slot to move. Where periods
 * last and do not overlap, these are the ones that resolve every clash, if other classes leave any.
 */
module Timetable {
  import opened Counting

  /** Times are strings and compare as strings. An empty teacher means none is assigned. */
  datatype Slot = Slot(slotId: string, teacher: string, day: int, start: string, end: string)

  datatype Period = Period(day: int, start: string, end: string)

  function PeriodOf(s: Slot): Period {
    Period(s.day, s.start, s.end)
  }

  predicate Less(a: string, b: string) {
    if b == "" then false
    else if a == "" then true
    else if a[0] != b[0] then a[0] < b[0]
    else Less(a[1..], b[1..])
  }

  predicate PeriodsOverlap(p: Period, q: Period) {
    p.day == q.day && Less(p.start, q.end) && Less(q.start, p.end)
  }

  /** `_overlap` */
  predicate Overlap(a: Slot, b: Slot) {
    PeriodsOverlap(PeriodOf(a), PeriodOf(b))
  }

  function ClashesWith(s: Slot): Slot -> bool {
    (other: Slot) => other.slotId != s.slotId && other.teacher == s.teacher && Overlap(s, other)
  }

  /** `_clash_count` */
  function ClashCount(s: Slot, all: seq<Slot>): nat {
    if s.teacher == "" then 0 else Count(all, ClashesWith(s))
  }

  // ---------------------------------------------------------------- the problem

  /** The class's slots, every slot of the school, and the periods that occur. */
  datatype Problem = Problem(classSlots: seq<Slot>, allSlots: seq<Slot>, periods: seq<Period>) {
    function Clashing(): Slot -> bool {
      (s: Slot) => ClashCount(s, allSlots) > 0
    }

    function Quiet(): Slot -> bool {
      (s: Slot) => ClashCount(s, allSlots) == 0
    }

    function Movable(): seq<Slot> {
      Filter(classSlots, Clashing())
    }

    function Fixed(): seq<Slot> {
      Filter(classSlots, Quiet())
    }

    function ClassIds(): set<string> {
      set s | s in classSlots :: s.slotId
    }

    function Elsewhere(): Slot -> bool {
      var ids := ClassIds();
      (s: Slot) => s.slotId !in ids
    }

    /** The slots of other classes. */
    function External(): seq<Slot> {
      Filter(allSlots, Elsewhere())
    }

    function Everyone(): seq<Slot> {
      classSlots + External()
    }
  }

  predicate UniqueIds(xs: seq<Slot>) {
    forall i, j :: 0 <= i < j < |xs| ==> xs[i].slotId != xs[j].slotId
  }

  predicate DistinctPeriods(ps: seq<Period>) {
    forall i, j :: 0 <= i < j < |ps| ==> ps[i] != ps[j]
  }

  /** Two different periods do not overlap. */
  ghost predicate Disjoint(ps: seq<Period>) {
    forall p, q {:trigger PeriodsOverlap(p, q)} :: p in ps && q in ps && PeriodsOverlap(p, q) ==> p == q
  }

  /** Periods last: each overlaps itself. */
  ghost predicate Proper(ps: seq<Period>) {
    forall p :: p in ps ==> PeriodsOverlap(p, p)
  }

  ghost predicate WellFormed(r: Problem) {
    && UniqueIds(r.classSlots) && UniqueIds(r.allSlots)
    && (forall s :: s in r.classSlots || s in r.allSlots ==> PeriodOf(s) in r.periods)
    && DistinctPeriods(r.periods)
  }

  /** The slots of the school include those of the class. */
  ghost predicate Covered(r: Problem) {
    forall s :: s in r.classSlots ==> s in r.allSlots
  }

  /** `_period_index`: the first position of a period. */
  function PeriodIndex(ps: seq<Period>, p: Period): (i: nat)
    requires p in ps
    ensures i < |ps| && ps[i] == p
  {
    if ps[0] == p then 0 else 1 + PeriodIndex(ps[1..], p)
  }

  // ---------------------------------------------------------------- placements

  /** A new period for each movable slot, by slot id. */
  type Placement = map<string, nat>

  ghost predicate IsPlacement(r: Problem, f: Placement) {
    && (forall s :: s in r.Movable() ==> s.slotId in f && f[s.slotId] < |r.periods|)
    && (forall s :: s in r.Fixed() || s in r.External() ==> s.slotId !in f)
  }

  function Relocated(r: Problem, f: Placement, s: Slot): Slot {
    if s.slotId in f && f[s.slotId] < |r.periods|
    then s.(day := r.periods[f[s.slotId]].day, start := r.periods[f[s.slotId]].start, end := r.periods[f[s.slotId]].end)
    else s
  }

  function RelocatedAll(r: Problem, f: Placement, xs: seq<Slot>): (ys: seq<Slot>)
    ensures |ys| == |xs| && forall i :: 0 <= i < |xs| ==> ys[i] == Relocated(r, f, xs[i])
  {
    if xs == [] then [] else [Relocated(r, f, xs[0])] + RelocatedAll(r, f, xs[1..])
  }

  /** After the move no class slot shares its teacher's time with any other slot of the school. */
  ghost predicate ClashFree(r: Problem, f: Placement) {
    forall s :: s in r.classSlots ==> ClashCount(Relocated(r, f, s), RelocatedAll(r, f, r.allSlots)) == 0
  }

  /** No two class slots end up in the same period. */
  ghost predicate BookedOnce(r: Problem, f: Placement) {
    forall a, b :: a in r.classSlots && b in r.classSlots && a.slotId != b.slotId ==>
      PeriodOf(Relocated(r, f, a)) != PeriodOf(Relocated(r, f, b))
  }

  /** The same, but only in the periods that do not already hold two immovable class slots. */
  ghost predicate BookedOnceWherePossible(r: Problem, f: Placement) {
    forall a, b | a in r.classSlots && b in r.classSlots && a.slotId != b.slotId
                  && PeriodOf(Relocated(r, f, a)) == PeriodOf(Relocated(r, f, b)) ::
      Crowded(r, PeriodOf(Relocated(r, f, a)))
  }

  function InPeriod(p: Period): Slot -> bool {
    (s: Slot) => PeriodOf(s) == p
  }

  /** Two or more slots of the class that cannot be moved share the period. */
  predicate Crowded(r: Problem, p: Period) {
    Count(r.Fixed(), InPeriod(p)) > 1
  }

  ghost predicate HasMovable(r: Problem, t: string) {
    exists s :: s in r.Movable() && s.teacher == t
  }

  /** A teacher who has a movable slot is in no period twice, neither in the class nor elsewhere. */
  ghost predicate OneAtATime(r: Problem, f: Placement) {
    forall a, b | a in r.Everyone() && b in r.Everyone() && a.teacher == b.teacher && HasMovable(r, a.teacher)
                  && PeriodOf(Relocated(r, f, a)) == PeriodOf(Relocated(r, f, b)) ::
      a.slotId == b.slotId
  }

  /** A teacher who has a movable slot is not booked twice at one time by other classes alone. */
  ghost predicate NoExternalOverload(r: Problem) {
    forall s, a, b | s in r.Movable() && a in r.External() && b in r.External()
                     && a.teacher == s.teacher && b.teacher == s.teacher && PeriodOf(a) == PeriodOf(b) ::
      a.slotId == b.slotId
  }

  // ---------------------------------------------------------------- the constraint model

  /** The boolean "slot `slotId` goes to period `period`". */
  datatype Var = Var(slotId: string, period: nat)

  /** An assignment is the set of variables that are true. */
  type Assignment = set<Var>

  datatype Constraint =
    | ExactlyOne(vars: seq<Var>)
    | AtMostOneWith(vars: seq<Var>, taken: nat)

  datatype Model = Model(constraints: seq<Constraint>, objective: seq<Var>)

  function Chosen(x: Assignment): Var -> bool {
    v => v in x
  }

  predicate Holds(c: Constraint, x: Assignment) {
    match c
    case ExactlyOne(vars) => Count(vars, Chosen(x)) == 1
    case AtMostOneWith(vars, taken) => Count(vars, Chosen(x)) + taken <= 1
  }

  predicate Satisfies(cs: seq<Constraint>, x: Assignment) {
    forall i :: 0 <= i < |cs| ==> Holds(cs[i], x)
  }

  function Row(slotId: string, n: nat): (vars: seq<Var>)
    ensures |vars| == n && forall i :: 0 <= i < n ==> vars[i] == Var(slotId, i)
  {
    if n == 0 then [] else Row(slotId, n - 1) + [Var(slotId, n - 1)]
  }

  function Column(xs: seq<Slot>, p: nat): (vars: seq<Var>)
    ensures |vars| == |xs| && forall i :: 0 <= i < |xs| ==> vars[i] == Var(xs[i].slotId, p)
  {
    if xs == [] then [] else [Var(xs[0].slotId, p)] + Column(xs[1..], p)
  }

  function OfTeacher(t: string): Slot -> bool {
    (s: Slot) => s.teacher == t
  }

  function OfTeacherIn(t: string, p: Period): Slot -> bool {
    Both(OfTeacher(t), InPeriod(p))
  }

  predicate ClassRoom(r: Problem, p: nat, x: Assignment)
    requires p < |r.periods|
  {
    var fixedHere := Count(r.Fixed(), InPeriod(r.periods[p]));
    fixedHere <= 1 ==> Count(Column(r.Movable(), p), Chosen(x)) + fixedHere <= 1
  }

  predicate TeacherRoom(r: Problem, t: string, p: nat, x: Assignment)
    requires p < |r.periods|
  {
    var mine := Filter(r.Movable(), OfTeacher(t));
    mine != [] ==>
      Count(Column(mine, p), Chosen(x)) + Count(r.Fixed(), OfTeacherIn(t, r.periods[p]))
      + Count(r.External(), OfTeacherIn(t, r.periods[p])) <= 1
  }

  function Teachers(r: Problem): set<string> {
    set s | s in r.classSlots && s.teacher != "" :: s.teacher
  }

  ghost predicate EachPlacedOnce(r: Problem, x: Assignment) {
    forall s :: s in r.Movable() ==> Count(Row(s.slotId, |r.periods|), Chosen(x)) == 1
  }

  ghost predicate ClassRooms(r: Problem, x: Assignment) {
    forall p :: 0 <= p < |r.periods| ==> ClassRoom(r, p, x)
  }

  ghost predicate TeacherRooms(r: Problem, x: Assignment) {
    forall t, p :: t in Teachers(r) && 0 <= p < |r.periods| ==> TeacherRoom(r, t, p, x)
  }

  ghost predicate Capacities(r: Problem, x: Assignment) {
    ClassRooms(r, x) && TeacherRooms(r, x)
  }

  /** Everything the constraints demand of an assignment. */
  ghost predicate Meets(r: Problem, x: Assignment) {
    EachPlacedOnce(r, x) && Capacities(r, x)
  }
}
