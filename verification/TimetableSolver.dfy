/** Building the constraint model, handing it to a solver, and reading the answer back. */
module TimetableSolver {
  import opened Text
  import opened Counting
  import opened Timetable
  import opened TimetableLaws

  // ---------------------------------------------------------------- the order of the periods

  predicate PeriodLess(p: Period, q: Period) {
    || p.day < q.day
    || (p.day == q.day && (Less(p.start, q.start) || (p.start == q.start && Less(p.end, q.end))))
  }

  lemma PeriodLessIsStrict(p: Period, q: Period)
    ensures !(PeriodLess(p, q) && PeriodLess(q, p))
    ensures PeriodLess(p, q) || PeriodLess(q, p) || p == q
  {
    LessIsStrict(p.start, q.start);
    LessIsStrict(p.end, q.end);
  }

  lemma PeriodLessTransitive(p: Period, q: Period, s: Period)
    requires PeriodLess(p, q) && PeriodLess(q, s)
    ensures PeriodLess(p, s)
  {
    if p.day == q.day == s.day {
      if Less(p.start, q.start) && Less(q.start, s.start) {
        LessTransitive(p.start, q.start, s.start);
      }
      if Less(p.end, q.end) && Less(q.end, s.end) {
        LessTransitive(p.end, q.end, s.end);
      }
    }
  }

  ghost predicate Sorted(ps: seq<Period>) {
    forall i, j :: 0 <= i < j < |ps| ==> PeriodLess(ps[i], ps[j])
  }

  /** Insert into its place in sorted order. */
  function Insert(p: Period, ps: seq<Period>): seq<Period> {
    if ps == [] then [p]
    else if PeriodLess(ps[0], p) then [ps[0]] + Insert(p, ps[1..])
    else [p] + ps
  }

  lemma {:induction false} InsertMember(p: Period, ps: seq<Period>, q: Period)
    ensures q in Insert(p, ps) <==> q == p || q in ps
  {
    if ps != [] && PeriodLess(ps[0], p) {
      InsertMember(p, ps[1..], q);
    }
  }

  lemma SortedCons(p: Period, ps: seq<Period>)
    requires Sorted(ps) && forall q :: q in ps ==> PeriodLess(p, q)
    ensures Sorted([p] + ps)
  {
  }

  lemma SortedTail(ps: seq<Period>)
    requires Sorted(ps) && ps != []
    ensures Sorted(ps[1..]) && forall q :: q in ps[1..] ==> PeriodLess(ps[0], q)
  {
    assert forall i :: 0 <= i < |ps| - 1 ==> ps[1..][i] == ps[i + 1];
  }

  lemma {:induction false} InsertSorted(p: Period, ps: seq<Period>)
    requires Sorted(ps) && p !in ps
    ensures Sorted(Insert(p, ps))
  {
    if ps != [] {
      SortedTail(ps);
      if PeriodLess(ps[0], p) {
        InsertSorted(p, ps[1..]);
        forall q | q in Insert(p, ps[1..])
          ensures PeriodLess(ps[0], q)
        {
          InsertMember(p, ps[1..], q);
        }
        SortedCons(ps[0], Insert(p, ps[1..]));
      } else {
        PeriodLessIsStrict(ps[0], p);
        forall q | q in ps
          ensures PeriodLess(p, q)
        {
          if q != ps[0] {
            PeriodLessTransitive(p, ps[0], q);
          }
        }
        SortedCons(p, ps);
      }
    }
  }

  lemma SortedAreDistinct(ps: seq<Period>)
    requires Sorted(ps)
    ensures DistinctPeriods(ps)
  {
    forall i, j | 0 <= i < j < |ps|
      ensures ps[i] != ps[j]
    {
      PeriodLessIsStrict(ps[i], ps[j]);
    }
  }

  /** The periods that occur in the given slots, each once, in order. */
  method CollectPeriods(groups: seq<seq<Slot>>) returns (periods: seq<Period>)
    ensures Sorted(periods) && DistinctPeriods(periods)
    ensures forall i, j :: 0 <= i < j < |periods| ==>
              periods[i].day < periods[j].day
              || (periods[i].day == periods[j].day && (Less(periods[i].start, periods[j].start)
                  || (periods[i].start == periods[j].start && Less(periods[i].end, periods[j].end))))
    ensures forall p :: p in periods <==> exists g, i :: 0 <= g < |groups| && 0 <= i < |groups[g]| && PeriodOf(groups[g][i]) == p
  {
    var seen: seq<Period> := [];
    for g := 0 to |groups|
      invariant forall p :: p in seen <==> exists h, i :: 0 <= h < g && 0 <= i < |groups[h]| && PeriodOf(groups[h][i]) == p
      invariant DistinctPeriods(seen)
    {
      seen := CollectGroup(seen, groups[g]);
    }
    periods := SortPeriods(seen);
    SortedAreDistinct(periods);
  }

  method CollectGroup(before: seq<Period>, group: seq<Slot>) returns (seen: seq<Period>)
    requires DistinctPeriods(before)
    ensures DistinctPeriods(seen)
    ensures forall p :: p in seen <==> p in before || exists i :: 0 <= i < |group| && PeriodOf(group[i]) == p
  {
    seen := before;
    for n := 0 to |group|
      invariant DistinctPeriods(seen)
      invariant forall p :: p in seen <==> p in before || exists i :: 0 <= i < n && PeriodOf(group[i]) == p
    {
      if PeriodOf(group[n]) !in seen {
        seen := seen + [PeriodOf(group[n])];
      }
    }
  }

  method SortPeriods(seen: seq<Period>) returns (periods: seq<Period>)
    requires DistinctPeriods(seen)
    ensures Sorted(periods)
    ensures forall p :: p in periods <==> p in seen
  {
    periods := [];
    for n := 0 to |seen|
      invariant Sorted(periods)
      invariant forall p :: p in periods <==> p in seen[..n]
    {
      assert seen[n] !in seen[..n];
      InsertSorted(seen[n], periods);
      forall q
        ensures q in Insert(seen[n], periods) <==> q in seen[..n + 1]
      {
        InsertMember(seen[n], periods, q);
        assert seen[..n + 1] == seen[..n] + [seen[n]];
      }
      periods := Insert(seen[n], periods);
    }
    assert seen[..|seen|] == seen;
  }

  // ---------------------------------------------------------------- reading an answer

  /** The first period chosen for the slot from `p` on, or where it is now. */
  function FirstChosen(x: Assignment, slotId: string, p: nat, n: nat, current: nat): nat
    requires p <= n
    decreases n - p
  {
    if p == n then current
    else if Var(slotId, p) in x then p
    else FirstChosen(x, slotId, p + 1, n, current)
  }

  lemma {:induction false} FirstChosenIs(x: Assignment, slotId: string, p: nat, n: nat, current: nat, at: nat)
    requires p <= at < n && Var(slotId, at) in x
    requires forall q :: p <= q < at ==> Var(slotId, q) !in x
    ensures FirstChosen(x, slotId, p, n, current) == at
    decreases n - p
  {
    if p < at {
      FirstChosenIs(x, slotId, p + 1, n, current, at);
    }
  }

  function CurrentIndex(r: Problem, s: Slot): nat {
    if PeriodOf(s) in r.periods then PeriodIndex(r.periods, PeriodOf(s)) else 0
  }

  function Decode(r: Problem, x: Assignment, xs: seq<Slot>): Placement {
    if xs == [] then map[]
    else Decode(r, x, xs[1..])[xs[0].slotId := FirstChosen(x, xs[0].slotId, 0, |r.periods|, CurrentIndex(r, xs[0]))]
  }

  lemma {:induction false} DecodeKeys(r: Problem, x: Assignment, xs: seq<Slot>, id: string)
    ensures id in Decode(r, x, xs) <==> exists s :: s in xs && s.slotId == id
  {
    if xs != [] {
      DecodeKeys(r, x, xs[1..], id);
      if id == xs[0].slotId {
        assert xs[0] in xs;
      }
      if exists s :: s in xs[1..] && s.slotId == id {
        var s :| s in xs[1..] && s.slotId == id;
        assert s in xs;
      }
      if exists s :: s in xs && s.slotId == id && id != xs[0].slotId {
        var s :| s in xs && s.slotId == id;
        assert s in xs[1..];
      }
    }
  }

  lemma {:induction false} DecodeAt(r: Problem, x: Assignment, xs: seq<Slot>, s: Slot)
    requires UniqueIds(xs) && s in xs
    ensures s.slotId in Decode(r, x, xs)
    ensures Decode(r, x, xs)[s.slotId] == FirstChosen(x, s.slotId, 0, |r.periods|, CurrentIndex(r, s))
  {
    assert forall i :: 0 <= i < |xs| - 1 ==> xs[1..][i] == xs[i + 1];
    if s != xs[0] {
      DecodeAt(r, x, xs[1..], s);
      var i :| 0 <= i < |xs| && xs[i] == s;
      assert xs[0].slotId != xs[i].slotId;
    }
  }

  /** Among the variables of one slot, exactly the one for period `at` is true. */
  predicate OnlyAt(x: Assignment, slotId: string, n: nat, at: nat) {
    at < n && forall p :: 0 <= p < n ==> (Var(slotId, p) in x <==> p == at)
  }

  lemma PlacedOnceAt(x: Assignment, slotId: string, n: nat) returns (at: nat)
    requires Count(Row(slotId, n), Chosen(x)) == 1
    ensures OnlyAt(x, slotId, n, at)
  {
    var row := Row(slotId, n);
    at := FindOne(row, Chosen(x));
    AtMostOne(row, Chosen(x));
    forall p | 0 <= p < n
      ensures Var(slotId, p) in x <==> p == at
    {
      assert Chosen(x)(row[p]) <==> Var(slotId, p) in x;
      assert Chosen(x)(row[at]);
    }
  }

  lemma OnlyAtIsPlacedOnce(x: Assignment, slotId: string, n: nat, at: nat)
    requires OnlyAt(x, slotId, n, at)
    ensures Count(Row(slotId, n), Chosen(x)) == 1
  {
    var row := Row(slotId, n);
    CountAtLeastOne(row, Chosen(x), at);
    assert forall p :: 0 <= p < n ==> (Chosen(x)(row[p]) <==> p == at);
    AtMostOne(row, Chosen(x));
  }

  lemma DecodedOnce(r: Problem, x: Assignment, s: Slot)
    requires Count(Row(s.slotId, |r.periods|), Chosen(x)) == 1
    ensures OnlyAt(x, s.slotId, |r.periods|, FirstChosen(x, s.slotId, 0, |r.periods|, CurrentIndex(r, s)))
  {
    var at := PlacedOnceAt(x, s.slotId, |r.periods|);
    FirstChosenIs(x, s.slotId, 0, |r.periods|, CurrentIndex(r, s), at);
  }

  function DecodeAll(r: Problem, x: Assignment): Placement {
    Decode(r, x, r.Movable())
  }

  lemma DecodedIsPlacement(r: Problem, x: Assignment)
    requires WellFormed(r) && EachPlacedOnce(r, x)
    ensures IsPlacement(r, DecodeAll(r, x))
  {
    var f, xs := DecodeAll(r, x), r.Movable();
    UniqueFilter(r.classSlots, r.Clashing());
    forall s | s in xs
      ensures s.slotId in f && f[s.slotId] < |r.periods|
    {
      DecodeAt(r, x, xs, s);
      DecodedOnce(r, x, s);
    }
    forall s | s in r.Fixed() || s in r.External()
      ensures s.slotId !in f
    {
      DecodeKeys(r, x, xs, s.slotId);
      NotMovableId(r, s);
    }
  }

  lemma NotMovableId(r: Problem, s: Slot)
    requires WellFormed(r) && (s in r.Fixed() || s in r.External())
    ensures forall m :: m in r.Movable() ==> m.slotId != s.slotId
  {
    forall m | m in r.Movable()
      ensures m.slotId != s.slotId
    {
      MovableMember(r, m);
      FixedMember(r, s);
      ExternalMember(r, s);
      if m.slotId == s.slotId && s in r.Fixed() {
        SameIdSameSlot(r.classSlots, m, s);
      }
    }
  }

  /** Placing each movable slot exactly once is encoding the placement that the decoder reads. */
  lemma PlacedOnceIsEncoding(r: Problem, x: Assignment)
    requires WellFormed(r)
    ensures EachPlacedOnce(r, x) <==> Encodes(r, x, DecodeAll(r, x))
  {
    UniqueFilter(r.classSlots, r.Clashing());
    if EachPlacedOnce(r, x) {
      DecodedIsPlacement(r, x);
      forall s, p | s in r.Movable() && 0 <= p < |r.periods|
        ensures Var(s.slotId, p) in x <==> DecodeAll(r, x)[s.slotId] == p
      {
        DecodeAt(r, x, r.Movable(), s);
        DecodedOnce(r, x, s);
      }
    }
    if Encodes(r, x, DecodeAll(r, x)) {
      EncodingPlacesOnce(r, x, DecodeAll(r, x));
    }
  }

  lemma EncodingPlacesOnce(r: Problem, x: Assignment, f: Placement)
    requires Encodes(r, x, f)
    ensures EachPlacedOnce(r, x)
  {
    forall s | s in r.Movable()
      ensures Count(Row(s.slotId, |r.periods|), Chosen(x)) == 1
    {
      OnlyAtIsPlacedOnce(x, s.slotId, |r.periods|, f[s.slotId]);
    }
  }

  /** After the move no class slot clashes, and the class is booked once wherever that is possible. */
  ghost predicate Resolves(r: Problem, f: Placement) {
    IsPlacement(r, f) && ClashFree(r, f) && BookedOnceWherePossible(r, f)
  }

  /** What the constraints ask of a placement. */
  ghost predicate Admissible(r: Problem, f: Placement) {
    IsPlacement(r, f) && OneAtATime(r, f) && BookedOnceWherePossible(r, f)
  }

  /**
   * Where periods do not overlap, an admissible placement resolves the clashes. Where they last, the
   * placements that do are admissible, unless other classes double-book among themselves a teacher who
   * has a movable slot: then none is.
   */
  lemma AdmissibleResolves(r: Problem, f: Placement)
    requires WellFormed(r)
    ensures Admissible(r, f) ==> NoExternalOverload(r)
    ensures Covered(r) && Disjoint(r.periods) && Admissible(r, f) ==> Resolves(r, f)
    ensures Covered(r) && Proper(r.periods) && Resolves(r, f) && NoExternalOverload(r) ==> Admissible(r, f)
  {
    if IsPlacement(r, f) {
      OneAtATimeMeaning(r, f);
    }
  }

  /**
   * Soundness: whatever assignment meets the model, the placement read from it is what it encodes, and
   * is admissible. An assignment meets the model in no other way.
   */
  lemma ModelIsExact(r: Problem, x: Assignment)
    requires WellFormed(r)
    ensures Meets(r, x) <==> Encodes(r, x, DecodeAll(r, x)) && Admissible(r, DecodeAll(r, x))
  {
    PlacedOnceIsEncoding(r, x);
    if Encodes(r, x, DecodeAll(r, x)) {
      EncodingIsExact(r, x, DecodeAll(r, x));
    }
  }

  /** The assignment that says what a placement says. */
  ghost function Indicator(r: Problem, f: Placement): Assignment
    requires IsPlacement(r, f)
  {
    set s | s in r.Movable() :: Var(s.slotId, f[s.slotId])
  }

  /** Completeness: a placement is an assignment of the model exactly when it is admissible. */
  lemma ModelIsComplete(r: Problem, f: Placement)
    requires WellFormed(r) && IsPlacement(r, f)
    ensures Encodes(r, Indicator(r, f), f)
    ensures Meets(r, Indicator(r, f)) <==> Admissible(r, f)
  {
    var x := Indicator(r, f);
    UniqueFilter(r.classSlots, r.Clashing());
    forall s, p | s in r.Movable() && 0 <= p < |r.periods|
      ensures Var(s.slotId, p) in x <==> f[s.slotId] == p
    {
      if Var(s.slotId, p) in x {
        var m :| m in r.Movable() && Var(m.slotId, f[m.slotId]) == Var(s.slotId, p);
      }
    }
    EncodingPlacesOnce(r, x, f);
    EncodingIsExact(r, x, f);
  }

  /** The model can be met exactly when some placement is admissible. */
  lemma FeasibleExactlyWhen(r: Problem)
    requires WellFormed(r)
    ensures (exists x :: Meets(r, x)) <==> exists f :: Admissible(r, f)
  {
    if exists x :: Meets(r, x) {
      var x :| Meets(r, x);
      ModelIsExact(r, x);
    }
    if exists f :: Admissible(r, f) {
      var f :| Admissible(r, f);
      ModelIsComplete(r, f);
    }
  }

  /**
   * Where periods last and do not overlap: exactly when some placement resolves the clashes and other
   * classes do not double-book a teacher who has a movable slot.
   */
  lemma FeasibleMeansResolvable(r: Problem)
    requires WellFormed(r) && Covered(r) && Disjoint(r.periods) && Proper(r.periods)
    ensures (exists x :: Meets(r, x)) <==> (exists f :: Resolves(r, f)) && NoExternalOverload(r)
  {
    FeasibleExactlyWhen(r);
    if exists f :: Admissible(r, f) {
      var f :| Admissible(r, f);
      AdmissibleResolves(r, f);
    }
    if (exists f :: Resolves(r, f)) && NoExternalOverload(r) {
      var f :| Resolves(r, f);
      AdmissibleResolves(r, f);
    }
  }

  // ---------------------------------------------------------------- the objective

  /** The variables of a slot except the one for where it is. */
  function Away(slotId: string, n: nat, current: nat): seq<Var> {
    if n == 0 then [] else Away(slotId, n - 1, current) + (if n - 1 != current then [Var(slotId, n - 1)] else [])
  }

  /** Minimised: every variable that moves a slot away from its current period. */
  function Penalties(r: Problem, xs: seq<Slot>): seq<Var> {
    if xs == [] then [] else Away(xs[0].slotId, |r.periods|, CurrentIndex(r, xs[0])) + Penalties(r, xs[1..])
  }

  /** The slot ends up in another period than the one it is in. */
  predicate Moves(r: Problem, f: Placement, s: Slot) {
    PeriodOf(Relocated(r, f, s)) != PeriodOf(s)
  }

  function Mover(r: Problem, f: Placement): Slot -> bool {
    (s: Slot) => Moves(r, f, s)
  }

  /** The index that the objective spares is that of the period the slot is in. */
  lemma MovesByIndex(r: Problem, f: Placement, s: Slot)
    requires WellFormed(r) && IsPlacement(r, f) && s in r.Movable()
    ensures Moves(r, f, s) <==> f[s.slotId] != CurrentIndex(r, s)
  {
    MovableMember(r, s);
    IndexIs(r.periods, PeriodOf(s), f[s.slotId]);
  }

  lemma {:induction false} AwayCount(x: Assignment, slotId: string, m: nat, n: nat, current: nat, at: nat)
    requires m <= n && OnlyAt(x, slotId, n, at)
    ensures Count(Away(slotId, m, current), Chosen(x)) == if at < m && at != current then 1 else 0
    decreases m
  {
    if m > 0 {
      AwayCount(x, slotId, m - 1, n, current, at);
      CountAppend(Away(slotId, m - 1, current), Var(slotId, m - 1), Chosen(x));
      assert m - 1 == current ==> Away(slotId, m, current) == Away(slotId, m - 1, current);
      assert Chosen(x)(Var(slotId, m - 1)) <==> m - 1 == at;
    }
  }

  lemma {:induction false} PenaltyCount(r: Problem, x: Assignment, f: Placement, xs: seq<Slot>)
    requires WellFormed(r) && Encodes(r, x, f) && forall s :: s in xs ==> s in r.Movable()
    ensures Count(Penalties(r, xs), Chosen(x)) == Count(xs, Mover(r, f))
  {
    if xs != [] {
      var s := xs[0];
      PenaltyCount(r, x, f, xs[1..]);
      CountConcat(Away(s.slotId, |r.periods|, CurrentIndex(r, s)), Penalties(r, xs[1..]), Chosen(x));
      assert s in xs;
      AwayCount(x, s.slotId, |r.periods|, |r.periods|, CurrentIndex(r, s), f[s.slotId]);
      MovesByIndex(r, f, s);
    }
  }

  /** The objective is the number of slots that end up in another period. */
  lemma ObjectiveCountsMoves(r: Problem, x: Assignment, f: Placement)
    requires WellFormed(r) && Encodes(r, x, f)
    ensures Count(Penalties(r, r.Movable()), Chosen(x)) == Count(r.Movable(), Mover(r, f))
  {
    PenaltyCount(r, x, f, r.Movable());
  }

  // ---------------------------------------------------------------- building the model

  lemma SatisfiesAppend(cs: seq<Constraint>, c: Constraint, x: Assignment)
    ensures Satisfies(cs + [c], x) <==> Satisfies(cs, x) && Holds(c, x)
  {
    var all := cs + [c];
    assert all[|cs|] == c;
    assert forall i :: 0 <= i < |cs| ==> all[i] == cs[i];
  }

  lemma SatisfiesConcat(cs: seq<Constraint>, ds: seq<Constraint>, x: Assignment)
    ensures Satisfies(cs + ds, x) <==> Satisfies(cs, x) && Satisfies(ds, x)
  {
    var all := cs + ds;
    assert forall i :: 0 <= i < |cs| ==> all[i] == cs[i];
    assert forall i :: 0 <= i < |ds| ==> all[|cs| + i] == ds[i];
    if Satisfies(all, x) {
      forall i | 0 <= i < |ds|
        ensures Holds(ds[i], x)
      {
        assert Holds(all[|cs| + i], x);
      }
    }
  }

  ghost predicate PlacedOnceUpTo(r: Problem, n: nat, x: Assignment) {
    forall k :: 0 <= k < n && k < |r.Movable()| ==> Count(Row(r.Movable()[k].slotId, |r.periods|), Chosen(x)) == 1
  }

  lemma PlacedOnceWhole(r: Problem, x: Assignment)
    ensures PlacedOnceUpTo(r, |r.Movable()|, x) <==> EachPlacedOnce(r, x)
  {
    if PlacedOnceUpTo(r, |r.Movable()|, x) {
      forall s | s in r.Movable()
        ensures Count(Row(s.slotId, |r.periods|), Chosen(x)) == 1
      {
        var k :| 0 <= k < |r.Movable()| && r.Movable()[k] == s;
      }
    }
  }

  /** One "exactly one" constraint per movable slot. */
  method PlacementConstraints(r: Problem) returns (cs: seq<Constraint>)
    ensures forall x :: Satisfies(cs, x) <==> EachPlacedOnce(r, x)
  {
    cs := [];
    var movable := r.Movable();
    for n := 0 to |movable|
      invariant forall x :: Satisfies(cs, x) <==> PlacedOnceUpTo(r, n, x)
    {
      var c := ExactlyOne(Row(movable[n].slotId, |r.periods|));
      forall x
        ensures Satisfies(cs + [c], x) <==> PlacedOnceUpTo(r, n + 1, x)
      {
        SatisfiesAppend(cs, c, x);
      }
      cs := cs + [c];
    }
    forall x
      ensures PlacedOnceUpTo(r, |movable|, x) <==> EachPlacedOnce(r, x)
    {
      PlacedOnceWhole(r, x);
    }
  }

  ghost predicate ClassRoomsUpTo(r: Problem, n: nat, x: Assignment) {
    forall p :: 0 <= p < n && p < |r.periods| ==> ClassRoom(r, p, x)
  }

  lemma ClassRoomsOneMore(r: Problem, n: nat, x: Assignment)
    requires n < |r.periods|
    ensures ClassRoomsUpTo(r, n + 1, x) <==> ClassRoomsUpTo(r, n, x) && ClassRoom(r, n, x)
  {
  }

  /** One capacity constraint per period that can still hold the class once; crowded ones are skipped. */
  method ClassConstraints(r: Problem) returns (cs: seq<Constraint>)
    ensures forall x :: Satisfies(cs, x) <==> ClassRooms(r, x)
  {
    cs := [];
    var movable, fixed := r.Movable(), r.Fixed();
    for p := 0 to |r.periods|
      invariant forall x :: Satisfies(cs, x) <==> ClassRoomsUpTo(r, p, x)
    {
      var fixedHere := Count(fixed, InPeriod(r.periods[p]));
      forall x
        ensures ClassRoomsUpTo(r, p + 1, x) <==> ClassRoomsUpTo(r, p, x) && ClassRoom(r, p, x)
      {
        ClassRoomsOneMore(r, p, x);
      }
      if fixedHere <= 1 {
        var c := AtMostOneWith(Column(movable, p), fixedHere);
        forall x
          ensures Satisfies(cs + [c], x) <==> Satisfies(cs, x) && ClassRoom(r, p, x)
        {
          SatisfiesAppend(cs, c, x);
        }
        cs := cs + [c];
      }
    }
  }

  /** What the counter of other classes' bookings holds once the first `n` slots were seen. */
  function Booked(r: Problem, n: nat, t: string, p: nat): nat
    requires n <= |r.allSlots| && p < |r.periods|
  {
    Count(r.allSlots[..n], Both(r.Elsewhere(), OfTeacherIn(t, r.periods[p])))
  }

  lemma BookedOneMore(r: Problem, n: nat, t: string, p: nat)
    requires n < |r.allSlots| && p < |r.periods|
    ensures Booked(r, n + 1, t, p) == Booked(r, n, t, p)
              + (if r.allSlots[n].slotId !in r.ClassIds() && r.allSlots[n].teacher == t
                    && PeriodOf(r.allSlots[n]) == r.periods[p] then 1 else 0)
  {
    assert r.allSlots[..n + 1] == r.allSlots[..n] + [r.allSlots[n]];
    CountAppend(r.allSlots[..n], r.allSlots[n], Both(r.Elsewhere(), OfTeacherIn(t, r.periods[p])));
  }

  lemma BookedAll(r: Problem, t: string, p: nat)
    requires p < |r.periods|
    ensures Booked(r, |r.allSlots|, t, p) == Count(r.External(), OfTeacherIn(t, r.periods[p]))
  {
    assert r.allSlots[..|r.allSlots|] == r.allSlots;
    CountFilter(r.allSlots, r.Elsewhere(), OfTeacherIn(t, r.periods[p]));
  }

  function Tally(m: map<(string, nat), nat>, t: string, p: nat): nat {
    if (t, p) in m then m[(t, p)] else 0
  }

  lemma IndexIs(ps: seq<Period>, q: Period, p: nat)
    requires DistinctPeriods(ps) && p < |ps| && q in ps
    ensures ps[p] == q <==> p == PeriodIndex(ps, q)
  {
  }

  /** The counter after one slot was looked at. */
  function Recount(r: Problem, slot: Slot, external: map<(string, nat), nat>): map<(string, nat), nat> {
    if slot.teacher != "" && slot.slotId !in r.ClassIds() && PeriodOf(slot) in r.periods then
      var p := PeriodIndex(r.periods, PeriodOf(slot));
      external[(slot.teacher, p) := Tally(external, slot.teacher, p) + 1]
    else external
  }

  lemma RecountTallies(r: Problem, n: nat, external: map<(string, nat), nat>, t: string, p: nat)
    requires DistinctPeriods(r.periods) && n < |r.allSlots| && t != "" && p < |r.periods|
    requires Tally(external, t, p) == Booked(r, n, t, p)
    ensures Tally(Recount(r, r.allSlots[n], external), t, p) == Booked(r, n + 1, t, p)
  {
    var slot := r.allSlots[n];
    BookedOneMore(r, n, t, p);
    if PeriodOf(slot) in r.periods {
      IndexIs(r.periods, PeriodOf(slot), p);
    }
  }

  /** Count the bookings of each teacher in each period by other classes. */
  method CountExternal(r: Problem) returns (external: map<(string, nat), nat>)
    requires DistinctPeriods(r.periods)
    ensures forall t, p :: t != "" && 0 <= p < |r.periods| ==>
              Tally(external, t, p) == Count(r.External(), OfTeacherIn(t, r.periods[p]))
  {
    external := map[];
    var classIds := r.ClassIds();
    for n := 0 to |r.allSlots|
      invariant forall t, p :: t != "" && 0 <= p < |r.periods| ==> Tally(external, t, p) == Booked(r, n, t, p)
    {
      var slot := r.allSlots[n];
      ghost var before := external;
      if slot.teacher != "" && slot.slotId !in classIds && PeriodOf(slot) in r.periods {
        var p := PeriodIndex(r.periods, PeriodOf(slot));
        external := external[(slot.teacher, p) := Tally(external, slot.teacher, p) + 1];
      }
      assert external == Recount(r, slot, before);
      forall t, p | t != "" && 0 <= p < |r.periods|
        ensures Tally(external, t, p) == Booked(r, n + 1, t, p)
      {
        RecountTallies(r, n, before, t, p);
      }
    }
    forall t, p | t != "" && 0 <= p < |r.periods|
      ensures Booked(r, |r.allSlots|, t, p) == Count(r.External(), OfTeacherIn(t, r.periods[p]))
    {
      BookedAll(r, t, p);
    }
  }

  ghost predicate TeacherRoomsUpTo(r: Problem, t: string, n: nat, x: Assignment) {
    forall p :: 0 <= p < n && p < |r.periods| ==> TeacherRoom(r, t, p, x)
  }

  lemma TeacherRoomsOneMore(r: Problem, t: string, n: nat, x: Assignment)
    requires n < |r.periods|
    ensures TeacherRoomsUpTo(r, t, n + 1, x) <==> TeacherRoomsUpTo(r, t, n, x) && TeacherRoom(r, t, n, x)
  {
  }

  /** The constraints of one teacher, one per period. */
  method OneTeachersConstraints(r: Problem, t: string, external: map<(string, nat), nat>) returns (cs: seq<Constraint>)
    requires forall p :: 0 <= p < |r.periods| ==> Tally(external, t, p) == Count(r.External(), OfTeacherIn(t, r.periods[p]))
    ensures forall x :: Satisfies(cs, x) <==> TeacherRoomsUpTo(r, t, |r.periods|, x)
  {
    cs := [];
    var mine, fixed := Filter(r.Movable(), OfTeacher(t)), r.Fixed();
    for p := 0 to |r.periods|
      invariant forall x :: Satisfies(cs, x) <==> TeacherRoomsUpTo(r, t, p, x)
    {
      forall x
        ensures TeacherRoomsUpTo(r, t, p + 1, x) <==> TeacherRoomsUpTo(r, t, p, x) && TeacherRoom(r, t, p, x)
      {
        TeacherRoomsOneMore(r, t, p, x);
      }
      if mine != [] {
        var taken := Count(fixed, OfTeacherIn(t, r.periods[p])) + Tally(external, t, p);
        var c := AtMostOneWith(Column(mine, p), taken);
        forall x
          ensures Satisfies(cs + [c], x) <==> Satisfies(cs, x) && TeacherRoom(r, t, p, x)
        {
          SatisfiesAppend(cs, c, x);
        }
        cs := cs + [c];
      }
    }
  }

  ghost predicate TeachersDone(r: Problem, done: set<string>, x: Assignment) {
    forall t :: t in done ==> TeacherRoomsUpTo(r, t, |r.periods|, x)
  }

  /** One constraint per teacher of the class and period, unless the teacher has nothing to move. */
  method TeacherConstraints(r: Problem) returns (cs: seq<Constraint>)
    requires DistinctPeriods(r.periods)
    ensures forall x :: Satisfies(cs, x) <==> TeacherRooms(r, x)
  {
    cs := [];
    var external := CountExternal(r);
    var todo, all := Teachers(r), Teachers(r);
    while todo != {}
      invariant todo <= all
      invariant forall x :: Satisfies(cs, x) <==> TeachersDone(r, all - todo, x)
      decreases |todo|
    {
      var t :| t in todo;
      var more := OneTeachersConstraints(r, t, external);
      forall x
        ensures Satisfies(cs + more, x) <==> TeachersDone(r, all - (todo - {t}), x)
      {
        SatisfiesConcat(cs, more, x);
      }
      cs := cs + more;
      todo := todo - {t};
    }
    forall x
      ensures TeachersDone(r, all, x) <==> TeacherRooms(r, x)
    {
      TeachersDoneIsRooms(r, x);
    }
    assert all - {} == all;
  }

  lemma TeachersDoneIsRooms(r: Problem, x: Assignment)
    ensures TeachersDone(r, Teachers(r), x) <==> TeacherRooms(r, x)
  {
    if TeachersDone(r, Teachers(r), x) {
      forall t, p | t in Teachers(r) && 0 <= p < |r.periods|
        ensures TeacherRoom(r, t, p, x)
      {
        assert TeacherRoomsUpTo(r, t, |r.periods|, x);
      }
    }
  }

  /** The whole model: what its constraints accept, and what it minimises. */
  method BuildModel(r: Problem) returns (model: Model)
    requires DistinctPeriods(r.periods)
    ensures forall x :: Satisfies(model.constraints, x) <==> Meets(r, x)
    ensures model.objective == Penalties(r, r.Movable())
  {
    var placed := PlacementConstraints(r);
    var rooms := ClassConstraints(r);
    var teachers := TeacherConstraints(r);
    forall x
      ensures Satisfies(placed + rooms + teachers, x) <==> Meets(r, x)
    {
      SatisfiesConcat(placed, rooms, x);
      SatisfiesConcat(placed + rooms, teachers, x);
    }
    model := Model(placed + rooms + teachers, Penalties(r, r.Movable()));
  }

  // ---------------------------------------------------------------- solving

  /** A solver returns, if anything, an assignment that satisfies the constraints it was given. */
  ghost predicate SoundSolver(solver: Model -> Option<Assignment>) {
    forall m: Model :: solver(m).Some? ==> Satisfies(m.constraints, solver(m).value)
  }

  /** It finds one when there is one, with the objective as small as possible. */
  ghost predicate OptimalSolver(solver: Model -> Option<Assignment>) {
    forall m: Model, x: Assignment | Satisfies(m.constraints, x) ::
      solver(m).Some? && Count(m.objective, Chosen(solver(m).value)) <= Count(m.objective, Chosen(x))
  }

  ghost predicate FewestMoves(r: Problem, f: Placement) {
    forall g :: Admissible(r, g) ==> Count(r.Movable(), Mover(r, f)) <= Count(r.Movable(), Mover(r, g))
  }

  /** A new period for each movable slot, or nothing when the model has no solution. */
  method SolveProblem(r: Problem, solver: Model -> Option<Assignment>) returns (found: Option<Placement>)
    requires WellFormed(r) && SoundSolver(solver)
    ensures found.Some? ==> Admissible(r, found.value)
    ensures OptimalSolver(solver) ==> (found.Some? <==> exists f :: Admissible(r, f))
    ensures OptimalSolver(solver) && found.Some? ==> FewestMoves(r, found.value)
  {
    if r.Movable() == [] {
      ModelIsExact(r, {});
      return Some(DecodeAll(r, {}));
    }
    var model := BuildModel(r);
    var answer := solver(model);
    if answer.None? {
      SolverFails(r, model, solver);
      return None;
    }
    ModelIsExact(r, answer.value);
    var f := DecodeAll(r, answer.value);
    SolverIsBest(r, model, solver, f);
    return Some(f);
  }

  /** The slots of the whole school; a request without any means the class's own. */
  function School(classSlots: seq<Slot>, allSlots: seq<Slot>): seq<Slot> {
    if allSlots == [] then classSlots else allSlots
  }

  /**
   * The periods are collected from the slots, so every slot's own period is found among them. The
   * answer resolves every clash where no two different periods overlap. An optimal solver misses a
   * repair, where periods last, only if other classes double-book a teacher who has a movable slot.
   */
  method SolveTimetable(classSlots: seq<Slot>, allSlots: seq<Slot>, solver: Model -> Option<Assignment>)
      returns (r: Problem, found: Option<Placement>)
    requires UniqueIds(classSlots) && UniqueIds(School(classSlots, allSlots))
    requires SoundSolver(solver)
    ensures r.classSlots == classSlots && r.allSlots == (if allSlots == [] then classSlots else allSlots) && Sorted(r.periods)
    ensures forall p :: p in r.periods <==> exists s :: s in r.classSlots + r.allSlots && PeriodOf(s) == p
    ensures found.Some? ==> Admissible(r, found.value) && NoExternalOverload(r)
    ensures found.Some? && Covered(r) && Disjoint(r.periods) ==> Resolves(r, found.value)
    ensures OptimalSolver(solver) ==> (found.Some? <==> exists f :: Admissible(r, f))
    ensures OptimalSolver(solver) && Covered(r) && Proper(r.periods) && NoExternalOverload(r) && (exists f :: Resolves(r, f)) ==>
              found.Some?
    ensures OptimalSolver(solver) && found.Some? ==> FewestMoves(r, found.value)
  {
    var all := School(classSlots, allSlots);
    var periods := CollectPeriods([classSlots, all]);
    CollectedPeriods(classSlots, all, periods);
    r := Problem(classSlots, all, periods);
    found := SolveProblem(r, solver);
    if found.Some? {
      AdmissibleResolves(r, found.value);
    }
    RepairIsAdmissible(r);
  }

  lemma RepairIsAdmissible(r: Problem)
    requires WellFormed(r)
    ensures Covered(r) && Proper(r.periods) && NoExternalOverload(r) && (exists f :: Resolves(r, f)) ==> exists f :: Admissible(r, f)
  {
    if exists f :: Resolves(r, f) {
      var f :| Resolves(r, f);
      AdmissibleResolves(r, f);
    }
  }

  lemma CollectedPeriods(classSlots: seq<Slot>, all: seq<Slot>, ps: seq<Period>)
    requires forall p :: p in ps <==> exists g, i :: 0 <= g < 2 && 0 <= i < |[classSlots, all][g]|
                                                     && PeriodOf([classSlots, all][g][i]) == p
    ensures forall p :: p in ps <==> exists s :: s in classSlots + all && PeriodOf(s) == p
  {
    var groups := [classSlots, all];
    forall p
      ensures p in ps <==> exists s :: s in classSlots + all && PeriodOf(s) == p
    {
      if p in ps {
        var g, i :| 0 <= g < 2 && 0 <= i < |groups[g]| && PeriodOf(groups[g][i]) == p;
        assert groups[g][i] in classSlots + all;
      }
      if s :| s in classSlots + all && PeriodOf(s) == p {
        var g := if s in classSlots then 0 else 1;
        var i :| 0 <= i < |groups[g]| && groups[g][i] == s;
        assert PeriodOf(groups[g][i]) == p;
      }
    }
  }

  lemma SolverFails(r: Problem, model: Model, solver: Model -> Option<Assignment>)
    requires WellFormed(r) && solver(model).None?
    requires forall x :: Satisfies(model.constraints, x) <==> Meets(r, x)
    ensures OptimalSolver(solver) ==> !exists f :: Admissible(r, f)
  {
    if OptimalSolver(solver) {
      assert forall x :: !Satisfies(model.constraints, x);
      FeasibleExactlyWhen(r);
    }
  }

  lemma SolverIsBest(r: Problem, model: Model, solver: Model -> Option<Assignment>, f: Placement)
    requires WellFormed(r) && solver(model).Some? && model.objective == Penalties(r, r.Movable())
    requires forall x :: Satisfies(model.constraints, x) <==> Meets(r, x)
    requires Encodes(r, solver(model).value, f)
    ensures OptimalSolver(solver) ==> FewestMoves(r, f)
  {
    if OptimalSolver(solver) {
      ObjectiveCountsMoves(r, solver(model).value, f);
      forall g | Admissible(r, g)
        ensures Count(r.Movable(), Mover(r, f)) <= Count(r.Movable(), Mover(r, g))
      {
        ModelIsComplete(r, g);
        ObjectiveCountsMoves(r, Indicator(r, g), g);
        assert Satisfies(model.constraints, Indicator(r, g));
      }
    }
  }
}
