/** A timetable that can be repaired and for which the constraint model nevertheless has no solution. */
module TimetableOverload {
  import opened Counting
  import opened Timetable
  import opened TimetableLaws
  import opened TimetableSolver

  const FIRST := Period(0, "1", "2")
  const SECOND := Period(0, "3", "4")
  const THIRD := Period(0, "5", "6")

  function At(id: string, teacher: string, p: Period): Slot {
    Slot(id, teacher, p.day, p.start, p.end)
  }

  /** Slot "s" clashes with "a". Other classes book the same teacher twice in the second period; the third is free. */
  const OVERLOADED := Problem([At("s", "T", FIRST)], SCHOOL, [FIRST, SECOND, THIRD])

  const SCHOOL := [At("s", "T", FIRST), At("a", "T", FIRST), At("b", "T", SECOND), At("c", "T", SECOND), At("d", "U", THIRD)]

  const TO_THIRD: Placement := map["s" := 2]

  lemma PeriodsAreSeparated()
    ensures DistinctPeriods(OVERLOADED.periods) && Disjoint(OVERLOADED.periods) && Proper(OVERLOADED.periods)
  {
    assert FIRST.start != SECOND.start && SECOND.start != THIRD.start && FIRST.start != THIRD.start;
    assert Less("1", "2") && Less("3", "4") && Less("5", "6");
    assert !Less("3", "2") && !Less("5", "2") && !Less("5", "4");
    forall p, q | p in OVERLOADED.periods && q in OVERLOADED.periods
      ensures PeriodsOverlap(p, q) <==> p == q
    {
      assert p in {FIRST, SECOND, THIRD} && q in {FIRST, SECOND, THIRD};
    }
  }

  lemma SchoolIs(s: Slot)
    ensures s in SCHOOL <==> s in {SCHOOL[0], SCHOOL[1], SCHOOL[2], SCHOOL[3], SCHOOL[4]}
  {
  }

  lemma IdsDiffer()
    ensures UniqueIds(SCHOOL) && UniqueIds(OVERLOADED.classSlots)
  {
    var ids := ["s", "a", "b", "c", "d"];
    assert forall i :: 0 <= i < 5 ==> SCHOOL[i].slotId == ids[i] && |ids[i]| == 1;
    assert ids[0][0] == 's' && ids[1][0] == 'a' && ids[2][0] == 'b' && ids[3][0] == 'c' && ids[4][0] == 'd';
  }

  lemma OverloadedIsWellFormed()
    ensures WellFormed(OVERLOADED) && Covered(OVERLOADED)
  {
    PeriodsAreSeparated();
    IdsDiffer();
    forall s | s in SCHOOL
      ensures PeriodOf(s) in OVERLOADED.periods
    {
      SchoolIs(s);
      assert OVERLOADED.periods[0] == FIRST && OVERLOADED.periods[1] == SECOND && OVERLOADED.periods[2] == THIRD;
    }
    forall s | s in OVERLOADED.classSlots
      ensures s in SCHOOL
    {
      assert s == SCHOOL[0];
    }
  }

  lemma OnlyTheClashMoves()
    ensures SCHOOL[0] in OVERLOADED.Movable()
    ensures OVERLOADED.Fixed() == []
    ensures forall s :: s in OVERLOADED.External() <==> s in SCHOOL && s != SCHOOL[0]
  {
    OverloadedIsWellFormed();
    var s := SCHOOL[0];
    PeriodsAreSeparated();
    assert PeriodsOverlap(FIRST, FIRST) by { assert FIRST in OVERLOADED.periods; }
    assert SCHOOL[1].slotId != s.slotId;
    CountAtLeastOne(SCHOOL, ClashesWith(s), 1);
    MovableMember(OVERLOADED, s);
    FixedMember(OVERLOADED, s);
    if OVERLOADED.Fixed() != [] {
      FixedMember(OVERLOADED, OVERLOADED.Fixed()[0]);
    }
    forall o
      ensures o in OVERLOADED.External() <==> o in SCHOOL && o != s
    {
      ExternalMember(OVERLOADED, o);
      if o in SCHOOL && o.slotId == s.slotId {
        SameIdSameSlot(SCHOOL, o, s);
      }
      assert s in OVERLOADED.classSlots;
    }
  }

  lemma ThirdIsAPlacement()
    ensures IsPlacement(OVERLOADED, TO_THIRD)
  {
    OnlyTheClashMoves();
    forall m | m in OVERLOADED.Movable()
      ensures m == SCHOOL[0]
    {
      MovableMember(OVERLOADED, m);
    }
    forall o | o in OVERLOADED.External()
      ensures o.slotId !in TO_THIRD
    {
      ExternalMember(OVERLOADED, o);
      assert SCHOOL[0] in OVERLOADED.classSlots;
    }
  }

  lemma NobodyElseInThird(o: Slot)
    requires o in SCHOOL && o.slotId != SCHOOL[0].slotId && o.teacher == SCHOOL[0].teacher
    ensures PeriodOf(Relocated(OVERLOADED, TO_THIRD, o)) != THIRD
  {
    SchoolIs(o);
  }

  lemma LandsInThird()
    ensures PeriodOf(Relocated(OVERLOADED, TO_THIRD, SCHOOL[0])) == THIRD
  {
  }

  lemma ThirdIsFree()
    ensures Resolves(OVERLOADED, TO_THIRD)
  {
    OverloadedIsWellFormed();
    ThirdIsAPlacement();
    LandsInThird();
    var s := SCHOOL[0];
    PeriodsAreSeparated();
    forall o | o in SCHOOL && o.slotId != s.slotId && o.teacher == s.teacher
      ensures !Overlap(Relocated(OVERLOADED, TO_THIRD, s), Relocated(OVERLOADED, TO_THIRD, o))
    {
      NobodyElseInThird(o);
      LandsInSomePeriod(OVERLOADED, TO_THIRD, s);
      LandsInSomePeriod(OVERLOADED, TO_THIRD, o);
    }
    ClashCountMeaning(OVERLOADED, TO_THIRD, s);
  }

  lemma OverloadMeansNoAnswer(r: Problem, s: Slot, b: Slot, c: Slot)
    requires WellFormed(r) && s in r.Movable() && b in r.External() && c in r.External() && b.slotId != c.slotId
    requires b.teacher == s.teacher && c.teacher == s.teacher && PeriodOf(b) == PeriodOf(c)
    ensures !exists x :: Meets(r, x)
  {
    FeasibleExactlyWhen(r);
    if exists f :: Admissible(r, f) {
      var f :| Admissible(r, f);
      AdmissibleResolves(r, f);
    }
  }

  lemma TwoBookings()
    ensures SCHOOL[0] in OVERLOADED.Movable() && SCHOOL[2] in OVERLOADED.External() && SCHOOL[3] in OVERLOADED.External()
    ensures SCHOOL[2].slotId != SCHOOL[3].slotId
  {
    OnlyTheClashMoves();
    IdsDiffer();
    assert SCHOOL[2] in SCHOOL && SCHOOL[3] in SCHOOL;
    assert SCHOOL[0].slotId != SCHOOL[2].slotId && SCHOOL[0].slotId != SCHOOL[3].slotId;
  }

  /** The double booking of the second period concerns no slot of the class and no free period, and blocks every answer. */
  lemma OverloadBlocksRepair()
    ensures WellFormed(OVERLOADED) && Resolves(OVERLOADED, TO_THIRD)
    ensures !exists x :: Meets(OVERLOADED, x)
  {
    OverloadedIsWellFormed();
    ThirdIsFree();
    TwoBookings();
    OverloadMeansNoAnswer(OVERLOADED, SCHOOL[0], SCHOOL[2], SCHOOL[3]);
  }
}
