/** Periods that overlap: an answer that the constraint model accepts and that resolves nothing. */
module TimetableOverlap {
  import opened Counting
  import opened Timetable
  import opened TimetableLaws
  import opened TimetableSolver

  function In(id: string, teacher: string, p: Period): Slot {
    Slot(id, teacher, p.day, p.start, p.end)
  }

  /** Slots without a teacher, one for each period. */
  function Fillers(ps: seq<Period>): seq<Slot> {
    seq(|ps|, i requires 0 <= i < |ps| => In(seq(i + 2, _ => 'f'), "", ps[i]))
  }

  /** The class slot "s" in `p` clashes with "a" in `q`. */
  function Straddling(ps: seq<Period>, p: Period, q: Period): Problem {
    Problem([In("s", "T", p)], [In("s", "T", p), In("a", "T", q)] + Fillers(ps), ps)
  }

  function Stay(ps: seq<Period>, p: Period): Placement
    requires p in ps
  {
    map["s" := PeriodIndex(ps, p)]
  }

  /** The periods of a problem are those of its slots. */
  ghost predicate Collected(r: Problem) {
    forall p :: p in r.periods <==> exists s :: s in r.allSlots && PeriodOf(s) == p
  }

  lemma SchoolMember(ps: seq<Period>, p: Period, q: Period, s: Slot)
    requires s in Straddling(ps, p, q).allSlots || s in Straddling(ps, p, q).Everyone()
    ensures s == In("s", "T", p) || s == In("a", "T", q) ||
            (|s.slotId| >= 2 && s.teacher == "" && PeriodOf(s) in ps)
  {
    var all := Straddling(ps, p, q).allSlots;
    ExternalMember(Straddling(ps, p, q), s);
    assert all[0] == In("s", "T", p);
    var i :| 0 <= i < |all| && all[i] == s;
    if i >= 2 {
      assert s == Fillers(ps)[i - 2];
    }
  }

  lemma StraddlingIsWellFormed(ps: seq<Period>, p: Period, q: Period)
    requires DistinctPeriods(ps) && p in ps && q in ps
    ensures WellFormed(Straddling(ps, p, q)) && Covered(Straddling(ps, p, q)) && Collected(Straddling(ps, p, q))
  {
    var r := Straddling(ps, p, q);
    var all := r.allSlots;
    assert all[0] == In("s", "T", p) && all[1] == In("a", "T", q);
    assert "s"[0] != "a"[0];
    forall i | 0 <= i < |all|
      ensures |all[i].slotId| == if i < 2 then 1 else i
    {
      assert i >= 2 ==> all[i] == Fillers(ps)[i - 2];
    }
    forall s | s in all
      ensures PeriodOf(s) in ps
    {
      SchoolMember(ps, p, q, s);
    }
    forall i | 0 <= i < |ps|
      ensures exists s :: s in all && PeriodOf(s) == ps[i]
    {
      assert all[i + 2] == Fillers(ps)[i];
      assert PeriodOf(all[i + 2]) == ps[i];
    }
  }

  lemma OnlyTheClassSlotMoves(ps: seq<Period>, p: Period, q: Period)
    requires PeriodsOverlap(p, q)
    ensures forall m :: m in Straddling(ps, p, q).Movable() <==> m == In("s", "T", p)
    ensures Straddling(ps, p, q).Fixed() == []
  {
    var r, s := Straddling(ps, p, q), In("s", "T", p);
    assert "s"[0] != "a"[0];
    assert r.allSlots[1] == In("a", "T", q) && ClashesWith(s)(r.allSlots[1]);
    CountAtLeastOne(r.allSlots, ClashesWith(s), 1);
    forall m
      ensures m in r.Movable() <==> m == s
    {
      MovableMember(r, m);
      assert s in r.classSlots;
    }
    if r.Fixed() != [] {
      FixedMember(r, r.Fixed()[0]);
    }
  }

  lemma StayIsAPlacement(ps: seq<Period>, p: Period, q: Period)
    requires p in ps && PeriodsOverlap(p, q)
    ensures IsPlacement(Straddling(ps, p, q), Stay(ps, p))
    ensures forall s :: s in Straddling(ps, p, q).allSlots || s in Straddling(ps, p, q).Everyone() ==>
              Relocated(Straddling(ps, p, q), Stay(ps, p), s) == s
  {
    var r, f := Straddling(ps, p, q), Stay(ps, p);
    OnlyTheClassSlotMoves(ps, p, q);
    forall o | o in r.External()
      ensures o.slotId !in f
    {
      ExternalMember(r, o);
      assert In("s", "T", p) in r.classSlots;
    }
    forall s | s in r.allSlots || s in r.Everyone()
      ensures Relocated(r, f, s) == s
    {
      SchoolMember(ps, p, q, s);
      assert "s"[0] != "a"[0];
    }
  }

  lemma StayIsAdmissible(ps: seq<Period>, p: Period, q: Period)
    requires p in ps && p != q && PeriodsOverlap(p, q)
    ensures Admissible(Straddling(ps, p, q), Stay(ps, p))
  {
    var r, f := Straddling(ps, p, q), Stay(ps, p);
    StayIsAPlacement(ps, p, q);
    OnlyTheClassSlotMoves(ps, p, q);
    forall a, b | a in r.Everyone() && b in r.Everyone() && a.teacher == b.teacher && HasMovable(r, a.teacher)
                  && PeriodOf(Relocated(r, f, a)) == PeriodOf(Relocated(r, f, b))
      ensures a.slotId == b.slotId
    {
      SchoolMember(ps, p, q, a);
      SchoolMember(ps, p, q, b);
      assert a.teacher == "T";
    }
  }

  lemma StayClashes(ps: seq<Period>, p: Period, q: Period)
    requires p in ps && PeriodsOverlap(p, q)
    ensures !ClashFree(Straddling(ps, p, q), Stay(ps, p))
  {
    var r, f := Straddling(ps, p, q), Stay(ps, p);
    var s, a := In("s", "T", p), In("a", "T", q);
    StayIsAPlacement(ps, p, q);
    assert "s"[0] != "a"[0];
    assert s in r.classSlots && r.allSlots[0] == s && r.allSlots[1] == a;
    ClashCountMeaning(r, f, s);
    assert Overlap(Relocated(r, f, s), Relocated(r, f, a));
  }

  /**
   * For any two different periods that overlap there is a timetable over them whose clash the model
   * leaves as it is, and calls solved.
   */
  lemma OverlapDefeatsTheModel(ps: seq<Period>, p: Period, q: Period)
    requires DistinctPeriods(ps) && p in ps && q in ps && p != q && PeriodsOverlap(p, q)
    ensures var r, f := Straddling(ps, p, q), Stay(ps, p);
            WellFormed(r) && Covered(r) && Collected(r) && Admissible(r, f) && Meets(r, Indicator(r, f)) && !ClashFree(r, f)
  {
    StraddlingIsWellFormed(ps, p, q);
    StayIsAdmissible(ps, p, q);
    StayClashes(ps, p, q);
    ModelIsComplete(Straddling(ps, p, q), Stay(ps, p));
  }

  /** What the model accepts over these periods is free of clashes. */
  ghost predicate ExcludesClashes(ps: seq<Period>) {
    forall r, f :: WellFormed(r) && Covered(r) && Collected(r) && r.periods == ps && Admissible(r, f) ==> ClashFree(r, f)
  }

  /** The model excludes clashes exactly over periods that do not overlap. */
  lemma ClashesExcludedExactly(ps: seq<Period>)
    requires DistinctPeriods(ps)
    ensures ExcludesClashes(ps) <==> Disjoint(ps)
  {
    if Disjoint(ps) {
      forall r, f | WellFormed(r) && Covered(r) && Collected(r) && r.periods == ps && Admissible(r, f)
        ensures ClashFree(r, f)
      {
        AdmissibleResolves(r, f);
      }
    } else {
      var p, q :| p in ps && q in ps && PeriodsOverlap(p, q) && p != q;
      OverlapDefeatsTheModel(ps, p, q);
    }
  }
}
