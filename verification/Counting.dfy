/** Counting the elements of a sequence that satisfy a predicate. */
module Counting {

  function Count<T>(xs: seq<T>, p: T -> bool): nat {
    if xs == [] then 0 else (if p(xs[0]) then 1 else 0) + Count(xs[1..], p)
  }

  lemma {:induction false} CountConcat<T>(xs: seq<T>, ys: seq<T>, p: T -> bool)
    ensures Count(xs + ys, p) == Count(xs, p) + Count(ys, p)
    decreases |xs|
  {
    if xs == [] {
      assert xs + ys == ys;
    } else {
      assert (xs + ys)[1..] == xs[1..] + ys;
      CountConcat(xs[1..], ys, p);
    }
  }

  lemma CountAppend<T>(xs: seq<T>, x: T, p: T -> bool)
    ensures Count(xs + [x], p) == Count(xs, p) + (if p(x) then 1 else 0)
  {
    CountConcat(xs, [x], p);
    assert [x][1..] == [];
  }

  lemma {:induction false} CountCongruent<T>(xs: seq<T>, p: T -> bool, q: T -> bool)
    requires forall i :: 0 <= i < |xs| ==> p(xs[i]) == q(xs[i])
    ensures Count(xs, p) == Count(xs, q)
  {
    if xs != [] {
      assert forall i :: 0 <= i < |xs| - 1 ==> xs[1..][i] == xs[i + 1];
      CountCongruent(xs[1..], p, q);
    }
  }

  lemma {:induction false} CountAtLeastOne<T>(xs: seq<T>, p: T -> bool, i: nat)
    requires i < |xs| && p(xs[i])
    ensures Count(xs, p) >= 1
  {
    if i > 0 {
      CountAtLeastOne(xs[1..], p, i - 1);
    }
  }

  lemma {:induction false} CountAtLeastTwo<T>(xs: seq<T>, p: T -> bool, i: nat, j: nat)
    requires i < j < |xs| && p(xs[i]) && p(xs[j])
    ensures Count(xs, p) >= 2
  {
    if i > 0 {
      CountAtLeastTwo(xs[1..], p, i - 1, j - 1);
    } else {
      CountAtLeastOne(xs[1..], p, j - 1);
    }
  }

  lemma {:induction false} CountAtMost<T>(xs: seq<T>, p: T -> bool)
    ensures Count(xs, p) <= |xs|
  {
    if xs != [] {
      CountAtMost(xs[1..], p);
    }
  }

  lemma {:induction false} FindOne<T>(xs: seq<T>, p: T -> bool) returns (i: nat)
    requires Count(xs, p) >= 1
    ensures i < |xs| && p(xs[i])
  {
    if p(xs[0]) {
      i := 0;
    } else {
      i := FindOne(xs[1..], p);
      i := i + 1;
    }
  }

  lemma {:induction false} FindTwo<T>(xs: seq<T>, p: T -> bool) returns (i: nat, j: nat)
    requires Count(xs, p) >= 2
    ensures i < j < |xs| && p(xs[i]) && p(xs[j])
  {
    if p(xs[0]) {
      i := 0;
      j := FindOne(xs[1..], p);
      j := j + 1;
    } else {
      i, j := FindTwo(xs[1..], p);
      i, j := i + 1, j + 1;
    }
  }

  /** At most one element satisfies `p` exactly when no two positions do. */
  lemma AtMostOne<T>(xs: seq<T>, p: T -> bool)
    ensures Count(xs, p) <= 1 <==> forall i, j :: 0 <= i < j < |xs| ==> !(p(xs[i]) && p(xs[j]))
  {
    if Count(xs, p) >= 2 {
      var i, j := FindTwo(xs, p);
    } else {
      forall i, j | 0 <= i < j < |xs|
        ensures !(p(xs[i]) && p(xs[j]))
      {
        if p(xs[i]) && p(xs[j]) {
          CountAtLeastTwo(xs, p, i, j);
        }
      }
    }
  }

  lemma CountZero<T>(xs: seq<T>, p: T -> bool)
    ensures Count(xs, p) == 0 <==> forall i :: 0 <= i < |xs| ==> !p(xs[i])
  {
    if Count(xs, p) >= 1 {
      var i := FindOne(xs, p);
    } else {
      forall i | 0 <= i < |xs|
        ensures !p(xs[i])
      {
        if p(xs[i]) {
          CountAtLeastOne(xs, p, i);
        }
      }
    }
  }

  function Filter<T>(xs: seq<T>, p: T -> bool): seq<T> {
    if xs == [] then [] else (if p(xs[0]) then [xs[0]] else []) + Filter(xs[1..], p)
  }

  lemma {:induction false} FilterMember<T>(xs: seq<T>, p: T -> bool, x: T)
    ensures x in Filter(xs, p) <==> x in xs && p(x)
  {
    if xs != [] {
      FilterMember(xs[1..], p, x);
      assert x in xs <==> x == xs[0] || x in xs[1..];
    }
  }

  function Both<T>(p: T -> bool, q: T -> bool): T -> bool {
    x => p(x) && q(x)
  }

  lemma CountCons<T>(x: T, xs: seq<T>, p: T -> bool)
    ensures Count([x] + xs, p) == (if p(x) then 1 else 0) + Count(xs, p)
  {
    assert ([x] + xs)[1..] == xs;
  }

  lemma {:induction false} CountFilter<T>(xs: seq<T>, p: T -> bool, q: T -> bool)
    ensures Count(Filter(xs, p), q) == Count(xs, Both(p, q))
  {
    if xs != [] {
      CountFilter(xs[1..], p, q);
      CountCons(xs[0], Filter(xs[1..], p), q);
      FilterCons(xs, p);
    }
  }

  /** Splitting by a predicate and its negation loses no count. */
  lemma {:induction false} CountSplit<T>(xs: seq<T>, p: T -> bool, q: T -> bool, h: T -> bool)
    requires forall i :: 0 <= i < |xs| ==> (p(xs[i]) <==> !q(xs[i]))
    ensures Count(Filter(xs, p), h) + Count(Filter(xs, q), h) == Count(xs, h)
  {
    if xs != [] {
      var rest := xs[1..];
      assert forall i :: 0 <= i < |rest| ==> rest[i] == xs[i + 1];
      CountSplit(rest, p, q, h);
      FilterCons(xs, p);
      FilterCons(xs, q);
      CountCons(xs[0], Filter(rest, p), h);
      CountCons(xs[0], Filter(rest, q), h);
      assert p(xs[0]) <==> !q(xs[0]);
    }
  }

  lemma FilterCons<T>(xs: seq<T>, p: T -> bool)
    requires xs != []
    ensures Filter(xs, p) == if p(xs[0]) then [xs[0]] + Filter(xs[1..], p) else Filter(xs[1..], p)
  {
  }
}
