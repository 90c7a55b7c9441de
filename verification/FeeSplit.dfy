/** Splitting an amount over destinations by basis points, with nothing lost to rounding. */
module FeeSplit {
  const WHOLE := 10000

  datatype Allocation = Allocation(destination: string, bps: int)
  datatype Share = Share(destination: string, bps: int, amountMinor: int)
  datatype Result<+T> = Ok(value: T) | Error(message: string)

  function TotalBps(rows: seq<Allocation>): int {
    if rows == [] then 0 else TotalBps(rows[..|rows| - 1]) + rows[|rows| - 1].bps
  }

  function TotalAmount(shares: seq<Share>): int {
    if shares == [] then 0 else TotalAmount(shares[..|shares| - 1]) + shares[|shares| - 1].amountMinor
  }

  /** The share is the exact part of the amount, rounded down. */
  predicate RoundsDown(amount: int, share: Share) {
    10000 * share.amountMinor <= amount * share.bps < 10000 * share.amountMinor + 10000
  }

  /** The share is at least its exact part and exceeds it by less than one unit for each other destination. */
  predicate TakesRemainder(amount: int, share: Share, others: nat) {
    amount * share.bps <= 10000 * share.amountMinor <= amount * share.bps + 9999 * others
  }

  /** Rows before the last, as far as the loop has come. */
  ghost predicate Assigned(amount: int, rows: seq<Allocation>, shares: seq<Share>) {
    && |shares| <= |rows|
    && forall i :: 0 <= i < |shares| ==> AssignedAt(amount, rows[i], shares[i])
  }

  ghost predicate AssignedAt(amount: int, row: Allocation, share: Share) {
    share.destination == row.destination && share.bps == row.bps && RoundsDown(amount, share)
  }

  lemma SumsAppend(rows: seq<Allocation>, row: Allocation, shares: seq<Share>, share: Share)
    ensures TotalBps(rows + [row]) == TotalBps(rows) + row.bps
    ensures TotalAmount(shares + [share]) == TotalAmount(shares) + share.amountMinor
  {
    assert (rows + [row])[..|rows|] == rows && (shares + [share])[..|shares|] == shares;
  }

  lemma FloorRoundsDown(amount: int, row: Allocation)
    ensures RoundsDown(amount, Share(row.destination, row.bps, amount * row.bps / WHOLE))
  {
    var product := amount * row.bps;
    assert product == product / WHOLE * WHOLE + product % WHOLE;
  }

  /** Rounding down loses less than one unit per share. */
  lemma {:induction false} FloorsLoseLittle(amount: int, rows: seq<Allocation>, shares: seq<Share>)
    requires Assigned(amount, rows, shares) && |shares| == |rows|
    ensures 10000 * TotalAmount(shares) <= amount * TotalBps(rows) <= 10000 * TotalAmount(shares) + 9999 * |rows|
    decreases |rows|
  {
    if rows != [] {
      var n := |rows| - 1;
      FloorsLoseLittle(amount, rows[..n], shares[..n]);
      assert AssignedAt(amount, rows[n], shares[n]);
      Distribute(amount, TotalBps(rows[..n]), rows[n].bps);
    } else {
      Zero(amount);
    }
  }

  lemma Zero(amount: int)
    ensures amount * 0 == 0
  {
  }

  lemma Distribute(a: int, b: int, c: int)
    ensures a * (b + c) == a * b + a * c
  {
  }

  lemma RemainderIsSmall(amount: int, rows: seq<Allocation>, shares: seq<Share>, last: Share)
    requires rows != [] && TotalBps(rows) == WHOLE && last.bps == rows[|rows| - 1].bps
    requires Assigned(amount, rows[..|rows| - 1], shares) && |shares| == |rows| - 1
    requires last.amountMinor == amount - TotalAmount(shares)
    ensures TakesRemainder(amount, last, |rows| - 1)
  {
    var n := |rows| - 1;
    FloorsLoseLittle(amount, rows[..n], shares);
    Distribute(amount, TotalBps(rows[..n]), rows[n].bps);
  }

  lemma NonNegative(amount: int, share: Share)
    requires amount > 0 && share.bps >= 0
    ensures RoundsDown(amount, share) ==> share.amountMinor >= 0
    ensures amount * share.bps <= 10000 * share.amountMinor ==> share.amountMinor >= 0
  {
    assert amount * share.bps >= 0;
  }

  /** Every destination has its share, and nothing is left. */
  ghost predicate Complete(amount: int, rows: seq<Allocation>, shares: seq<Share>) {
    && |shares| == |rows| > 0 && TotalAmount(shares) == amount
    && Assigned(amount, rows, shares[..|rows| - 1])
    && shares[|rows| - 1].destination == rows[|rows| - 1].destination
    && shares[|rows| - 1].bps == rows[|rows| - 1].bps
    && TakesRemainder(amount, shares[|rows| - 1], |rows| - 1)
  }

  /** Where the loop stands. */
  ghost predicate SoFar(amount: int, rows: seq<Allocation>, shares: seq<Share>, given: int) {
    if |shares| < |rows| then Assigned(amount, rows, shares) && TotalAmount(shares) == given
    else Complete(amount, rows, shares)
  }

  function Part(amount: int, bps: int): int {
    amount * bps / WHOLE
  }

  lemma AnotherPart(amount: int, rows: seq<Allocation>, shares: seq<Share>, given: int, share: Share)
    requires |shares| < |rows| - 1 && SoFar(amount, rows, shares, given)
    requires var row := rows[|shares|]; share == Share(row.destination, row.bps, Part(amount, row.bps))
    ensures SoFar(amount, rows, shares + [share], given + share.amountMinor)
  {
    FloorRoundsDown(amount, rows[|shares|]);
    SumsAppend([], rows[|shares|], shares, share);
    assert AssignedAt(amount, rows[|shares|], share);
  }

  lemma LastPart(amount: int, rows: seq<Allocation>, shares: seq<Share>, given: int, share: Share)
    requires |shares| == |rows| - 1 && SoFar(amount, rows, shares, given) && TotalBps(rows) == WHOLE
    requires var row := rows[|shares|]; share == Share(row.destination, row.bps, amount - given)
    ensures Complete(amount, rows, shares + [share])
  {
    assert forall i :: 0 <= i < |shares| ==> rows[..|rows| - 1][i] == rows[i];
    RemainderIsSmall(amount, rows, shares, share);
    SumsAppend([], rows[|shares|], shares, share);
    assert (shares + [share])[..|rows| - 1] == shares;
  }

  lemma CompleteMeans(amount: int, rows: seq<Allocation>, shares: seq<Share>, i: nat)
    requires amount > 0 && Complete(amount, rows, shares) && i < |rows|
    ensures shares[i].destination == rows[i].destination && shares[i].bps == rows[i].bps
    ensures i < |rows| - 1 ==> RoundsDown(amount, shares[i])
    ensures rows[i].bps >= 0 ==> shares[i].amountMinor >= 0
  {
    if i < |rows| - 1 {
      assert AssignedAt(amount, rows[i], shares[..|rows| - 1][i]);
    }
    if rows[i].bps >= 0 {
      NonNegative(amount, shares[i]);
    }
  }

  /**
   * The split keeps every destination and its rule in order and gives away the amount exactly. Every
   * share but the last is rounded down; the last takes what is left. With rules that are not negative
   * no share is.
   */
  method BuildSplitAmounts(amount: int, rows: seq<Allocation>) returns (result: Result<seq<Share>>)
    ensures result.Error? <==> amount <= 0 || TotalBps(rows) != 10000
    ensures amount <= 0 ==> result == Error("amount_minor must be positive")
    ensures result.Ok? ==> |result.value| == |rows| > 0 && TotalAmount(result.value) == amount
    ensures result.Ok? ==> forall i :: 0 <= i < |rows| ==>
              result.value[i].destination == rows[i].destination && result.value[i].bps == rows[i].bps
    ensures result.Ok? ==> forall i :: 0 <= i < |rows| - 1 ==> RoundsDown(amount, result.value[i])
    ensures result.Ok? ==> TakesRemainder(amount, result.value[|rows| - 1], |rows| - 1)
    ensures result.Ok? ==> forall i :: 0 <= i < |rows| && rows[i].bps >= 0 ==> result.value[i].amountMinor >= 0
  {
    if amount <= 0 {
      return Error("amount_minor must be positive");
    }
    if TotalBps(rows) != WHOLE {
      return Error("allocations must total 10000 basis points");
    }
    var shares := SplitAll(amount, rows);
    forall i | 0 <= i < |rows|
      ensures shares[i].destination == rows[i].destination && shares[i].bps == rows[i].bps
      ensures i < |rows| - 1 ==> RoundsDown(amount, shares[i])
      ensures rows[i].bps >= 0 ==> shares[i].amountMinor >= 0
    {
      CompleteMeans(amount, rows, shares, i);
    }
    return Ok(shares);
  }

  /** The loop over the rows. */
  method SplitAll(amount: int, rows: seq<Allocation>) returns (shares: seq<Share>)
    requires amount > 0 && TotalBps(rows) == WHOLE
    ensures Complete(amount, rows, shares)
  {
    shares := [];
    var given := 0;
    for index := 0 to |rows|
      invariant |shares| == index
      invariant SoFar(amount, rows, shares, given)
    {
      var row := rows[index];
      var share;
      if index == |rows| - 1 {
        share := Share(row.destination, row.bps, amount - given);
        LastPart(amount, rows, shares, given, share);
      } else {
        share := Share(row.destination, row.bps, Part(amount, row.bps));
        AnotherPart(amount, rows, shares, given, share);
        given := given + share.amountMinor;
      }
      shares := shares + [share];
    }
  }
}
