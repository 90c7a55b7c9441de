/** Counting wrong passwords and locking the account: a bound on guesses in any quarter of an hour. */
module Lockout {
  import opened Text

  const MAX_FAILED_ATTEMPTS := 5

  /** Fifteen minutes, in microseconds. */
  const LOCKOUT := 15 * 60 * 1_000_000

  datatype Account = Account(failed: nat, lockedUntil: Option<int>)

  /** One login request: whether the user is active, and what the password and the second factor check as. */
  datatype Attempt = Attempt(now: int, active: bool, passwordOk: bool, mfa: Mfa)

  datatype Mfa = NotEnabled | Missing | Wrong | Right

  datatype Response = Unauthorized | Locked | MfaRequired | MfaInvalid | SignedIn

  predicate IsLocked(u: Account, now: int) {
    u.lockedUntil.Some? && u.lockedUntil.value > now
  }

  /** The password of this request is looked at. */
  predicate Evaluated(u: Account, a: Attempt) {
    a.active && !IsLocked(u, a.now)
  }

  predicate WrongGuess(u: Account, a: Attempt) {
    Evaluated(u, a) && !a.passwordOk
  }

  predicate SignsIn(u: Account, a: Attempt) {
    Evaluated(u, a) && a.passwordOk && (a.mfa.NotEnabled? || a.mfa.Right?)
  }

  function Next(u: Account, a: Attempt): Account {
    if WrongGuess(u, a) then
      if u.failed + 1 >= MAX_FAILED_ATTEMPTS then Account(0, Some(a.now + LOCKOUT)) else u.(failed := u.failed + 1)
    else if SignsIn(u, a) then Account(0, None)
    else u
  }

  class PlatformUser {
    var isActive: bool
    var failedLoginAttempts: nat
    var lockedUntil: Option<int>
    var lastLoginAt: Option<int>

    function View(): Account
      reads this
    {
      Account(failedLoginAttempts, lockedUntil)
    }

    method Login(now: int, passwordOk: bool, mfa: Mfa) returns (response: Response)
      modifies this`failedLoginAttempts, this`lockedUntil, this`lastLoginAt
      ensures var u, a := old(View()), Attempt(now, isActive, passwordOk, mfa);
              && View() == Next(u, a)
              && (response == SignedIn <==> SignsIn(u, a))
              && (response == Locked <==> isActive && IsLocked(u, now))
              && (response == MfaRequired <==> Evaluated(u, a) && passwordOk && mfa == Missing)
              && (response == MfaInvalid <==> Evaluated(u, a) && passwordOk && mfa == Wrong)
      ensures lastLoginAt == if response == SignedIn then Some(now) else old(lastLoginAt)
    {
      if !isActive {
        return Unauthorized;
      }
      if lockedUntil.Some? && lockedUntil.value > now {
        return Locked;
      }
      if !passwordOk {
        failedLoginAttempts := failedLoginAttempts + 1;
        if failedLoginAttempts >= MAX_FAILED_ATTEMPTS {
          lockedUntil := Some(now + LOCKOUT);
          failedLoginAttempts := 0;
        }
        return Unauthorized;
      }
      if mfa != NotEnabled {
        if mfa == Missing {
          return MfaRequired;
        }
        if mfa == Wrong {
          return MfaInvalid;
        }
      }
      failedLoginAttempts := 0;
      lockedUntil := None;
      lastLoginAt := Some(now);
      return SignedIn;
    }
  }

  // ---------------------------------------------------------------- runs

  function Last(attempts: seq<Attempt>): Attempt
    requires attempts != []
  {
    attempts[|attempts| - 1]
  }

  function Earlier(attempts: seq<Attempt>): seq<Attempt>
    requires attempts != []
  {
    attempts[..|attempts| - 1]
  }

  function Run(u: Account, attempts: seq<Attempt>): Account
    decreases |attempts|
  {
    if attempts == [] then u else Next(Run(u, Earlier(attempts)), Last(attempts))
  }

  predicate Monotone(attempts: seq<Attempt>) {
    forall i, j :: 0 <= i < j < |attempts| ==> attempts[i].now <= attempts[j].now
  }

  /** Wrong passwords that were evaluated at or after `lo` and before `hi`. */
  function WrongIn(u: Account, attempts: seq<Attempt>, lo: int, hi: int): nat
    decreases |attempts|
  {
    if attempts == [] then 0
    else
      WrongIn(u, Earlier(attempts), lo, hi)
      + (if lo <= Last(attempts).now < hi && WrongGuess(Run(u, Earlier(attempts)), Last(attempts)) then 1 else 0)
  }

  predicate NoSignIn(u: Account, attempts: seq<Attempt>, lo: int, hi: int)
    decreases |attempts|
  {
    attempts != [] ==>
      && NoSignIn(u, Earlier(attempts), lo, hi)
      && !(lo <= Last(attempts).now < hi && SignsIn(Run(u, Earlier(attempts)), Last(attempts)))
  }

  lemma {:induction false} CounterStaysLow(u: Account, attempts: seq<Attempt>)
    requires u.failed < 5
    ensures Run(u, attempts).failed < 5
    decreases |attempts|
  {
    if attempts != [] {
      CounterStaysLow(u, Earlier(attempts));
    }
  }

  /** The counter covers the guesses in the window until one of them locks the account past its end. */
  lemma {:induction false} GuessesAreCounted(u: Account, attempts: seq<Attempt>, lo: int, hi: int)
    requires u.failed < 5 && Monotone(attempts)
    requires hi <= lo + 900_000_000 && NoSignIn(u, attempts, lo, hi)
    ensures WrongIn(u, attempts, lo, hi) <= 5
    ensures (forall i :: 0 <= i < |attempts| ==> attempts[i].now < hi) ==>
              || WrongIn(u, attempts, lo, hi) <= Run(u, attempts).failed
              || IsLocked(Run(u, attempts), hi - 1)
    decreases |attempts|
  {
    CounterStaysLow(u, attempts);
    if attempts != [] {
      var before := Earlier(attempts);
      CounterStaysLow(u, before);
      GuessesAreCounted(u, before, lo, hi);
      assert forall i :: 0 <= i < |before| ==> before[i].now <= Last(attempts).now;
      BeforeTheWindow(u, before, lo, hi, Last(attempts).now);
    }
  }

  lemma {:induction false} BeforeTheWindow(u: Account, attempts: seq<Attempt>, lo: int, hi: int, last: int)
    requires forall i :: 0 <= i < |attempts| ==> attempts[i].now <= last
    ensures last < lo ==> WrongIn(u, attempts, lo, hi) == 0
    decreases |attempts|
  {
    if attempts != [] {
      BeforeTheWindow(u, Earlier(attempts), lo, hi, last);
    }
  }

  /** In any fifteen minutes without a sign-in, at most five wrong passwords are evaluated. */
  lemma FiveGuessesPerWindow(attempts: seq<Attempt>, lo: int)
    requires Monotone(attempts) && NoSignIn(Account(0, None), attempts, lo, lo + 900_000_000)
    ensures WrongIn(Account(0, None), attempts, lo, lo + 900_000_000) <= 5
  {
    GuessesAreCounted(Account(0, None), attempts, lo, lo + LOCKOUT);
  }

  lemma {:induction false} SplitWindow(u: Account, attempts: seq<Attempt>, lo: int, mid: int, hi: int)
    requires lo <= mid <= hi
    ensures WrongIn(u, attempts, lo, hi) == WrongIn(u, attempts, lo, mid) + WrongIn(u, attempts, mid, hi)
    ensures NoSignIn(u, attempts, lo, hi) <==> NoSignIn(u, attempts, lo, mid) && NoSignIn(u, attempts, mid, hi)
    decreases |attempts|
  {
    if attempts != [] {
      SplitWindow(u, Earlier(attempts), lo, mid, hi);
    }
  }

  lemma {:induction false} EmptyWindow(u: Account, attempts: seq<Attempt>, lo: int)
    ensures WrongIn(u, attempts, lo, lo) == 0
    decreases |attempts|
  {
    if attempts != [] {
      EmptyWindow(u, Earlier(attempts), lo);
    }
  }

  /** So `n` quarters of an hour without a sign-in allow at most 5n guesses. */
  lemma {:induction false} GuessingRate(attempts: seq<Attempt>, lo: int, n: nat)
    requires Monotone(attempts) && NoSignIn(Account(0, None), attempts, lo, lo + n * 900_000_000)
    ensures WrongIn(Account(0, None), attempts, lo, lo + n * 900_000_000) <= n * 5
    decreases n
  {
    var u := Account(0, None);
    if n == 0 {
      EmptyWindow(u, attempts, lo);
    } else {
      var mid := lo + (n - 1) * LOCKOUT;
      SplitWindow(u, attempts, lo, mid, lo + n * LOCKOUT);
      GuessingRate(attempts, lo, n - 1);
      FiveGuessesPerWindow(attempts, mid);
    }
  }

  /** The fifth wrong password shuts the account for a quarter of an hour, to the microsecond; the ones before do not. */
  lemma LockLastsAQuarterHour(u: Account, at: int, again: int)
    requires u.lockedUntil.None? && u.failed < 5
    ensures var after := Next(u, Attempt(at, true, false, NotEnabled));
            && (u.failed < 4 ==> after == Account(u.failed + 1, None))
            && (u.failed == 4 ==>
                  && after.failed == 0
                  && (Evaluated(after, Attempt(again, true, true, NotEnabled)) <==> again >= at + 900_000_000))
  {
  }

  /** Requests for an account that is not active, or while it is locked, change nothing. */
  lemma UnheardAttempts(u: Account, a: Attempt)
    requires !a.active || (u.lockedUntil.Some? && a.now < u.lockedUntil.value)
    ensures Next(u, a) == u && !WrongGuess(u, a) && !SignsIn(u, a)
  {
  }

  /** A right password opens the account only with a right second factor, if there is one; otherwise nothing changes. */
  lemma SecondFactorDecides(u: Account, at: int, mfa: Mfa)
    requires u.lockedUntil.Some? ==> u.lockedUntil.value <= at
    ensures Next(u, Attempt(at, true, true, mfa)) == if mfa == NotEnabled || mfa == Right then Account(0, None) else u
  {
  }

  // ---------------------------------------------------------------- what the counter holds

  /** Evaluated wrong passwords since the last sign-in. */
  function WrongSinceSignIn(u: Account, attempts: seq<Attempt>): nat
    decreases |attempts|
  {
    if attempts == [] then 0
    else
      var before, last := Run(u, Earlier(attempts)), Last(attempts);
      if SignsIn(before, last) then 0
      else WrongSinceSignIn(u, Earlier(attempts)) + (if WrongGuess(before, last) then 1 else 0)
  }

  /**
   * The counter is the number of wrong passwords since the last sign-in, modulo five: it never
   * fades with time, and the lock starts exactly at every fifth of them.
   */
  lemma {:induction false} EveryFifthLocks(attempts: seq<Attempt>)
    ensures Run(Account(0, None), attempts).failed == WrongSinceSignIn(Account(0, None), attempts) % 5
    ensures attempts != [] && WrongGuess(Run(Account(0, None), Earlier(attempts)), Last(attempts)) ==>
              IsLocked(Run(Account(0, None), attempts), Last(attempts).now)
              == (WrongSinceSignIn(Account(0, None), attempts) % 5 == 0)
    decreases |attempts|
  {
    if attempts != [] {
      EveryFifthLocks(Earlier(attempts));
    }
  }

  // ---------------------------------------------------------------- the bound is sharp

  function Guess(now: int): Attempt {
    Attempt(now, true, false, NotEnabled)
  }

  function Guesses(now: int, n: nat): seq<Attempt>
    decreases n, now
  {
    if n == 0 then [] else Guesses(now, n - 1) + [Guess(now)]
  }

  /** From an unlocked account, up to four guesses are counted and the fifth locks. */
  lemma {:induction false} GuessingFrom(u: Account, attempts: seq<Attempt>, now: int, n: nat, lo: int, hi: int)
    requires Run(u, attempts).failed == 0 && !IsLocked(Run(u, attempts), now) && n <= 5
    requires lo <= now < hi
    ensures Run(u, attempts + Guesses(now, n))
            == if n < 5 then Run(u, attempts).(failed := n) else Account(0, Some(now + 900_000_000))
    ensures WrongIn(u, attempts + Guesses(now, n), lo, hi) == WrongIn(u, attempts, lo, hi) + n
    decreases n
  {
    if n == 0 {
      assert attempts + Guesses(now, 0) == attempts;
    } else {
      var all := attempts + Guesses(now, n);
      assert Earlier(all) == attempts + Guesses(now, n - 1) && Last(all) == Guess(now);
      GuessingFrom(u, attempts, now, n - 1, lo, hi);
    }
  }

  /** The window must be half open: a lock ends at the very moment it was set for. */
  lemma TenGuessesInAClosedWindow()
    ensures WrongIn(Account(0, None), Guesses(0, 5) + Guesses(900_000_000, 5), 0, 900_000_000 + 1) == 10
  {
    var u := Account(0, None);
    GuessingFrom(u, [], 0, 5, 0, LOCKOUT + 1);
    assert [] + Guesses(0, 5) == Guesses(0, 5);
    GuessingFrom(u, Guesses(0, 5), LOCKOUT, 5, 0, LOCKOUT + 1);
  }

  /** The window must hold no sign-in: knowing the password resets the counter. */
  lemma EightGuessesAroundASignIn()
    ensures WrongIn(Account(0, None), Guesses(0, 4) + [Attempt(1, true, true, NotEnabled)] + Guesses(2, 4), 0, 900_000_000) == 8
  {
    var u := Account(0, None);
    GuessingFrom(u, [], 0, 4, 0, LOCKOUT);
    assert [] + Guesses(0, 4) == Guesses(0, 4);
    var attempts := Guesses(0, 4) + [Attempt(1, true, true, NotEnabled)];
    assert Earlier(attempts) == Guesses(0, 4);
    GuessingFrom(u, attempts, 2, 4, 0, LOCKOUT);
  }
}
