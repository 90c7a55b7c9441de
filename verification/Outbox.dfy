/**
 * The event outbox: retry with backoff, dead-lettering, and a bounded batch over a queue that may
 * hold any number of failing events. The queue is the table in order of event id.
 */
module Outbox {
  import opened Text
  import opened Counting

  const MAX_ATTEMPTS := 8
  const BACKOFF_BASE_SECONDS := 30
  const BACKOFF_CAP_SECONDS := 3600

  datatype Status = Pending | Delivered | DeadLetter

  datatype Entry = Entry(id: nat, published: bool, status: Status, attempts: nat, nextAttemptAt: Option<int>)

  /** The receiver's HTTP status, or no answer at all. */
  datatype Outcome = Answered(code: int) | TransportError

  /** What came back for an event, and the time at which the row was marked. */
  datatype Answer = Answer(at: int, outcome: Outcome)

  function Pow2(n: nat): nat {
    if n == 0 then 1 else 2 * Pow2(n - 1)
  }

  function BackoffSeconds(attempts: nat): nat {
    var uncapped := BACKOFF_BASE_SECONDS * Pow2(if attempts >= 1 then attempts - 1 else 0);
    if uncapped < BACKOFF_CAP_SECONDS then uncapped else BACKOFF_CAP_SECONDS
  }

  function Failed(e: Entry, at: int): Entry {
    var n := e.attempts + 1;
    if n >= MAX_ATTEMPTS then e.(attempts := n, status := DeadLetter, nextAttemptAt := None)
    else e.(attempts := n, status := Pending, nextAttemptAt := Some(at + BackoffSeconds(n)))
  }

  predicate Accepted(o: Outcome) {
    o.Answered? && o.code < 300
  }

  /** Rejected on content or authorisation: retrying the same bytes cannot help. */
  predicate Rejected(o: Outcome) {
    o.Answered? && o.code in {400, 401, 403, 422}
  }

  function AfterPost(e: Entry, a: Answer): Entry {
    if Accepted(a.outcome) then e.(published := true, status := Delivered, nextAttemptAt := None)
    else if Rejected(a.outcome) then
      Failed(e, a.at).(attempts := MAX_ATTEMPTS, status := DeadLetter, nextAttemptAt := None)
    else Failed(e, a.at)
  }

  predicate Due(e: Entry, now: int) {
    && !e.published && e.status != DeadLetter
    && (e.nextAttemptAt.None? || e.nextAttemptAt.value <= now)
  }

  function DueAt(now: int): Entry -> bool {
    (e: Entry) => Due(e, now)
  }

  /** One batch: the first `room` due rows are posted and marked, the rest stay as they are. */
  function Batch(q: seq<Entry>, now: int, room: nat, answers: nat -> Answer): (q': seq<Entry>)
    ensures |q'| == |q|
  {
    if q == [] then []
    else if Due(q[0], now) && room > 0 then [AfterPost(q[0], answers(q[0].id))] + Batch(q[1..], now, room - 1, answers)
    else [q[0]] + Batch(q[1..], now, room, answers)
  }

  /**
   * What the receiver's answer does to an event: below 300 it is delivered, 400, 401, 403 and 422 end it, and
   * anything else, no answer included, is retried until the eighth attempt.
   */
  lemma AnswerDecides(e: Entry, a: Answer)
    ensures var e', o := AfterPost(e, a), a.outcome;
            && e'.id == e.id
            && (o.Answered? && o.code < 300 ==> e' == Entry(e.id, true, Delivered, e.attempts, None))
            && (o.Answered? && (o.code == 400 || o.code == 401 || o.code == 403 || o.code == 422) ==>
                  e' == Entry(e.id, e.published, DeadLetter, 8, None))
            && (o.TransportError? || (o.code >= 300 && o.code != 400 && o.code != 401 && o.code != 403 && o.code != 422) ==>
                  && e'.attempts == e.attempts + 1 && e'.published == e.published
                  && (e.attempts >= 7 ==> e'.status == DeadLetter && e'.nextAttemptAt == None)
                  && (e.attempts < 7 ==> e'.status == Pending && e'.nextAttemptAt == Some(a.at + 30 * Pow2(e.attempts))))
  {
    if e.attempts < 7 {
      DelayDoubles(e.attempts + 1);
    }
  }

  lemma DelayDoubles(k: nat)
    requires 1 <= k <= 7
    ensures BackoffSeconds(k) == 30 * Pow2(k - 1)
    ensures BackoffSeconds(k) == [30, 60, 120, 240, 480, 960, 1920][k - 1]
  {
    PowersTo7();
    assert k in {1, 2, 3, 4, 5, 6, 7};
  }

  /** An event is due from its next attempt's time on, at once when it has none, and never again when it is done. */
  lemma DueExactly(e: Entry, now: int)
    ensures Due(e, now) <==> !e.published && e.status != DeadLetter && (e.nextAttemptAt.Some? ==> e.nextAttemptAt.value <= now)
  {
  }

  // ---------------------------------------------------------------- one event

  /** A post made at a pass that started at `now`. */
  datatype Post = Post(now: int, answer: Answer)

  function Fresh(id: nat): Entry {
    Entry(id, false, Pending, 0, None)
  }

  predicate Finished(e: Entry) {
    e.published || e.status == DeadLetter
  }

  predicate Healthy(e: Entry) {
    match e.status
    case Pending => !e.published && e.attempts < 8
    case Delivered => e.published
    case DeadLetter => !e.published
  }

  function Replay(e: Entry, posts: seq<Post>): Entry
    decreases |posts|
  {
    if posts == [] then e else Replay(AfterPost(e, posts[0].answer), posts[1..])
  }

  /** Each post was made when the event was due. */
  predicate Legal(e: Entry, posts: seq<Post>)
    decreases |posts|
  {
    posts != [] ==> Due(e, posts[0].now) && Legal(AfterPost(e, posts[0].answer), posts[1..])
  }

  function Left(e: Entry): nat {
    if Finished(e) || e.attempts >= MAX_ATTEMPTS then 0 else MAX_ATTEMPTS - e.attempts
  }

  lemma PostUsesAnAttempt(e: Entry, a: Answer, now: int)
    requires Healthy(e) && Due(e, now)
    ensures Healthy(AfterPost(e, a)) && Left(AfterPost(e, a)) < Left(e)
  {
  }

  /** An event is posted at most as often as it has attempts left: eight times when it is new. */
  lemma {:induction false} AttemptsBoundPosts(e: Entry, posts: seq<Post>)
    requires Healthy(e) && Legal(e, posts)
    ensures |posts| <= Left(e)
    ensures Healthy(Replay(e, posts))
    decreases |posts|
  {
    if posts != [] {
      PostUsesAnAttempt(e, posts[0].answer, posts[0].now);
      AttemptsBoundPosts(AfterPost(e, posts[0].answer), posts[1..]);
    }
  }

  lemma {:induction false} ReplaySnoc(e: Entry, posts: seq<Post>, p: Post)
    ensures Replay(e, posts + [p]) == AfterPost(Replay(e, posts), p.answer)
    ensures Legal(e, posts + [p]) <==> Legal(e, posts) && Due(Replay(e, posts), p.now)
    decreases |posts|
  {
    var all := posts + [p];
    if posts == [] {
      assert all[1..] == [];
    } else {
      assert all[1..] == posts[1..] + [p];
      ReplaySnoc(AfterPost(e, posts[0].answer), posts[1..], p);
    }
  }

  predicate Retryable(o: Outcome) {
    !Accepted(o) && !Rejected(o)
  }

  /** What a life of posts means, without replaying it. */
  ghost predicate Outlives(posts: seq<Post>, e: Entry) {
    && (forall k :: 0 <= k < |posts| - 1 ==> Retryable(posts[k].answer.outcome))
    && (posts == [] ==> e.status == Pending && !e.published && e.attempts == 0 && e.nextAttemptAt == None)
    && (posts != [] ==>
          var last := posts[|posts| - 1].answer;
          && (e.status == Delivered <==> Accepted(last.outcome))
          && (e.status == DeadLetter <==> Rejected(last.outcome) || (!Accepted(last.outcome) && |posts| == 8))
          && (e.published <==> e.status == Delivered)
          && (e.status == Pending ==>
                e.attempts == |posts| && e.nextAttemptAt == Some(last.at + BackoffSeconds(|posts|))))
  }

  /**
   * A new event ends delivered exactly when its last post was accepted, and dead-lettered exactly when
   * the last post was rejected or was the eighth; every earlier post failed in a way worth retrying.
   */
  lemma {:induction false} LifeOfAnEvent(id: nat, posts: seq<Post>)
    requires Legal(Fresh(id), posts)
    ensures |posts| <= 8
    ensures Outlives(posts, Replay(Fresh(id), posts))
    decreases |posts|
  {
    AttemptsBoundPosts(Fresh(id), posts);
    if posts != [] {
      var n := |posts| - 1;
      var before, p := posts[..n], posts[n];
      assert posts == before + [p];
      ReplaySnoc(Fresh(id), before, p);
      LifeOfAnEvent(id, before);
      var e := Replay(Fresh(id), before);
      assert Due(e, p.now);
      assert e.status == Pending && e.attempts == n;
      assert n > 0 ==> Retryable(before[n - 1].answer.outcome);
    }
  }

  lemma {:induction false} LegalPrefix(e: Entry, posts: seq<Post>, n: nat)
    requires n <= |posts| && Legal(e, posts)
    ensures Legal(e, posts[..n])
    decreases |posts|
  {
    if n > 0 {
      LegalPrefix(AfterPost(e, posts[0].answer), posts[1..], n - 1);
      assert posts[..n][1..] == posts[1..][..n - 1];
    }
  }

  lemma PowersTo7()
    ensures Pow2(0) == 1 && Pow2(1) == 2 && Pow2(2) == 4 && Pow2(3) == 8 && Pow2(4) == 16
    ensures Pow2(5) == 32 && Pow2(6) == 64 && Pow2(7) == 128
  {
    assert Pow2(2) == 4;
    assert Pow2(4) == 16;
    assert Pow2(6) == 64;
  }

  /** The cap bites only from the eighth failure on, and the eighth failure is not retried. */
  lemma CapIsNeverReached(k: nat)
    requires 1 <= k
    ensures k < 8 ==> BackoffSeconds(k) == 30 * Pow2(k - 1)
    ensures k < 8 <==> BackoffSeconds(k) < 3600
    ensures k >= 8 ==> BackoffSeconds(k) == 3600
  {
    PowersTo7();
    if k >= MAX_ATTEMPTS {
      PowGrows(7, k - 1);
    }
  }

  lemma {:induction false} PowGrows(m: nat, n: nat)
    requires m <= n
    ensures Pow2(m) <= Pow2(n)
    decreases n
  {
    if m < n {
      PowGrows(m, n - 1);
    }
  }

  /** Retry `k` comes no sooner than the doubled delay after the failure before it was marked. */
  lemma RetrySpacing(id: nat, posts: seq<Post>, k: nat)
    requires Legal(Fresh(id), posts) && 0 < k < |posts|
    ensures k < 8 && posts[k].now >= posts[k - 1].answer.at + 30 * Pow2(k - 1)
  {
    AttemptsBoundPosts(Fresh(id), posts);
    LegalPrefix(Fresh(id), posts, k + 1);
    assert posts[..k + 1] == posts[..k] + [posts[k]];
    ReplaySnoc(Fresh(id), posts[..k], posts[k]);
    LifeOfAnEvent(id, posts[..k]);
    CapIsNeverReached(k);
  }

  /** Marking a row happens after its pass started. */
  predicate Timely(posts: seq<Post>) {
    forall k :: 0 <= k < |posts| ==> posts[k].now <= posts[k].answer.at
  }

  /** The delays add up: n retries take at least 30 * (2^n - 1) seconds. */
  lemma {:induction false} RetriesTakeTime(id: nat, posts: seq<Post>, n: nat)
    requires Legal(Fresh(id), posts) && Timely(posts) && n < |posts|
    ensures posts[n].now >= posts[0].now + 30 * (Pow2(n) - 1)
    decreases n
  {
    if n > 0 {
      RetriesTakeTime(id, posts, n - 1);
      RetrySpacing(id, posts, n);
    }
  }

  /** The eighth and last post comes no sooner than 63 and a half minutes after the first. */
  lemma LastPostIsAnHourLater(id: nat, posts: seq<Post>)
    requires Legal(Fresh(id), posts) && Timely(posts) && |posts| == 8
    ensures posts[7].now >= posts[0].now + 3810
  {
    RetriesTakeTime(id, posts, 7);
    PowersTo7();
  }

  // ---------------------------------------------------------------- the queue over a run

  datatype Step =
    | Arrive(id: nat)
    | Drain(now: int, limit: nat, configured: bool, answers: nat -> Answer)

  /** A drain without a webhook address leaves every row as it is. */
  function Take(q: seq<Entry>, s: Step): (q': seq<Entry>)
    ensures |q| <= |q'|
  {
    match s
    case Arrive(id) => q + [Fresh(id)]
    case Drain(now, limit, configured, answers) => if configured then Batch(q, now, limit, answers) else q
  }

  function Run(q: seq<Entry>, steps: seq<Step>): (q': seq<Entry>)
    ensures |q| <= |q'|
    decreases |steps|
  {
    if steps == [] then q else Run(Take(q, steps[0]), steps[1..])
  }

  /** An event joins the queue at its end, undelivered, without attempts, and is due at once. */
  lemma ArrivalIsDue(q: seq<Entry>, id: nat, now: int)
    ensures Take(q, Arrive(id)) == q + [Entry(id, false, Pending, 0, None)]
    ensures Due(Take(q, Arrive(id))[|q|], now)
  {
  }

  predicate Posted(q: seq<Entry>, s: Step, i: nat) {
    && i < |q| && s.Drain? && s.configured && Due(q[i], s.now)
    && Count(q[..i], DueAt(s.now)) < s.limit
  }

  lemma {:induction false} BatchAt(q: seq<Entry>, now: int, room: nat, answers: nat -> Answer, i: nat)
    requires i < |q|
    ensures Batch(q, now, room, answers)[i]
            == if Due(q[i], now) && Count(q[..i], DueAt(now)) < room then AfterPost(q[i], answers(q[i].id)) else q[i]
    decreases i
  {
    if i > 0 {
      assert q[..i][1..] == q[1..][..i - 1];
      BatchAt(q[1..], now, if Due(q[0], now) && room > 0 then room - 1 else room, answers, i - 1);
    }
  }

  /** What one step does to one row. */
  lemma TakeAt(q: seq<Entry>, s: Step, i: nat)
    requires i < |q|
    ensures Take(q, s)[i] == if Posted(q, s, i) then AfterPost(q[i], s.answers(q[i].id)) else q[i]
  {
    if s.Drain? && s.configured {
      BatchAt(q, s.now, s.limit, s.answers, i);
    }
  }

  /** The posts of row `i` over a run; a row that has not arrived has none. */
  function PostsOf(q: seq<Entry>, steps: seq<Step>, i: nat): seq<Post>
    decreases |steps|
  {
    if steps == [] then []
    else (if Posted(q, steps[0], i) then [Post(steps[0].now, steps[0].answers(q[i].id))] else [])
         + PostsOf(Take(q, steps[0]), steps[1..], i)
  }

  /** A run does to a row exactly what its posts do to it, and posts it only when it is due. */
  lemma {:induction false} RunIsReplay(q: seq<Entry>, steps: seq<Step>, i: nat)
    requires i < |q|
    ensures Legal(q[i], PostsOf(q, steps, i))
    ensures Run(q, steps)[i] == Replay(q[i], PostsOf(q, steps, i))
    decreases |steps|
  {
    if steps != [] {
      var s := steps[0];
      TakeAt(q, s, i);
      RunIsReplay(Take(q, s), steps[1..], i);
      var rest := PostsOf(Take(q, s), steps[1..], i);
      if Posted(q, s, i) {
        var p := Post(s.now, s.answers(q[i].id));
        assert ([p] + rest)[1..] == rest;
      } else {
        assert [] + rest == rest;
      }
    }
  }

  ghost predicate AllHealthy(q: seq<Entry>) {
    forall i :: 0 <= i < |q| ==> Healthy(q[i])
  }

  lemma TakeKeepsHealthy(q: seq<Entry>, s: Step)
    requires AllHealthy(q)
    ensures AllHealthy(Take(q, s))
  {
    forall i | 0 <= i < |Take(q, s)|
      ensures Healthy(Take(q, s)[i])
    {
      if i < |q| {
        TakeAt(q, s, i);
        if Posted(q, s, i) {
          PostUsesAnAttempt(q[i], s.answers(q[i].id), s.now);
        }
      }
    }
  }

  /** Over any run each row, present at the start or arriving later, is posted at most eight times. */
  lemma {:induction false} PostedAtMostEightTimes(q: seq<Entry>, steps: seq<Step>, i: nat)
    requires AllHealthy(q)
    ensures |PostsOf(q, steps, i)| <= 8
    decreases |steps|
  {
    if i < |q| {
      RunIsReplay(q, steps, i);
      AttemptsBoundPosts(q[i], PostsOf(q, steps, i));
    } else if steps != [] {
      TakeKeepsHealthy(q, steps[0]);
      PostedAtMostEightTimes(Take(q, steps[0]), steps[1..], i);
    }
  }

  /** Delivered and dead-lettered rows are never posted nor changed again. */
  lemma FinishedIsAbsorbing(q: seq<Entry>, steps: seq<Step>, i: nat)
    requires i < |q| && Finished(q[i])
    ensures PostsOf(q, steps, i) == [] && Run(q, steps)[i] == q[i]
  {
    RunIsReplay(q, steps, i);
  }

  // ---------------------------------------------------------------- fairness

  /** The attempts that the given rows still have. */
  function AttemptsLeft(q: seq<Entry>): nat {
    if q == [] then 0 else Left(q[0]) + AttemptsLeft(q[1..])
  }

  function Unfinished(): Entry -> bool {
    (e: Entry) => !Finished(e)
  }

  lemma {:induction false} AtMostEightEach(q: seq<Entry>)
    ensures AttemptsLeft(q) <= 8 * Count(q, Unfinished())
  {
    if q != [] {
      AtMostEightEach(q[1..]);
    }
  }

  /** A batch uses up at least as many attempts as it posts rows. */
  lemma {:induction false} BatchUsesAttempts(q: seq<Entry>, now: int, room: nat, answers: nat -> Answer)
    requires AllHealthy(q)
    ensures var due := Count(q, DueAt(now));
            AttemptsLeft(Batch(q, now, room, answers)) + (if due < room then due else room) <= AttemptsLeft(q)
  {
    if q != [] {
      assert forall i :: 0 <= i < |q| - 1 ==> q[1..][i] == q[i + 1];
      if Due(q[0], now) && room > 0 {
        PostUsesAnAttempt(q[0], answers(q[0].id), now);
        BatchUsesAttempts(q[1..], now, room - 1, answers);
        assert Batch(q, now, room, answers)[1..] == Batch(q[1..], now, room - 1, answers);
      } else {
        BatchUsesAttempts(q[1..], now, room, answers);
        assert Batch(q, now, room, answers)[1..] == Batch(q[1..], now, room, answers);
      }
    }
  }

  lemma {:induction false} BatchPrefix(q: seq<Entry>, now: int, room: nat, answers: nat -> Answer, i: nat)
    requires i <= |q|
    ensures Batch(q, now, room, answers)[..i] == Batch(q[..i], now, room, answers)
    decreases i
  {
    if i > 0 {
      var room' := if Due(q[0], now) && room > 0 then room - 1 else room;
      BatchPrefix(q[1..], now, room', answers, i - 1);
      assert q[..i][1..] == q[1..][..i - 1];
      assert Batch(q, now, room, answers) == [Batch(q, now, room, answers)[0]] + Batch(q[1..], now, room', answers);
    }
  }

  /** The event was due at this pass and the batch had no room for it. */
  predicate PassedOver(q: seq<Entry>, s: Step, i: nat) {
    i < |q| && s.Drain? && s.configured && Due(q[i], s.now) && !Posted(q, s, i)
  }

  /** A pass that skips a due event spends a whole batch on the older ones; no step gives attempts back. */
  lemma SkippingSpendsABatch(q: seq<Entry>, s: Step, i: nat)
    requires i < |q| && AllHealthy(q)
    ensures AttemptsLeft(Take(q, s)[..i]) + (if PassedOver(q, s, i) then s.limit else 0) <= AttemptsLeft(q[..i])
  {
    match s
    case Arrive(id) =>
      assert (q + [Fresh(id)])[..i] == q[..i];
    case Drain(now, limit, configured, answers) =>
      if configured {
        assert forall k :: 0 <= k < i ==> q[..i][k] == q[k];
        BatchUsesAttempts(q[..i], now, limit, answers);
        BatchPrefix(q, now, limit, answers, i);
      }
  }

  function TimesPassedOver(q: seq<Entry>, steps: seq<Step>, i: nat): nat
    decreases |steps|
  {
    if steps == [] then 0
    else (if PassedOver(q, steps[0], i) then 1 else 0) + TimesPassedOver(Take(q, steps[0]), steps[1..], i)
  }

  predicate LimitIs(steps: seq<Step>, limit: nat) {
    forall k :: 0 <= k < |steps| && steps[k].Drain? ==> steps[k].limit == limit
  }

  lemma TimesOneMore(m: nat, n: nat, limit: nat, spent: nat)
    requires m * limit <= n
    ensures (m + 1) * limit <= n + limit
  {
  }

  lemma {:induction false} PassesSpendAttempts(q: seq<Entry>, steps: seq<Step>, i: nat, limit: nat)
    requires i < |q| && AllHealthy(q) && LimitIs(steps, limit)
    ensures TimesPassedOver(q, steps, i) * limit <= AttemptsLeft(q[..i])
    decreases |steps|
  {
    if steps != [] {
      var s := steps[0];
      TakeKeepsHealthy(q, s);
      SkippingSpendsABatch(q, s, i);
      assert forall k :: 0 <= k < |steps| - 1 ==> steps[1..][k] == steps[k + 1];
      PassesSpendAttempts(Take(q, s), steps[1..], i, limit);
      if PassedOver(q, s, i) {
        TimesOneMore(TimesPassedOver(Take(q, s), steps[1..], i), AttemptsLeft(Take(q, s)[..i]), limit, limit);
      }
    }
  }

  /** The passes of a run that found row `i` due. */
  function TimesDue(q: seq<Entry>, steps: seq<Step>, i: nat): nat
    decreases |steps|
  {
    if steps == [] then 0
    else (if PassedOver(q, steps[0], i) || Posted(q, steps[0], i) then 1 else 0) + TimesDue(Take(q, steps[0]), steps[1..], i)
  }

  lemma {:induction false} DueIsPostedOrPassedOver(q: seq<Entry>, steps: seq<Step>, i: nat)
    ensures TimesDue(q, steps, i) == TimesPassedOver(q, steps, i) + |PostsOf(q, steps, i)|
    decreases |steps|
  {
    if steps != [] {
      DueIsPostedOrPassedOver(Take(q, steps[0]), steps[1..], i);
    }
  }

  /**
   * Fairness: with k older unfinished events, a due event is passed over at most 8k/limit times in all,
   * whatever the older ones return and however many newer ones arrive. So a run in which it is due in
   * one pass more than that has posted it.
   */
  lemma DueEventIsReached(q: seq<Entry>, steps: seq<Step>, i: nat, limit: nat, k: nat)
    requires i < |q| && AllHealthy(q) && LimitIs(steps, limit) && limit > 0
    requires k == Count(q[..i], Unfinished())
    ensures TimesPassedOver(q, steps, i) <= 8 * k / limit
    ensures TimesDue(q, steps, i) > 8 * k / limit ==> PostsOf(q, steps, i) != []
  {
    PassesSpendAttempts(q, steps, i, limit);
    AtMostEightEach(q[..i]);
    QuotientBound(TimesPassedOver(q, steps, i), limit, MAX_ATTEMPTS * k);
    DueIsPostedOrPassedOver(q, steps, i);
  }

  lemma QuotientBound(m: nat, limit: nat, n: nat)
    requires limit > 0 && m * limit <= n
    ensures m <= n / limit
  {
    var quotient, rest := n / limit, n % limit;
    assert n == quotient * limit + rest;
    assert (m - quotient) * limit == m * limit - quotient * limit;
    LessThanOnce(m - quotient, limit);
  }

  lemma LessThanOnce(d: int, limit: nat)
    requires d * limit < limit
    ensures d < 1
  {
  }
}
