/** The worker that drains the outbox: rows are objects, marked in place while the batch goes on. */
module OutboxWorker {
  import opened Text
  import opened Counting
  import opened Outbox

  class OutboxEvent {
    const id: nat
    var published: bool
    var publishedAt: Option<int>
    var deliveryStatus: Status
    var attempts: nat
    var nextAttemptAt: Option<int>

    constructor (id: nat)
      ensures this.id == id && View() == Fresh(id) && publishedAt == None
    {
      this.id := id;
      published, publishedAt, deliveryStatus, attempts, nextAttemptAt := false, None, Pending, 0, None;
    }

    function View(): Entry
      reads this
    {
      Entry(id, published, deliveryStatus, attempts, nextAttemptAt)
    }

    method MarkFailed(at: int)
      modifies this
      ensures View() == Failed(old(View()), at) && publishedAt == old(publishedAt)
    {
      attempts := attempts + 1;
      if attempts >= MAX_ATTEMPTS {
        deliveryStatus := DeadLetter;
        nextAttemptAt := None;
      } else {
        var delay := BackoffSeconds(attempts);
        deliveryStatus := Pending;
        nextAttemptAt := Some(at + delay);
      }
    }

    method MarkDelivered(at: int)
      modifies this
      ensures View() == old(View()).(published := true, status := Delivered, nextAttemptAt := None)
      ensures publishedAt == Some(at)
    {
      published := true;
      publishedAt := Some(at);
      deliveryStatus := Delivered;
      nextAttemptAt := None;
    }

    /** What the worker does with the receiver's answer. */
    method Record(answer: Answer) returns (ok: bool)
      modifies this
      ensures View() == AfterPost(old(View()), answer) && ok == Accepted(answer.outcome)
      ensures publishedAt == if ok then Some(answer.at) else old(publishedAt)
    {
      ok := false;
      if answer.outcome.TransportError? {
        MarkFailed(answer.at);
      } else if answer.outcome.code < 300 {
        MarkDelivered(answer.at);
        ok := true;
      } else if answer.outcome.code in {400, 401, 403, 422} {
        MarkFailed(answer.at);
        attempts := MAX_ATTEMPTS;
        deliveryStatus := DeadLetter;
        nextAttemptAt := None;
      } else {
        MarkFailed(answer.at);
      }
    }
  }

  /** The rows are in order of id, so they are different objects. */
  ghost predicate Table(rows: seq<OutboxEvent>) {
    forall i, j {:trigger rows[i].id, rows[j].id} :: 0 <= i < j < |rows| ==> rows[i].id < rows[j].id
  }

  function Views(rows: seq<OutboxEvent>): seq<Entry>
    reads rows
  {
    seq(|rows|, i requires 0 <= i < |rows| reads rows => rows[i].View())
  }

  /** The positions of the due rows before `n`, the first `limit` of them, in order of id. */
  function Selected(q: seq<Entry>, now: int, limit: nat, n: nat): (picked: seq<nat>)
    requires n <= |q|
    ensures |picked| <= limit
    ensures forall k :: 0 <= k < |picked| ==> picked[k] < n
  {
    if n == 0 then []
    else
      var before := Selected(q, now, limit, n - 1);
      if Due(q[n - 1], now) && |before| < limit then before + [n - 1] else before
  }

  lemma {:induction false} SelectedAre(q: seq<Entry>, now: int, limit: nat, n: nat)
    requires n <= |q|
    ensures var due := Count(q[..n], DueAt(now)); |Selected(q, now, limit, n)| == if due < limit then due else limit
    ensures forall i :: i in Selected(q, now, limit, n) <==> 0 <= i < n && Due(q[i], now) && Count(q[..i], DueAt(now)) < limit
  {
    if n > 0 {
      SelectedAre(q, now, limit, n - 1);
      assert q[..n] == q[..n - 1] + [q[n - 1]];
      CountAppend(q[..n - 1], q[n - 1], DueAt(now));
    }
  }

  predicate Ascending(picked: seq<nat>) {
    forall j, k :: 0 <= j < k < |picked| ==> picked[j] < picked[k]
  }

  lemma AscendingSnoc(picked: seq<nat>, n: nat)
    requires Ascending(picked) && forall k :: 0 <= k < |picked| ==> picked[k] < n
    ensures Ascending(picked + [n])
  {
  }

  lemma {:induction false} SelectedAscend(q: seq<Entry>, now: int, limit: nat, n: nat)
    requires n <= |q|
    ensures Ascending(Selected(q, now, limit, n))
  {
    if n > 0 {
      SelectedAscend(q, now, limit, n - 1);
      AscendingSnoc(Selected(q, now, limit, n - 1), n - 1);
    }
  }

  /** The query: due rows in order of id, at most `limit`. */
  method SelectDue(rows: seq<OutboxEvent>, now: int, limit: nat) returns (picked: seq<nat>)
    ensures picked == Selected(Views(rows), now, limit, |rows|)
  {
    picked := [];
    for n := 0 to |rows|
      invariant picked == Selected(Views(rows), now, limit, n)
    {
      if Due(rows[n].View(), now) && |picked| < limit {
        picked := picked + [n];
      }
    }
  }

  datatype Summary = Summary(processed: nat, published: nat, failed: nat)

  predicate InRange(picked: seq<nat>, n: nat) {
    forall k :: 0 <= k < |picked| ==> picked[k] < n
  }

  /** The rows after the picked ones were marked, one after the other. */
  function Marked(q: seq<Entry>, picked: seq<nat>, answers: nat -> Answer): (q': seq<Entry>)
    requires InRange(picked, |q|)
    ensures |q'| == |q|
    decreases |picked|
  {
    if picked == [] then q
    else
      var rest, i := Marked(q, picked[..|picked| - 1], answers), picked[|picked| - 1];
      rest[i := AfterPost(rest[i], answers(rest[i].id))]
  }

  lemma {:induction false} MarkedAt(q: seq<Entry>, picked: seq<nat>, answers: nat -> Answer, i: nat)
    requires InRange(picked, |q|) && i < |q| && Ascending(picked)
    ensures Marked(q, picked, answers)[i] == if i in picked then AfterPost(q[i], answers(q[i].id)) else q[i]
    decreases |picked|
  {
    if picked != [] {
      var n := |picked| - 1;
      assert picked == picked[..n] + [picked[n]];
      MarkedAt(q, picked[..n], answers, i);
    }
  }

  lemma MarkingTheSelected(q: seq<Entry>, now: int, limit: nat, answers: nat -> Answer)
    ensures InRange(Selected(q, now, limit, |q|), |q|)
    ensures Marked(q, Selected(q, now, limit, |q|), answers) == Batch(q, now, limit, answers)
  {
    var picked := Selected(q, now, limit, |q|);
    SelectedAscend(q, now, limit, |q|);
    SelectedAre(q, now, limit, |q|);
    forall i | 0 <= i < |q|
      ensures Marked(q, picked, answers)[i] == Batch(q, now, limit, answers)[i]
    {
      MarkedAt(q, picked, answers, i);
      BatchAt(q, now, limit, answers, i);
    }
  }

  function IsPublished(): Entry -> bool {
    (e: Entry) => e.published
  }

  function PublishedCount(q: seq<Entry>): nat {
    Count(q, IsPublished())
  }

  lemma CountOneChanged<T>(xs: seq<T>, ys: seq<T>, i: nat, p: T -> bool)
    requires i < |xs| && i < |ys| && ys == xs[i := ys[i]]
    ensures Count(ys, p) == Count(xs, p) - (if p(xs[i]) then 1 else 0) + (if p(ys[i]) then 1 else 0)
  {
    assert xs == xs[..i] + ([xs[i]] + xs[i + 1..]) && ys == xs[..i] + ([ys[i]] + xs[i + 1..]);
    CountConcat(xs[..i], [xs[i]] + xs[i + 1..], p);
    CountConcat(xs[..i], [ys[i]] + xs[i + 1..], p);
    CountCons(xs[i], xs[i + 1..], p);
    CountCons(ys[i], xs[i + 1..], p);
  }

  /** How many of the picked rows were accepted. */
  function AcceptedAmong(q: seq<Entry>, picked: seq<nat>, answers: nat -> Answer): nat
    requires InRange(picked, |q|)
    decreases |picked|
  {
    if picked == [] then 0
    else AcceptedAmong(q, picked[..|picked| - 1], answers)
         + (if Accepted(answers(q[picked[|picked| - 1]].id).outcome) then 1 else 0)
  }

  /** Marking publishes as many rows as were accepted. */
  lemma {:induction false} MarkingPublishes(q: seq<Entry>, picked: seq<nat>, answers: nat -> Answer)
    requires InRange(picked, |q|) && Ascending(picked)
    requires forall k :: 0 <= k < |picked| ==> !q[picked[k]].published
    ensures PublishedCount(Marked(q, picked, answers)) == PublishedCount(q) + AcceptedAmong(q, picked, answers)
    decreases |picked|
  {
    if picked != [] {
      var n := |picked| - 1;
      var i := picked[n];
      MarkingPublishes(q, picked[..n], answers);
      MarkedAt(q, picked[..n], answers, i);
      CountOneChanged(Marked(q, picked[..n], answers), Marked(q, picked, answers), i, IsPublished());
    }
  }

  lemma MarkedOneMore(q: seq<Entry>, picked: seq<nat>, answers: nat -> Answer, n: nat)
    requires InRange(picked, |q|) && n < |picked|
    ensures var rest, i := Marked(q, picked[..n], answers), picked[n];
            Marked(q, picked[..n + 1], answers) == rest[i := AfterPost(rest[i], answers(rest[i].id))]
    ensures AcceptedAmong(q, picked[..n + 1], answers)
            == AcceptedAmong(q, picked[..n], answers) + (if Accepted(answers(q[picked[n]].id).outcome) then 1 else 0)
  {
    assert picked[..n + 1][..n] == picked[..n];
  }

  /** Post one row and mark it. */
  method PostRow(rows: seq<OutboxEvent>, i: nat, answers: nat -> Answer) returns (ok: bool)
    requires Table(rows) && i < |rows|
    modifies rows[i]
    ensures var q := old(Views(rows)); Views(rows) == q[i := AfterPost(q[i], answers(q[i].id))]
    ensures ok == Accepted(answers(rows[i].id).outcome)
  {
    ok := rows[i].Record(answers(rows[i].id));
  }

  /** The loop over the picked rows. */
  method PostAll(rows: seq<OutboxEvent>, picked: seq<nat>, answers: nat -> Answer) returns (summary: Summary)
    requires Table(rows) && InRange(picked, |rows|)
    modifies rows
    ensures Views(rows) == Marked(old(Views(rows)), picked, answers)
    ensures summary.processed == |picked| == summary.published + summary.failed
    ensures summary.published == AcceptedAmong(old(Views(rows)), picked, answers)
  {
    ghost var before := Views(rows);
    summary := Summary(0, 0, 0);
    assert picked[..0] == [];
    for n := 0 to |picked|
      invariant Views(rows) == Marked(before, picked[..n], answers)
      invariant summary.processed == n == summary.published + summary.failed
      invariant summary.published == AcceptedAmong(before, picked[..n], answers)
    {
      MarkedOneMore(before, picked, answers, n);
      var ok := PostRow(rows, picked[n], answers);
      summary := Summary(n + 1, summary.published + (if ok then 1 else 0), summary.failed + (if ok then 0 else 1));
    }
    assert picked[..|picked|] == picked;
  }

  lemma PickedAreUnpublished(q: seq<Entry>, now: int, limit: nat)
    ensures var picked := Selected(q, now, limit, |q|);
            InRange(picked, |q|) && forall k :: 0 <= k < |picked| ==> !q[picked[k]].published
  {
    var picked := Selected(q, now, limit, |q|);
    SelectedAre(q, now, limit, |q|);
    forall k | 0 <= k < |picked|
      ensures !q[picked[k]].published
    {
      assert picked[k] in picked;
    }
  }

  /** All that the batch needs to know about the rows it picked. */
  lemma BatchOfSelected(q: seq<Entry>, now: int, limit: nat, answers: nat -> Answer)
    ensures var picked, due := Selected(q, now, limit, |q|), Count(q, DueAt(now));
            && InRange(picked, |q|)
            && |picked| == (if due < limit then due else limit)
            && Marked(q, picked, answers) == Batch(q, now, limit, answers)
            && PublishedCount(Batch(q, now, limit, answers)) == PublishedCount(q) + AcceptedAmong(q, picked, answers)
  {
    SelectedAre(q, now, limit, |q|);
    SelectedAscend(q, now, limit, |q|);
    MarkingTheSelected(q, now, limit, answers);
    PickedAreUnpublished(q, now, limit);
    MarkingPublishes(q, Selected(q, now, limit, |q|), answers);
    assert q[..|q|] == q;
  }

  /** One batch over the table leaves it as the specification says and reports what was done. */
  method ProcessOutboxBatch(rows: seq<OutboxEvent>, now: int, limit: nat, configured: bool, answers: nat -> Answer)
      returns (summary: Summary)
    requires Table(rows)
    modifies rows
    ensures Views(rows) == Take(old(Views(rows)), Drain(now, limit, configured, answers))
    ensures summary.processed == summary.published + summary.failed
    ensures var due := Count(old(Views(rows)), DueAt(now));
            summary.processed == if !configured then 0 else if due < limit then due else limit
    ensures PublishedCount(Views(rows)) == PublishedCount(old(Views(rows))) + summary.published
  {
    ghost var before := Views(rows);
    var picked := SelectDue(rows, now, limit);
    BatchOfSelected(before, now, limit, answers);
    if !configured || picked == [] {
      return Summary(0, 0, 0);
    }
    summary := PostAll(rows, picked, answers);
  }
}
