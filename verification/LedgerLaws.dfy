/** What every run of billing events keeps: the payment ledger, and the harmlessness of gateway retries. */
module LedgerLaws {
  import opened Ledger
  import opened Text

  // ---------------------------------------------------------------- the ledger invariant

  /** The money recorded against one invoice. */
  function Recorded(payments: seq<Payment>, id: Id): int {
    if payments == [] then 0
    else Recorded(payments[..|payments| - 1], id)
         + (if payments[|payments| - 1].invoice == id then payments[|payments| - 1].amount else 0)
  }

  /** The status says how much of the amount has been paid. */
  predicate StatusTellsBalance(inv: Invoice) {
    match inv.status
    case Open => inv.paid == 0
    case PastDue => inv.paid == 0
    case PartiallyPaid => 0 < inv.paid < inv.amount
    case Paid => inv.paid == inv.amount
    case _ => false
  }

  /** An invoice over nothing, or over less, was opened and has taken no payment. */
  predicate InvoiceSound(inv: Invoice) {
    if inv.amount > 0 then 0 <= inv.paid <= inv.amount && StatusTellsBalance(inv)
    else inv.paid == 0 && (inv.status == Open || inv.status == PastDue)
  }

  ghost predicate References(b: Books) {
    && (forall i :: i in b.invoices ==> b.invoices[i].tenant in b.tenants)
    && (forall i :: i in b.invoices && b.invoices[i].subscription.Some? ==>
          && b.invoices[i].subscription.value in b.subscriptions
          && b.subscriptions[b.invoices[i].subscription.value].tenant == b.invoices[i].tenant)
  }

  ghost predicate PaymentsRecorded(b: Books) {
    && (forall k :: 0 <= k < |b.payments| ==> b.payments[k].invoice in b.invoices)
    && (forall i :: i in b.invoices ==> Recorded(b.payments, i) == b.invoices[i].paid)
  }

  ghost predicate InvoicesSound(b: Books) {
    forall i :: i in b.invoices ==> InvoiceSound(b.invoices[i])
  }

  /** The ledger invariant. */
  ghost predicate Sound(b: Books) {
    InvoicesSound(b) && PaymentsRecorded(b) && References(b)
  }

  lemma RecordedAppend(payments: seq<Payment>, p: Payment, id: Id)
    ensures Recorded(payments + [p], id) == Recorded(payments, id) + (if p.invoice == id then p.amount else 0)
  {
    assert (payments + [p])[..|payments|] == payments;
  }

  lemma {:induction false} NothingRecorded(payments: seq<Payment>, id: Id)
    requires forall k :: 0 <= k < |payments| ==> payments[k].invoice != id
    ensures Recorded(payments, id) == 0
  {
    if payments != [] {
      NothingRecorded(payments[..|payments| - 1], id);
    }
  }

  /** How a credited invoice ends up. */
  function Credited(inv: Invoice, amount: int, now: Time): Invoice {
    if inv.paid + amount >= inv.amount then SettledInvoice(inv.(paid := inv.paid + amount), now)
    else inv.(paid := inv.paid + amount, status := PartiallyPaid)
  }

  /** A payment changes one invoice, and no amount, tenant or subscription link anywhere. */
  lemma ApplyPaymentFrame(b: Books, id: Id, amount: int, now: Time)
    requires id in b.invoices
    ensures var b' := ApplyPayment(b, id, amount, now);
            && b'.invoices == b.invoices[id := Credited(b.invoices[id], amount, now)]
            && b'.payments == b.payments
            && b'.subscriptions.Keys == b.subscriptions.Keys
            && b'.tenants.Keys == b.tenants.Keys
            && forall s :: s in b.subscriptions ==> b'.subscriptions[s].tenant == b.subscriptions[s].tenant
  {
  }

  lemma CreditedSound(inv: Invoice, amount: int, now: Time)
    requires InvoiceSound(inv) && 0 < amount <= Outstanding(inv)
    ensures InvoiceSound(Credited(inv, amount, now))
    ensures Credited(inv, amount, now).paid == inv.paid + amount
  {
  }

  /** Both payment routes record one payment and credit it. */
  function Recording(b: Books, p: Payment, now: Time): Books
    requires p.invoice in b.invoices
  {
    ApplyPayment(b.(payments := b.payments + [p]), p.invoice, p.amount, now)
  }

  lemma RecordingKeepsSound(b: Books, p: Payment, now: Time)
    requires Sound(b)
    requires p.invoice in b.invoices && 0 < p.amount <= Outstanding(b.invoices[p.invoice])
    ensures Sound(Recording(b, p, now))
  {
    var b' := Recording(b, p, now);
    ApplyPaymentFrame(b.(payments := b.payments + [p]), p.invoice, p.amount, now);
    CreditedSound(b.invoices[p.invoice], p.amount, now);
    forall i | i in b'.invoices
      ensures Recorded(b'.payments, i) == b'.invoices[i].paid
    {
      RecordedAppend(b.payments, p, i);
    }
    forall k | 0 <= k < |b'.payments|
      ensures b'.payments[k].invoice in b'.invoices
    {
      assert k < |b.payments| ==> b'.payments[k] == b.payments[k];
    }
  }

  lemma InvoiceAfterPassSound(b: Books, inv: Invoice, now: Time)
    ensures var after := InvoiceAfterPass(b, inv, now);
            && (InvoiceSound(inv) ==> InvoiceSound(after))
            && after.paid == inv.paid && after.amount == inv.amount
            && after.tenant == inv.tenant && after.subscription == inv.subscription
            && (Unpaid(after) <==> Unpaid(inv))
  {
  }

  lemma PassKeepsSound(b: Books, now: Time, grace: Time)
    requires Sound(b)
    ensures Sound(DunningPass(b, now, grace))
  {
    forall i | i in b.invoices
      ensures var after := InvoiceAfterPass(b, b.invoices[i], now);
              && InvoiceSound(after) && after.paid == b.invoices[i].paid
              && after.tenant == b.invoices[i].tenant && after.subscription == b.invoices[i].subscription
    {
      InvoiceAfterPassSound(b, b.invoices[i], now);
    }
  }

  lemma InvoicingKeepsSound(b: Books, id: Id, inv: Invoice)
    requires Sound(b) && MayInvoice(b, id, inv)
    ensures Sound(b.(invoices := b.invoices[id := inv]))
  {
    NothingRecorded(b.payments, id);
  }

  /** Every event keeps the ledger invariant. */
  lemma NextKeepsSound(b: Books, e: Event)
    requires Sound(b)
    ensures Sound(Next(b, e))
  {
    match e {
      case Paying(id, amount, reference, at) =>
        if Pay(b, id, amount, reference, at).verdict == Accepted {
          RecordingKeepsSound(b, Payment(id, b.invoices[id].tenant, amount, reference), at);
        }
      case Calling(c, at) =>
        if Gateway(b, c, at).verdict == Accepted {
          RecordingKeepsSound(b, Payment(c.invoice, c.tenant, c.amount, c.reference), at);
        }
      case Passing(at, grace) => PassKeepsSound(b, at, grace);
      case Unlocking(tenant, until, newest) =>
      case Expiring(at) =>
      case Invoicing(id, inv) =>
        if MayInvoice(b, id, inv) {
          InvoicingKeepsSound(b, id, inv);
        }
    }
  }

  /**
   * After any run of payments, callbacks, dunning passes, unlocks and new invoices, the payments
   * recorded against each invoice add up to what it shows as paid, never exceed its amount, and the
   * status is paid, partially paid, or unpaid according to that sum.
   */
  lemma {:induction false} RunKeepsSound(b: Books, events: seq<Event>)
    requires Sound(b)
    ensures Sound(Run(b, events))
    decreases |events|
  {
    if events != [] {
      NextKeepsSound(b, events[0]);
      RunKeepsSound(Next(b, events[0]), events[1..]);
    }
  }

  /** No event adds or removes a tenant or a subscription, removes an invoice, or moves a subscription to another tenant. */
  lemma NextKeepsRows(b: Books, e: Event)
    ensures Next(b, e).tenants.Keys == b.tenants.Keys
    ensures Next(b, e).subscriptions.Keys == b.subscriptions.Keys
    ensures b.invoices.Keys <= Next(b, e).invoices.Keys
    ensures forall s :: s in b.subscriptions ==> Next(b, e).subscriptions[s].tenant == b.subscriptions[s].tenant
  {
    if e.Paying? && Pay(b, e.id, e.amount, e.reference, e.at).verdict == Accepted {
      var p := Payment(e.id, b.invoices[e.id].tenant, e.amount, e.reference);
      ApplyPaymentFrame(b.(payments := b.payments + [p]), e.id, e.amount, e.at);
    } else if e.Calling? && Gateway(b, e.callback, e.at).verdict == Accepted {
      var c := e.callback;
      var p := Payment(c.invoice, c.tenant, c.amount, c.reference);
      ApplyPaymentFrame(b.(payments := b.payments + [p]), c.invoice, c.amount, e.at);
    }
  }

  // ---------------------------------------------------------------- which invoices can be settled

  /** An unpaid invoice with nothing outstanding: no payment is small enough for it. */
  predicate Unpayable(b: Books, id: Id) {
    id in b.invoices && Unpaid(b.invoices[id]) && Outstanding(b.invoices[id]) == 0
  }

  lemma UnpayableStep(b: Books, id: Id, e: Event)
    requires Unpayable(b, id)
    ensures Unpayable(Next(b, e), id)
  {
    match e {
      case Paying(i, amount, reference, at) =>
        if Pay(b, i, amount, reference, at).verdict == Accepted {
          ApplyPaymentFrame(b.(payments := b.payments + [Payment(i, b.invoices[i].tenant, amount, reference)]), i, amount, at);
        }
      case Calling(c, at) =>
        if Gateway(b, c, at).verdict == Accepted {
          ApplyPaymentFrame(b.(payments := b.payments + [Payment(c.invoice, c.tenant, c.amount, c.reference)]),
                            c.invoice, c.amount, at);
        }
      case Passing(at, grace) => InvoiceAfterPassSound(b, b.invoices[id], at);
      case Unlocking(tenant, until, newest) =>
      case Expiring(at) =>
      case Invoicing(i, inv) =>
    }
  }

  /** It stays unpaid in every run. */
  lemma {:induction false} UnpayableStaysUnpaid(b: Books, id: Id, events: seq<Event>)
    requires Unpayable(b, id)
    ensures Unpayable(Run(b, events), id)
    decreases |events|
  {
    if events != [] {
      UnpayableStep(b, id, events[0]);
      UnpayableStaysUnpaid(Next(b, events[0]), id, events[1..]);
    }
  }

  /** An unpaid invoice with something outstanding is settled by paying that, in whatever books. */
  lemma PayingTheRestSettles(b: Books, id: Id, now: Time)
    requires id in b.invoices && Unpaid(b.invoices[id]) && Outstanding(b.invoices[id]) > 0
    ensures var a := Pay(b, id, Outstanding(b.invoices[id]), "", now);
            a.verdict == Accepted && id in a.books.invoices && a.books.invoices[id].status == Paid
  {
    var inv := b.invoices[id];
    var p := Payment(id, inv.tenant, Outstanding(inv), "");
    ApplyPaymentFrame(b.(payments := b.payments + [p]), id, Outstanding(inv), now);
  }

  ghost predicate CanBeSettled(b: Books, id: Id) {
    exists events :: id in Run(b, events).invoices && Run(b, events).invoices[id].status == Paid
  }

  /** An unpaid invoice can be settled exactly when its amount exceeds what is paid: a new one, when it is over something. */
  lemma SettleableExactly(b: Books, id: Id)
    requires id in b.invoices && Unpaid(b.invoices[id])
    ensures CanBeSettled(b, id) <==> b.invoices[id].amount > b.invoices[id].paid
    ensures b.invoices[id].paid == 0 ==> (CanBeSettled(b, id) <==> b.invoices[id].amount > 0)
  {
    if b.invoices[id].amount > b.invoices[id].paid {
      PayingTheRestSettles(b, id, 0);
      var pay := Paying(id, Outstanding(b.invoices[id]), "", 0);
      assert Run(Next(b, pay), [pay][1..]) == Next(b, pay);
      assert Run(b, [pay]).invoices[id].status == Paid;
    } else {
      forall events
        ensures id in Run(b, events).invoices && Unpaid(Run(b, events).invoices[id])
      {
        UnpayableStaysUnpaid(b, id, events);
      }
    }
  }

  // ---------------------------------------------------------------- gateway retries

  /** Delivering the callback now, or at any time, would change nothing. */
  ghost predicate Inert(b: Books, c: Callback) {
    || c.invoice !in b.invoices
    || b.invoices[c.invoice].tenant != c.tenant
    || c.reference == ""
    || ReferenceUsed(b.payments, c.reference)
    || c.amount <= 0
    || c.amount > Outstanding(b.invoices[c.invoice])
  }

  lemma InertChangesNothing(b: Books, c: Callback, at: Time)
    ensures Inert(b, c) ==> Gateway(b, c, at).books == b
  {
  }

  lemma ReferenceStaysUsed(payments: seq<Payment>, p: Payment, reference: string)
    ensures ReferenceUsed(payments, reference) ==> ReferenceUsed(payments + [p], reference)
    ensures ReferenceUsed(payments + [p], p.reference)
  {
    var after := payments + [p];
    assert after[|payments|] == p;
    assert forall k :: 0 <= k < |payments| ==> after[k] == payments[k];
  }

  /** Once delivered, a callback is inert: it was recorded, or it was refused. */
  lemma DeliveredIsInert(b: Books, c: Callback, at: Time)
    ensures Inert(Gateway(b, c, at).books, c)
  {
    if Gateway(b, c, at).verdict == Accepted {
      var p := Payment(c.invoice, c.tenant, c.amount, c.reference);
      ReferenceStaysUsed(b.payments, p, c.reference);
      ApplyPaymentFrame(b.(payments := b.payments + [p]), c.invoice, c.amount, at);
    }
  }

  lemma RecordingKeepsInert(b: Books, p: Payment, now: Time, c: Callback)
    requires Inert(b, c) && p.invoice in b.invoices && p.amount > 0
    ensures Inert(Recording(b, p, now), c)
  {
    ReferenceStaysUsed(b.payments, p, c.reference);
    ApplyPaymentFrame(b.(payments := b.payments + [p]), p.invoice, p.amount, now);
  }

  /**
   * The answer to the callback can no longer depend on an invoice that is yet to come: its invoice exists,
   * or its reference is used, or no invoice could make it acceptable.
   */
  predicate Answered(b: Books, c: Callback) {
    || c.invoice in b.invoices
    || ReferenceUsed(b.payments, c.reference)
    || c.tenant !in b.tenants || c.reference == "" || c.amount <= 0
  }

  lemma NextKeepsAnswered(b: Books, e: Event, c: Callback)
    requires Answered(b, c)
    ensures Answered(Next(b, e), c)
  {
    NextKeepsRows(b, e);
    if e.Paying? && Pay(b, e.id, e.amount, e.reference, e.at).verdict == Accepted {
      ReferenceStaysUsed(b.payments, Payment(e.id, b.invoices[e.id].tenant, e.amount, e.reference), c.reference);
    } else if e.Calling? && Gateway(b, e.callback, e.at).verdict == Accepted {
      var d := e.callback;
      ReferenceStaysUsed(b.payments, Payment(d.invoice, d.tenant, d.amount, d.reference), c.reference);
    }
  }

  /** No event revives an inert callback, unless it creates the very invoice the callback waits for. */
  lemma NextKeepsInert(b: Books, e: Event, c: Callback)
    requires Inert(b, c) && (Answered(b, c) || (e.Invoicing? ==> e.id != c.invoice))
    ensures Inert(Next(b, e), c)
  {
    match e {
      case Paying(id, amount, reference, at) =>
        if Pay(b, id, amount, reference, at).verdict == Accepted {
          RecordingKeepsInert(b, Payment(id, b.invoices[id].tenant, amount, reference), at, c);
        }
      case Calling(d, at) =>
        if Gateway(b, d, at).verdict == Accepted {
          RecordingKeepsInert(b, Payment(d.invoice, d.tenant, d.amount, d.reference), at, c);
        }
      case Passing(at, grace) =>
        if c.invoice in b.invoices {
          InvoiceAfterPassSound(b, b.invoices[c.invoice], at);
        }
      case Unlocking(tenant, until, newest) =>
      case Expiring(at) =>
      case Invoicing(id, inv) =>
    }
  }

  lemma {:induction false} RunKeepsInert(b: Books, events: seq<Event>, c: Callback)
    requires Inert(b, c) && Answered(b, c)
    ensures Inert(Run(b, events), c)
    decreases |events|
  {
    if events != [] {
      NextKeepsInert(b, events[0], c);
      NextKeepsAnswered(b, events[0], c);
      RunKeepsInert(Next(b, events[0]), events[1..], c);
    }
  }

  /** Whatever happens next, delivering the callback changes nothing. */
  ghost predicate InertForGood(b: Books, c: Callback) {
    forall events :: Inert(Run(b, events), c)
  }

  /** The invoice that a callback waits for, over just what it pays. */
  function InvoiceFor(c: Callback): Event {
    Invoicing(c.invoice, Invoice(c.tenant, None, c.amount, 0, Open, 0, None))
  }

  lemma LateInvoiceRevives(b: Books, c: Callback)
    requires !Answered(b, c)
    ensures !Inert(Run(b, [InvoiceFor(c)]), c)
  {
    assert Run(Next(b, InvoiceFor(c)), [InvoiceFor(c)][1..]) == Next(b, InvoiceFor(c));
  }

  /** Delivering a callback makes it inert for good exactly when it was answered: a missing invoice may still come. */
  lemma DeliveredForGoodExactly(b: Books, c: Callback, at: Time)
    ensures InertForGood(Gateway(b, c, at).books, c) <==> Answered(b, c)
  {
    var b' := Gateway(b, c, at).books;
    DeliveredIsInert(b, c, at);
    if Answered(b, c) {
      NextKeepsAnswered(b, Calling(c, at), c);
      forall events
        ensures Inert(Run(b', events), c)
      {
        RunKeepsInert(b', events, c);
      }
    } else {
      LateInvoiceRevives(b, c);
      assert !Inert(Run(b', [InvoiceFor(c)]), c);
    }
  }

  /** One of these events creates the invoice that the callback names. */
  predicate Awaited(events: seq<Event>, c: Callback) {
    exists k :: 0 <= k < |events| && events[k].Invoicing? && events[k].id == c.invoice
  }

  /** The callback was answered, or what it waits for does not come. */
  predicate Closed(b: Books, events: seq<Event>, c: Callback) {
    Answered(b, c) || !Awaited(events, c)
  }

  /** The run without the callbacks in `seen` and without later repeats of any callback that was closed. */
  function WithoutRepeats(b: Books, events: seq<Event>, seen: set<Callback>): seq<Event>
    decreases |events|
  {
    if events == [] then []
    else
      var e, rest := events[0], events[1..];
      if e.Calling? && e.callback in seen then WithoutRepeats(b, rest, seen)
      else [e] + WithoutRepeats(Next(b, e), rest, if e.Calling? && Closed(b, rest, e.callback) then seen + {e.callback} else seen)
  }

  ghost predicate AllInert(b: Books, events: seq<Event>, seen: set<Callback>) {
    forall c :: c in seen ==> Inert(b, c) && Closed(b, events, c)
  }

  lemma AwaitedLater(events: seq<Event>, c: Callback)
    requires events != []
    ensures Awaited(events, c) <==> (events[0].Invoicing? && events[0].id == c.invoice) || Awaited(events[1..], c)
  {
    var rest := events[1..];
    assert forall k :: 0 <= k < |rest| ==> rest[k] == events[k + 1];
    if Awaited(events, c) && !(events[0].Invoicing? && events[0].id == c.invoice) {
      var k :| 0 <= k < |events| && events[k].Invoicing? && events[k].id == c.invoice;
      assert rest[k - 1] == events[k];
    }
  }

  lemma NextKeepsClosed(b: Books, events: seq<Event>, c: Callback)
    requires events != [] && Inert(b, c) && Closed(b, events, c)
    ensures Inert(Next(b, events[0]), c) && Closed(Next(b, events[0]), events[1..], c)
  {
    AwaitedLater(events, c);
    if Answered(b, c) {
      NextKeepsAnswered(b, events[0], c);
    }
    NextKeepsInert(b, events[0], c);
  }

  lemma NextKeepsAllInert(b: Books, events: seq<Event>, seen: set<Callback>)
    requires events != [] && AllInert(b, events, seen)
    ensures AllInert(Next(b, events[0]), events[1..], seen)
    ensures events[0].Calling? && Closed(b, events[1..], events[0].callback) ==>
              AllInert(Next(b, events[0]), events[1..], seen + {events[0].callback})
  {
    var e := events[0];
    forall c | c in seen
      ensures Inert(Next(b, e), c) && Closed(Next(b, e), events[1..], c)
    {
      NextKeepsClosed(b, events, c);
    }
    if e.Calling? && Closed(b, events[1..], e.callback) {
      DeliveredIsInert(b, e.callback, e.at);
      if Answered(b, e.callback) {
        NextKeepsAnswered(b, e, e.callback);
      }
    }
  }

  lemma {:induction false} RepeatsAreInert(b: Books, events: seq<Event>, seen: set<Callback>)
    requires AllInert(b, events, seen)
    ensures Run(b, WithoutRepeats(b, events, seen)) == Run(b, events)
    decreases |events|
  {
    if events != [] {
      var e, rest := events[0], events[1..];
      NextKeepsAllInert(b, events, seen);
      if e.Calling? && e.callback in seen {
        InertChangesNothing(b, e.callback, e.at);
        RepeatsAreInert(b, rest, seen);
      } else {
        var seen' := if e.Calling? && Closed(b, rest, e.callback) then seen + {e.callback} else seen;
        RepeatsAreInert(Next(b, e), rest, seen');
        var kept := WithoutRepeats(Next(b, e), rest, seen');
        assert ([e] + kept)[1..] == kept;
      }
    }
  }

  /**
   * In any run of billing events, dropping every repeat of a callback, accepted or rejected, at whatever
   * time it came, leaves the final books exactly as they were. Kept are only the repeats of a callback
   * that came before the invoice it names.
   */
  lemma GatewayReplaySafe(b: Books, events: seq<Event>)
    ensures Run(b, WithoutRepeats(b, events, {})) == Run(b, events)
  {
    RepeatsAreInert(b, events, {});
  }

  // ---------------------------------------------------------------- what a used reference answers

  /** Payments are only added, and invoices stay with their tenants. */
  ghost predicate Continues(b: Books, later: Books) {
    && b.payments <= later.payments
    && forall i :: i in b.invoices ==> i in later.invoices && later.invoices[i].tenant == b.invoices[i].tenant
  }

  lemma NextContinues(b: Books, e: Event)
    ensures Continues(b, Next(b, e))
  {
    if e.Paying? && Pay(b, e.id, e.amount, e.reference, e.at).verdict == Accepted {
      var p := Payment(e.id, b.invoices[e.id].tenant, e.amount, e.reference);
      ApplyPaymentFrame(b.(payments := b.payments + [p]), e.id, e.amount, e.at);
    } else if e.Calling? && Gateway(b, e.callback, e.at).verdict == Accepted {
      var c := e.callback;
      var p := Payment(c.invoice, c.tenant, c.amount, c.reference);
      ApplyPaymentFrame(b.(payments := b.payments + [p]), c.invoice, c.amount, e.at);
    }
  }

  lemma ContinuesTransitive(a: Books, b: Books, c: Books)
    requires Continues(a, b) && Continues(b, c)
    ensures Continues(a, c)
  {
  }

  lemma {:induction false} RunContinues(b: Books, events: seq<Event>)
    ensures Continues(b, Run(b, events))
    decreases |events|
  {
    if events != [] {
      NextContinues(b, events[0]);
      RunContinues(Next(b, events[0]), events[1..]);
      ContinuesTransitive(b, Next(b, events[0]), Run(b, events));
    }
  }

  /** The first payment with a reference, once recorded, is the first one ever after. */
  lemma FirstStaysFirst(payments: seq<Payment>, p: Payment, later: seq<Payment>)
    requires !ReferenceUsed(payments, p.reference) && payments + [p] <= later
    ensures ReferenceUsed(later, p.reference) && later[FirstWithReference(later, p.reference)] == p
  {
    var n := |payments|;
    assert later[n] == (payments + [p])[n] == p;
    forall k | 0 <= k < n
      ensures later[k].reference != p.reference
    {
      assert later[k] == (payments + [p])[k] == payments[k];
    }
  }

  lemma AcceptedIsRecorded(b: Books, c: Callback, at: Time)
    requires Gateway(b, c, at).verdict == Accepted
    ensures c.invoice in b.invoices && b.invoices[c.invoice].tenant == c.tenant && c.reference != ""
    ensures !ReferenceUsed(b.payments, c.reference)
    ensures Gateway(b, c, at).books.payments == b.payments + [Payment(c.invoice, c.tenant, c.amount, c.reference)]
  {
    var p := Payment(c.invoice, c.tenant, c.amount, c.reference);
    ApplyPaymentFrame(b.(payments := b.payments + [p]), c.invoice, c.amount, at);
  }

  /**
   * Whatever happened since a callback was accepted: the same reference for the same invoice is answered
   * as a duplicate, and for another invoice, in the name of that invoice's tenant, as a conflict. Neither
   * changes anything.
   */
  lemma ReplayIsAnswered(b: Books, c: Callback, at: Time, events: seq<Event>, d: Callback, later: Time)
    requires Gateway(b, c, at).verdict == Accepted && d.reference == c.reference
    ensures var now := Run(Gateway(b, c, at).books, events);
            && (d.invoice == c.invoice && d.tenant == c.tenant ==> Gateway(now, d, later) == Answer(now, Duplicate))
            && (d.invoice != c.invoice && d.invoice in now.invoices && now.invoices[d.invoice].tenant == d.tenant ==>
                  Gateway(now, d, later) == Answer(now, Conflict))
  {
    var after := Gateway(b, c, at).books;
    AcceptedIsRecorded(b, c, at);
    NextContinues(b, Calling(c, at));
    RunContinues(after, events);
    FirstStaysFirst(b.payments, Payment(c.invoice, c.tenant, c.amount, c.reference), Run(after, events).payments);
  }

  /** No reference is spent twice. */
  ghost predicate ReferencesOnce(payments: seq<Payment>) {
    forall j, k :: 0 <= j < k < |payments| && payments[j].reference == payments[k].reference ==> payments[j].reference == ""
  }

  lemma AppendKeepsReferences(payments: seq<Payment>, p: Payment)
    requires ReferencesOnce(payments) && (p.reference == "" || !ReferenceUsed(payments, p.reference))
    ensures ReferencesOnce(payments + [p])
  {
    var after := payments + [p];
    forall j, k | 0 <= j < k < |after| && after[j].reference == after[k].reference
      ensures after[j].reference == ""
    {
      assert after[j] == payments[j];
      assert k < |payments| ==> after[k] == payments[k];
    }
  }

  /** In every run, payments by staff and by the gateway together use each reference at most once. */
  lemma {:induction false} RunSpendsReferencesOnce(b: Books, events: seq<Event>)
    requires ReferencesOnce(b.payments)
    ensures ReferencesOnce(Run(b, events).payments)
    decreases |events|
  {
    if events != [] {
      var e := events[0];
      if e.Paying? && Pay(b, e.id, e.amount, e.reference, e.at).verdict == Accepted {
        var p := Payment(e.id, b.invoices[e.id].tenant, e.amount, e.reference);
        ApplyPaymentFrame(b.(payments := b.payments + [p]), e.id, e.amount, e.at);
        AppendKeepsReferences(b.payments, p);
      } else if e.Calling? && Gateway(b, e.callback, e.at).verdict == Accepted {
        AcceptedIsRecorded(b, e.callback, e.at);
        var c := e.callback;
        AppendKeepsReferences(b.payments, Payment(c.invoice, c.tenant, c.amount, c.reference));
      }
      RunSpendsReferencesOnce(Next(b, e), events[1..]);
    }
  }

  lemma UsedMeansRecorded(payments: seq<Payment>, reference: string)
    ensures ReferenceUsed(payments, reference) <==> exists p :: p in payments && p.reference == reference
  {
    if ReferenceUsed(payments, reference) {
      var k :| 0 <= k < |payments| && payments[k].reference == reference;
      assert payments[k] in payments;
    }
  }

  /** What staff is told, from the invoice's own fields: nothing but an accepted payment changes anything. */
  lemma StaffIsAnswered(b: Books, id: Id, amount: int, reference: string, now: Time)
    ensures var a := Pay(b, id, amount, reference, now);
            && (a.verdict != Accepted ==> a.books == b)
            && (id !in b.invoices <==> a.verdict == NotFound)
            && (id in b.invoices ==>
                  var inv := b.invoices[id];
                  && (inv.status in {Void, WrittenOff} ==> a.verdict == Conflict)
                  && (inv.status !in {Void, WrittenOff} ==>
                        && (!(0 < amount <= inv.amount - inv.paid) <==> a.verdict == Refused)
                        && (0 < amount <= inv.amount - inv.paid ==>
                              (a.verdict == Conflict <==>
                                 reference != "" && exists p :: p in b.payments && p.reference == reference))))
  {
    UsedMeansRecorded(b.payments, reference);
  }

  /** The gateway does not look at the status: it settles even an invoice that staff may not touch. */
  lemma GatewayPaysVoidInvoices(b: Books, c: Callback, now: Time)
    requires c.invoice in b.invoices && b.invoices[c.invoice].tenant == c.tenant && b.invoices[c.invoice].status in {Void, WrittenOff}
    requires c.reference != "" && !ReferenceUsed(b.payments, c.reference)
    requires c.amount > 0 && c.amount == b.invoices[c.invoice].amount - b.invoices[c.invoice].paid
    ensures Pay(b, c.invoice, c.amount, c.reference, now).verdict == Conflict
    ensures var a := Gateway(b, c, now);
            && a.verdict == Accepted && c.invoice in a.books.invoices
            && a.books.invoices[c.invoice].status == Paid && a.books.invoices[c.invoice].paidAt == Some(now)
            && a.books.invoices[c.invoice].paid == b.invoices[c.invoice].amount
  {
    var p := Payment(c.invoice, c.tenant, c.amount, c.reference);
    ApplyPaymentFrame(b.(payments := b.payments + [p]), c.invoice, c.amount, now);
  }

  /** What the gateway is told about an invoice of its tenant, from the fields; and that it is told nothing about others. */
  lemma GatewayIsAnswered(b: Books, c: Callback, now: Time)
    ensures var a := Gateway(b, c, now);
            && (a.verdict != Accepted ==> a.books == b)
            && (c.invoice in b.invoices && b.invoices[c.invoice].tenant == c.tenant ==>
                  var inv := b.invoices[c.invoice];
                  && (c.reference == "" ==> a.verdict == Refused)
                  && (c.reference != "" && (exists p :: p in b.payments && p.reference == c.reference) ==>
                        a.verdict in {Duplicate, Conflict})
                  && (c.reference != "" && !(exists p :: p in b.payments && p.reference == c.reference) ==>
                        a.verdict == if 0 < c.amount <= inv.amount - inv.paid then Accepted else Refused))
            && (c.invoice !in b.invoices || b.invoices[c.invoice].tenant != c.tenant ==> a.verdict == NotFound)
  {
    UsedMeansRecorded(b.payments, c.reference);
  }

  /** A reference recorded before, first by this payment, is a duplicate only for the same tenant and invoice. */
  lemma ReusedReference(b: Books, c: Callback, now: Time, k: nat)
    requires c.invoice in b.invoices && b.invoices[c.invoice].tenant == c.tenant && c.reference != ""
    requires k < |b.payments| && b.payments[k].reference == c.reference
    requires forall j :: 0 <= j < k ==> b.payments[j].reference != c.reference
    ensures Gateway(b, c, now) ==
              Answer(b, if b.payments[k].tenant == c.tenant && b.payments[k].invoice == c.invoice then Duplicate else Conflict)
  {
  }

  // ---------------------------------------------------------------- what one event does to its rows

  /** The invoice after a payment of at most what is outstanding. */
  lemma RecordingCredits(b: Books, p: Payment, now: Time)
    requires p.invoice in b.invoices
    requires 0 < p.amount <= b.invoices[p.invoice].amount - b.invoices[p.invoice].paid
    ensures var inv, after := b.invoices[p.invoice], Recording(b, p, now);
            && after.payments == b.payments + [p]
            && after.invoices.Keys == b.invoices.Keys
            && (forall i :: i in b.invoices && i != p.invoice ==> after.invoices[i] == b.invoices[i])
            && var inv' := after.invoices[p.invoice];
               && inv'.paid == inv.paid + p.amount
               && inv'.status == (if inv'.paid == inv.amount then Paid else PartiallyPaid)
               && inv'.paidAt == (if inv'.paid == inv.amount then Some(now) else inv.paidAt)
               && inv'.amount == inv.amount && inv'.tenant == inv.tenant
               && inv'.subscription == inv.subscription && inv'.dueAt == inv.dueAt
  {
    ApplyPaymentFrame(b.(payments := b.payments + [p]), p.invoice, p.amount, now);
  }

  /** Both routes credit so when they accept. */
  lemma AcceptedPaymentCredits(b: Books, id: Id, amount: int, reference: string, c: Callback, now: Time)
    ensures Pay(b, id, amount, reference, now).verdict == Accepted ==>
              && id in b.invoices && 0 < amount <= b.invoices[id].amount - b.invoices[id].paid
              && Pay(b, id, amount, reference, now).books
                 == Recording(b, Payment(id, b.invoices[id].tenant, amount, reference), now)
    ensures Gateway(b, c, now).verdict == Accepted ==>
              && c.invoice in b.invoices && 0 < c.amount <= b.invoices[c.invoice].amount - b.invoices[c.invoice].paid
              && Gateway(b, c, now).books == Recording(b, Payment(c.invoice, c.tenant, c.amount, c.reference), now)
  {
  }

  /** Settling without a payment writes the paid amount up to the total, and never down. */
  lemma SettlingWritesUp(b: Books, id: Id, now: Time)
    requires id in b.invoices
    ensures var inv, inv' := b.invoices[id], Settle(b, id, now).invoices[id];
            && inv'.status == Paid && inv'.paidAt == Some(now) && inv'.amount == inv.amount
            && inv'.paid >= inv.amount && inv'.paid >= inv.paid && (inv'.paid == inv.amount || inv'.paid == inv.paid)
  {
  }

  /** A pass that opens an episode marks the open invoices of its subscription; nothing else changes on any invoice. */
  lemma PassMarksInvoices(b: Books, now: Time, grace: Time, i: Id)
    requires i in b.invoices
    ensures var inv, inv' := b.invoices[i], DunningPass(b, now, grace).invoices[i];
            && inv' == inv.(status := inv'.status)
            && (inv'.status != inv.status ==> inv.status == Open && inv'.status == PastDue)
            && (inv.subscription.Some? && PassAdvances(b, inv.subscription.value, now) && inv.status == Open ==>
                  var s := b.subscriptions[inv.subscription.value];
                  inv'.status == PastDue <==> s.step == NoStep || s.status == Active)
            && (inv.subscription.None? || !PassAdvances(b, inv.subscription.value, now) ==> inv' == inv)
  {
  }

  /** A pass enters grace without moving a grace date that is set. */
  lemma GraceKeepsItsDate(b: Books, now: Time, grace: Time, sub: Id)
    requires PassAdvances(b, sub, now) && b.subscriptions[sub].step == PastDueStep && b.subscriptions[sub].status != Active
    ensures var s, s' := b.subscriptions[sub], DunningPass(b, now, grace).subscriptions[sub];
            s' == s.(step := Grace, graceUntil := if s.graceUntil.Some? then s.graceUntil else Some(now + grace))
  {
  }

  /** A pass that finds the grace over suspends the subscription and its tenant. */
  lemma GraceEndsInSuspension(b: Books, now: Time, grace: Time, sub: Id)
    requires PassAdvances(b, sub, now) && b.subscriptions[sub].step == Grace && b.subscriptions[sub].status != Active
    ensures var s, after := b.subscriptions[sub], DunningPass(b, now, grace);
            && after.subscriptions[sub] == s.(step := SuspendedStep, status := Late)
            && after.tenants[s.tenant] == b.tenants[s.tenant].(status := Suspended, reason := BillingDunning)
  {
    assert PassSuspends(b, sub, now);
  }

  /** A subscription is advanced by passes from the moment its grace date has come, and not before. */
  lemma GraceEndsOnItsDate(b: Books, now: Time, sub: Id, date: Time)
    requires sub in b.subscriptions && b.subscriptions[sub].tenant in b.tenants && b.subscriptions[sub].isCurrent
    requires b.subscriptions[sub].step == Grace && b.subscriptions[sub].graceUntil == Some(date)
    requires exists i :: i in b.invoices && b.invoices[i].subscription == Some(sub)
                         && b.invoices[i].status in {Open, PastDue} && b.invoices[i].dueAt < now
    ensures PassAdvances(b, sub, now) <==> date <= now
  {
    var i :| i in b.invoices && b.invoices[i].subscription == Some(sub)
             && b.invoices[i].status in {Open, PastDue} && b.invoices[i].dueAt < now;
    assert OverdueFor(b.invoices[i], sub, now);
  }

  // ---------------------------------------------------------------- courtesy unlocks

  lemma {:induction false} GreatestOf(ids: set<Id>) returns (top: Id)
    requires ids != {}
    ensures top in ids && forall s :: s in ids ==> s <= top
    decreases |ids|
  {
    var one :| one in ids;
    top := one;
    if ids != {one} {
      var rest := GreatestOf(ids - {one});
      top := if rest > one then rest else one;
      assert forall s :: s in ids ==> s == one || s in ids - {one};
    }
  }

  /** There is always one subscription, or none, for an unlock to clear. */
  lemma NewestExists(b: Books, tenant: Id) returns (newest: Option<Id>)
    ensures NewestCurrent(b, tenant, newest)
  {
    var current := set s | s in b.subscriptions && IsCurrentOf(b.subscriptions[s], tenant);
    if current == {} {
      newest := None;
      forall s | s in b.subscriptions
        ensures !IsCurrentOf(b.subscriptions[s], tenant)
      {
        assert s !in current;
      }
    } else {
      var top := GreatestOf(current);
      newest := Some(top);
      forall s | s in b.subscriptions && IsCurrentOf(b.subscriptions[s], tenant)
        ensures s <= top
      {
        assert s in current;
      }
      assert IsCurrentOf(b.subscriptions[top], tenant);
    }
  }

  lemma NewestIsOne(b: Books, tenant: Id, x: Option<Id>, y: Option<Id>)
    requires NewestCurrent(b, tenant, x) && NewestCurrent(b, tenant, y)
    ensures x == y
  {
  }

  /** An unlock opens the tenant until its date and forgets the dunning of its newest current subscription; nothing else. */
  lemma UnlockOpens(b: Books, tenant: Id, until: Time, newest: Option<Id>)
    requires tenant in b.tenants && NewestCurrent(b, tenant, newest)
    ensures newest.Some? <==> exists s :: s in b.subscriptions && b.subscriptions[s].tenant == tenant && b.subscriptions[s].isCurrent
    ensures forall s :: s in b.subscriptions && b.subscriptions[s].tenant == tenant && b.subscriptions[s].isCurrent ==>
              newest.Some? && s <= newest.value
    ensures var after := Next(b, Unlocking(tenant, until, newest));
            && after.invoices == b.invoices && after.payments == b.payments
            && after.tenants == b.tenants[tenant := Tenant(TenantActive, b.tenants[tenant].reason, Some(until))]
            && after.subscriptions.Keys == b.subscriptions.Keys
            && forall s :: s in b.subscriptions ==>
                 after.subscriptions[s] ==
                   (if newest == Some(s) then b.subscriptions[s].(step := NoStep, pastDueAt := None, graceUntil := None)
                    else b.subscriptions[s])
  {
    assert forall s :: s in b.subscriptions && b.subscriptions[s].tenant == tenant && b.subscriptions[s].isCurrent ==>
             IsCurrentOf(b.subscriptions[s], tenant);
  }

  /** Until its date, and without one, an unlock is left alone. */
  lemma ExpiryWaits(b: Books, now: Time, tenant: Id)
    requires tenant in b.tenants
    requires b.tenants[tenant].courtesyUntil.Some? ==> now < b.tenants[tenant].courtesyUntil.value
    ensures Next(b, Expiring(now)).tenants[tenant] == b.tenants[tenant]
  {
  }

  /**
   * From its date on, an unlock ends. A tenant with nothing unpaid and a current subscription that is
   * active or on trial and not in dunning keeps its status and loses any billing reason; another one is shut.
   */
  lemma ExpiryDecides(b: Books, now: Time, tenant: Id)
    requires tenant in b.tenants && b.tenants[tenant].courtesyUntil.Some? && b.tenants[tenant].courtesyUntil.value <= now
    ensures var t, t' := b.tenants[tenant], Next(b, Expiring(now)).tenants[tenant];
            var paidUp := !TenantOwes(b.invoices, tenant, None)
                          && exists s :: s in b.subscriptions && b.subscriptions[s].tenant == tenant && b.subscriptions[s].isCurrent
                                         && b.subscriptions[s].status in {Active, Trialing} && b.subscriptions[s].step == NoStep;
            && t'.courtesyUntil == None
            && (paidUp ==> t'.status == t.status && t'.reason == (if t.reason == OtherReason then OtherReason else NoReason))
            && (!paidUp ==> t'.status == Suspended
                            && t'.reason == (if t.reason in {BillingDunning, BillingGraceExpired} then t.reason
                                             else CourtesyUnlockExpired))
  {
    if s :| s in b.subscriptions && b.subscriptions[s].tenant == tenant && b.subscriptions[s].isCurrent
            && b.subscriptions[s].status in {Active, Trialing} && b.subscriptions[s].step == NoStep {
      assert Healthy(b.subscriptions[s], tenant);
    }
    if BillingResolved(b, tenant) {
      var s :| s in b.subscriptions && Healthy(b.subscriptions[s], tenant);
      assert b.subscriptions[s].status in {Active, Trialing};
    }
  }
}
