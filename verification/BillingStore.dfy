/** The billing routes and workers as they change the tables, each proved to do what `Ledger` says. */
module BillingStore {
  import opened Text
  import opened Ledger
  import opened Dunning

  // ---------------------------------------------------------------- a pass, part of the way through

  predicate PartAdvances(b: Books, part: set<Id>, sub: Id, now: Time) {
    sub in part && PassAdvances(b, sub, now)
  }

  predicate PartSuspendsTenant(b: Books, part: set<Id>, tenant: Id, now: Time) {
    exists sub :: sub in b.subscriptions && PartAdvances(b, part, sub, now)
                  && Suspends(b.subscriptions[sub]) && b.subscriptions[sub].tenant == tenant
  }

  function InvoiceAfterPart(b: Books, part: set<Id>, inv: Invoice, now: Time): Invoice {
    if inv.subscription.Some? && inv.subscription.value in part then InvoiceAfterPass(b, inv, now) else inv
  }

  /** The dunning pass over `b`, limited to the subscriptions in `part`. */
  function PartialPass(b: Books, part: set<Id>, now: Time, grace: Time): Books {
    b.(subscriptions := map s | s in b.subscriptions ::
         if PartAdvances(b, part, s, now) then AdvancedSubscription(b.subscriptions[s], now, grace) else b.subscriptions[s],
       invoices := map i | i in b.invoices :: InvoiceAfterPart(b, part, b.invoices[i], now),
       tenants := map t | t in b.tenants ::
         if PartSuspendsTenant(b, part, t, now) then SuspendedTenant(b.tenants[t]) else b.tenants[t])
  }

  lemma PartialPassNone(b: Books, now: Time, grace: Time)
    ensures PartialPass(b, {}, now, grace) == b
  {
  }

  /** Once every subscription that the pass would advance is included, the part is the whole. */
  lemma PartialPassAll(b: Books, part: set<Id>, now: Time, grace: Time)
    requires forall s :: PassAdvances(b, s, now) ==> s in part
    ensures PartialPass(b, part, now, grace) == DunningPass(b, now, grace)
  {
    forall t | t in b.tenants
      ensures PartSuspendsTenant(b, part, t, now) == PassSuspendsTenant(b, t, now)
    {
      if PassSuspendsTenant(b, t, now) {
        var s :| s in b.subscriptions && PassSuspends(b, s, now) && b.subscriptions[s].tenant == t;
        assert PartAdvances(b, part, s, now);
      }
      if PartSuspendsTenant(b, part, t, now) {
        var s :| s in b.subscriptions && PartAdvances(b, part, s, now)
                 && Suspends(b.subscriptions[s]) && b.subscriptions[s].tenant == t;
        assert PassSuspends(b, s, now);
      }
    }
  }

  /** A subscription that the pass leaves alone adds nothing. */
  lemma PartialPassSkips(b: Books, part: set<Id>, sub: Id, now: Time, grace: Time)
    requires !PassAdvances(b, sub, now)
    ensures PartialPass(b, part + {sub}, now, grace) == PartialPass(b, part, now, grace)
  {
    forall s
      ensures PartAdvances(b, part + {sub}, s, now) == PartAdvances(b, part, s, now)
    {
    }
    forall t | t in b.tenants
      ensures PartSuspendsTenant(b, part + {sub}, t, now) == PartSuspendsTenant(b, part, t, now)
    {
      if PartSuspendsTenant(b, part + {sub}, t, now) {
        var s :| s in b.subscriptions && PartAdvances(b, part + {sub}, s, now)
                 && Suspends(b.subscriptions[s]) && b.subscriptions[s].tenant == t;
        assert PartAdvances(b, part, s, now);
      }
      if PartSuspendsTenant(b, part, t, now) {
        var s :| s in b.subscriptions && PartAdvances(b, part, s, now)
                 && Suspends(b.subscriptions[s]) && b.subscriptions[s].tenant == t;
        assert PartAdvances(b, part + {sub}, s, now);
      }
    }
  }

  lemma PartSuspendsOneMore(b: Books, part: set<Id>, sub: Id, now: Time, t: Id)
    requires PassAdvances(b, sub, now)
    ensures PartSuspendsTenant(b, part + {sub}, t, now) <==>
              PartSuspendsTenant(b, part, t, now) || (Suspends(b.subscriptions[sub]) && b.subscriptions[sub].tenant == t)
  {
    if PartSuspendsTenant(b, part, t, now) {
      var s :| s in b.subscriptions && PartAdvances(b, part, s, now)
               && Suspends(b.subscriptions[s]) && b.subscriptions[s].tenant == t;
      assert PartAdvances(b, part + {sub}, s, now);
    }
    if Suspends(b.subscriptions[sub]) && b.subscriptions[sub].tenant == t {
      assert PartAdvances(b, part + {sub}, sub, now);
    }
    if PartSuspendsTenant(b, part + {sub}, t, now) {
      var s :| s in b.subscriptions && PartAdvances(b, part + {sub}, s, now)
               && Suspends(b.subscriptions[s]) && b.subscriptions[s].tenant == t;
      assert s != sub ==> PartAdvances(b, part, s, now);
    }
  }

  /** Advancing one more subscription is one `Advance` on top of the part done so far. */
  lemma PartialPassAdvances(b: Books, part: set<Id>, sub: Id, now: Time, grace: Time)
    requires sub !in part && PassAdvances(b, sub, now)
    ensures PartialPass(b, part + {sub}, now, grace) == Advance(PartialPass(b, part, now, grace), sub, now, grace)
  {
    var before, after := PartialPass(b, part, now, grace), PartialPass(b, part + {sub}, now, grace);
    var stepped := Advance(before, sub, now, grace);
    assert before.subscriptions[sub] == b.subscriptions[sub];
    assert after.subscriptions == stepped.subscriptions;
    forall t | t in b.tenants
      ensures after.tenants[t] == stepped.tenants[t]
    {
      PartSuspendsOneMore(b, part, sub, now, t);
    }
    assert after.tenants == stepped.tenants;
    forall i | i in b.invoices
      ensures after.invoices[i] == stepped.invoices[i]
    {
    }
    assert after.invoices == stepped.invoices;
  }

  // ---------------------------------------------------------------- the tables

  class Store {
    var invoices: map<Id, Invoice>
    var subscriptions: map<Id, Subscription>
    var tenants: map<Id, Tenant>
    var payments: seq<Payment>

    function View(): Books
      reads this
    {
      Books(invoices, subscriptions, tenants, payments)
    }

    constructor ()
      ensures View() == Books(map[], map[], map[], [])
    {
      invoices, subscriptions, tenants, payments := map[], map[], map[], [];
    }

    /** The invoice is closed; its subscription and tenant are freed if it was their last debt. */
    method SettleInvoice(id: Id, now: Time)
      requires id in invoices
      modifies this
      ensures View() == Settle(old(View()), id, now)
    {
      ghost var before := View();
      var inv := invoices[id].(status := Paid, paidAt := Some(now));
      if inv.paid < inv.amount {
        inv := inv.(paid := inv.amount);
      }
      invoices := invoices[id := inv];
      OwesIgnoresExcepted(before, id, inv, inv.tenant, if inv.subscription.Some? then inv.subscription.value else 0);
      if inv.subscription.Some? && inv.subscription.value in subscriptions {
        var sub := inv.subscription.value;
        if !SubscriptionOwes(invoices, sub, Some(id)) {
          subscriptions := subscriptions[sub := subscriptions[sub].(status := Active, step := NoStep,
                                                                    pastDueAt := None, graceUntil := None)];
        }
      }
      if inv.tenant in tenants {
        var tenant := tenants[inv.tenant];
        if tenant.status == Suspended && tenant.reason == BillingDunning {
          if !TenantOwes(invoices, inv.tenant, Some(id)) {
            tenants := tenants[inv.tenant := tenant.(status := TenantActive, reason := NoReason)];
          }
        }
      }
    }

    /** Refused unless positive; what covers the total closes the invoice. */
    method ApplyPaymentToInvoice(id: Id, amount: int, now: Time) returns (ok: bool)
      requires id in invoices
      modifies this
      ensures ok == (amount > 0)
      ensures View() == if amount > 0 then ApplyPayment(old(View()), id, amount, now) else old(View())
    {
      if amount <= 0 {
        return false;
      }
      var inv := invoices[id];
      inv := inv.(paid := inv.paid + amount);
      invoices := invoices[id := inv];
      if inv.paid >= inv.amount {
        SettleInvoice(id, now);
      } else {
        invoices := invoices[id := inv.(status := PartiallyPaid)];
      }
      return true;
    }

    /** A payment recorded by staff. */
    method PayInvoice(id: Id, amount: int, reference: string, now: Time) returns (verdict: Verdict)
      modifies this
      ensures Answer(View(), verdict) == Pay(old(View()), id, amount, reference, now)
    {
      if id !in invoices {
        return NotFound;
      }
      var inv := invoices[id];
      if inv.status == Void || inv.status == WrittenOff {
        return Conflict;
      }
      if amount <= 0 || amount > Outstanding(inv) {
        return Refused;
      }
      if reference != "" && ReferenceUsed(payments, reference) {
        return Conflict;
      }
      payments := payments + [Payment(id, inv.tenant, amount, reference)];
      var ok := ApplyPaymentToInvoice(id, amount, now);
      return Accepted;
    }

    /** A settlement callback from the payment gateway. */
    method SettleTenantInvoice(c: Callback, now: Time) returns (verdict: Verdict)
      modifies this
      ensures Answer(View(), verdict) == Gateway(old(View()), c, now)
    {
      if c.invoice !in invoices || invoices[c.invoice].tenant != c.tenant {
        return NotFound;
      }
      if c.reference == "" {
        return Refused;
      }
      if ReferenceUsed(payments, c.reference) {
        var duplicate := payments[FirstWithReference(payments, c.reference)];
        if duplicate.tenant != c.tenant || duplicate.invoice != c.invoice {
          return Conflict;
        }
        return Duplicate;
      }
      if c.amount <= 0 || c.amount > Outstanding(invoices[c.invoice]) {
        return Refused;
      }
      payments := payments + [Payment(c.invoice, c.tenant, c.amount, c.reference)];
      var ok := ApplyPaymentToInvoice(c.invoice, c.amount, now);
      return Accepted;
    }

    /** Mark every open invoice of a subscription past due, one row at a time. */
    method MarkOpenInvoicesPastDue(sub: Id)
      modifies this`invoices
      ensures invoices == map i | i in old(invoices) ::
                if old(invoices)[i].subscription == Some(sub) && old(invoices)[i].status == Open
                then old(invoices)[i].(status := PastDue) else old(invoices)[i]
    {
      var todo := set i | i in invoices && invoices[i].subscription == Some(sub) && invoices[i].status == Open;
      while todo != {}
        invariant invoices.Keys == old(invoices).Keys
        invariant todo <= invoices.Keys
        invariant forall i :: i in todo ==>
                    invoices[i] == old(invoices)[i] && invoices[i].subscription == Some(sub) && invoices[i].status == Open
        invariant forall i :: i in invoices && i !in todo ==>
                    invoices[i] == (if old(invoices)[i].subscription == Some(sub) && old(invoices)[i].status == Open
                                    then old(invoices)[i].(status := PastDue) else old(invoices)[i])
        decreases |todo|
      {
        var i :| i in todo;
        invoices := invoices[i := invoices[i].(status := PastDue)];
        todo := todo - {i};
      }
    }

    /** Advance one step: overdue, then grace, then suspension of the tenant. */
    method AdvanceDunning(sub: Id, now: Time, grace: Time)
      requires sub in subscriptions
      modifies this
      ensures View() == Advance(old(View()), sub, now, grace)
    {
      var s := subscriptions[sub];
      if s.tenant !in tenants {
        return;
      }
      if s.step == NoStep || s.status == Active {
        subscriptions := subscriptions[sub := s.(status := Late, step := PastDueStep,
                                                 pastDueAt := Some(now), graceUntil := Some(now + grace))];
        MarkOpenInvoicesPastDue(sub);
      } else if s.step == PastDueStep {
        var s' := s.(step := Grace);
        if s'.graceUntil.None? {
          s' := s'.(graceUntil := Some(now + grace));
        }
        subscriptions := subscriptions[sub := s'];
      } else {
        subscriptions := subscriptions[sub := s.(step := SuspendedStep, status := Late)];
        tenants := tenants[s.tenant := tenants[s.tenant].(status := Suspended, reason := BillingDunning)];
      }
    }

    /** One row of the scan: advance its subscription unless it was seen, is not current, or may not move yet. */
    method ScanRow(row: Id, seen: set<Id>, now: Time, grace: Time, ghost before: Books) returns (seen': set<Id>)
      requires row in before.invoices && NeedsCollecting(before.invoices[row])
      requires View() == PartialPass(before, seen, now, grace)
      modifies this
      ensures View() == PartialPass(before, seen', now, grace)
      ensures seen <= seen' && RowDone(before, row, seen', now)
    {
      seen' := seen;
      SameRow(before, seen, row, now, grace);
      var inv := invoices[row];
      if inv.dueAt >= now || inv.subscription.None? {
        return;
      }
      var sub := inv.subscription.value;
      if sub in seen || sub !in subscriptions || !subscriptions[sub].isCurrent {
        SkippedRowDone(before, seen, row, sub, now, grace);
        return;
      }
      seen' := seen + {sub};
      assert OverdueFor(before.invoices[row], sub, now);
      SameSubscription(before, seen, sub, now, grace);
      var s := subscriptions[sub];
      if s.step != SuspendedStep || s.status == Active {
        if s.step == Grace && s.graceUntil.Some? && s.graceUntil.value > now {
          PartialPassSkips(before, seen, sub, now, grace);
          return;
        }
        Scanned(before, seen, sub, now, grace);
        AdvanceDunning(sub, now, grace);
      } else {
        PartialPassSkips(before, seen, sub, now, grace);
      }
    }

    /**
     * Scan the unpaid invoices and advance each overdue subscription once. `rows` is the result of the
     * invoice query; whatever its order, the outcome is the one pass that `Ledger` describes.
     */
    method RunDunningPass(rows: seq<Id>, now: Time, grace: Time)
      requires forall k :: 0 <= k < |rows| ==> rows[k] in invoices && NeedsCollecting(invoices[rows[k]])
      requires forall i :: i in invoices && NeedsCollecting(invoices[i]) ==> i in rows
      modifies this
      ensures View() == DunningPass(old(View()), now, grace)
    {
      ghost var before := View();
      var seen: set<Id> := {};
      PartialPassNone(before, now, grace);
      for n := 0 to |rows|
        invariant View() == PartialPass(before, seen, now, grace)
        invariant forall k :: 0 <= k < n ==> RowDone(before, rows[k], seen, now)
      {
        seen := ScanRow(rows[n], seen, now, grace, before);
      }
      ScanCoversPass(before, rows, seen, now);
      PartialPassAll(before, seen, now, grace);
    }

    /** The end of one tenant's courtesy unlock. */
    method ExpireUnlock(id: Id, now: Time)
      requires id in tenants && Lapsed(tenants[id], now)
      modifies this`tenants
      ensures tenants == old(tenants)[id := TenantAfterExpiry(old(tenants)[id], BillingResolved(old(View()), id), now)]
    {
      var tenant := tenants[id];
      if BillingResolved(View(), id) {
        tenant := tenant.(courtesyUntil := None);
        if tenant.reason == BillingDunning || tenant.reason == BillingGraceExpired || tenant.reason == CourtesyUnlockExpired {
          tenant := tenant.(reason := NoReason);
        }
      } else {
        var prior := if tenant.reason == NoReason then CourtesyUnlockExpired else tenant.reason;
        tenant := tenant.(status := Suspended, courtesyUntil := None);
        if prior == BillingDunning {
          tenant := tenant.(reason := BillingDunning);
        } else if prior == BillingGraceExpired {
          tenant := tenant.(reason := BillingGraceExpired);
        } else {
          tenant := tenant.(reason := CourtesyUnlockExpired);
        }
      }
      tenants := tenants[id := tenant];
    }

    /** Every row of the tenant table, in the order given. */
    method RunCourtesyUnlockExpiryPass(rows: seq<Id>, now: Time)
      requires forall k :: 0 <= k < |rows| ==> rows[k] in tenants && Lapsed(tenants[rows[k]], now)
      requires forall t :: t in tenants && Lapsed(tenants[t], now) ==> t in rows
      requires forall j, k :: 0 <= j < k < |rows| ==> rows[j] != rows[k]
      modifies this`tenants
      ensures View() == CourtesyExpiry(old(View()), now)
    {
      ghost var before := View();
      ghost var done: set<Id> := {};
      for n := 0 to |rows|
        invariant tenants.Keys == before.tenants.Keys
        invariant forall t :: t in tenants ==> tenants[t] == if t in done then ExpiredTenant(before, t, now) else before.tenants[t]
        invariant forall k :: 0 <= k < n ==> rows[k] in done
        invariant forall k :: n <= k < |rows| ==> rows[k] !in done
      {
        ResolvedIgnoresTenants(before, tenants, rows[n]);
        ExpireUnlock(rows[n], now);
        done := done + {rows[n]};
      }
      assert forall t :: t in tenants && t !in done ==> !Lapsed(before.tenants[t], now);
    }
  }

  function ExpiredTenant(b: Books, id: Id, now: Time): Tenant
    requires id in b.tenants
  {
    TenantAfterExpiry(b.tenants[id], BillingResolved(b, id), now)
  }

  /** Rows the dunning query selects. */
  predicate NeedsCollecting(inv: Invoice) {
    inv.status == Open || inv.status == PastDue
  }

  /** Nothing is left to do for the subscription of this row. */
  predicate RowDone(b: Books, row: Id, seen: set<Id>, now: Time)
    requires row in b.invoices
  {
    var inv := b.invoices[row];
    inv.dueAt < now && inv.subscription.Some? && PassAdvances(b, inv.subscription.value, now) ==>
      inv.subscription.value in seen
  }

  lemma SameSubscription(b: Books, part: set<Id>, sub: Id, now: Time, grace: Time)
    requires sub !in part && sub in b.subscriptions
    ensures PartialPass(b, part, now, grace).subscriptions[sub] == b.subscriptions[sub]
  {
  }

  lemma SkippedRowDone(b: Books, part: set<Id>, row: Id, sub: Id, now: Time, grace: Time)
    requires row in b.invoices && b.invoices[row].subscription == Some(sub)
    requires var after := PartialPass(b, part, now, grace).subscriptions;
             sub in part || sub !in after || !after[sub].isCurrent
    ensures RowDone(b, row, part, now)
  {
  }

  predicate Lapsed(t: Tenant, now: Time) {
    t.courtesyUntil.Some? && t.courtesyUntil.value <= now
  }

  lemma ResolvedIgnoresTenants(b: Books, tenants: map<Id, Tenant>, id: Id)
    ensures BillingResolved(b.(tenants := tenants), id) == BillingResolved(b, id)
  {
  }

  /** The columns the scan looks at are not changed by the part of the pass done so far. */
  lemma SameRow(b: Books, part: set<Id>, i: Id, now: Time, grace: Time)
    requires i in b.invoices
    ensures var after := PartialPass(b, part, now, grace).invoices;
            i in after && after[i].dueAt == b.invoices[i].dueAt && after[i].subscription == b.invoices[i].subscription
  {
  }

  lemma Scanned(b: Books, part: set<Id>, sub: Id, now: Time, grace: Time)
    requires sub !in part && sub in b.subscriptions
    requires HasOverdue(b.invoices, sub, now) && MayAdvance(b.subscriptions[sub], now)
    ensures PartialPass(b, part + {sub}, now, grace) == Advance(PartialPass(b, part, now, grace), sub, now, grace)
  {
    if PassAdvances(b, sub, now) {
      PartialPassAdvances(b, part, sub, now, grace);
    } else {
      PartialPassSkips(b, part, sub, now, grace);
      assert PartialPass(b, part, now, grace).subscriptions[sub] == b.subscriptions[sub];
    }
  }

  lemma ScanCoversPass(b: Books, rows: seq<Id>, seen: set<Id>, now: Time)
    requires forall k :: 0 <= k < |rows| ==> rows[k] in b.invoices && RowDone(b, rows[k], seen, now)
    requires forall i :: i in b.invoices && NeedsCollecting(b.invoices[i]) ==> i in rows
    ensures forall s :: PassAdvances(b, s, now) ==> s in seen
  {
    forall s | PassAdvances(b, s, now)
      ensures s in seen
    {
      var i :| i in b.invoices && OverdueFor(b.invoices[i], s, now);
      var k :| 0 <= k < |rows| && rows[k] == i;
      assert RowDone(b, rows[k], seen, now);
    }
  }
}
