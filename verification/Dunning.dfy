/** Two promises of the dunning machine: when it lets a tenant back in, and when it may shut one out. */
module Dunning {
  import opened Text
  import opened Ledger
  import opened LedgerLaws

  function At(b: Books, events: seq<Event>, k: nat): Books
    requires k <= |events|
  {
    Run(b, events[..k])
  }

  lemma {:induction false} RunInTwoParts(b: Books, xs: seq<Event>, ys: seq<Event>)
    ensures Run(b, xs + ys) == Run(Run(b, xs), ys)
    decreases |xs|
  {
    if xs == [] {
      assert xs + ys == ys;
    } else {
      assert (xs + ys)[1..] == xs[1..] + ys;
      RunInTwoParts(Next(b, xs[0]), xs[1..], ys);
    }
  }

  lemma AtStep(b: Books, events: seq<Event>, k: nat)
    requires k < |events|
    ensures At(b, events, k + 1) == Next(At(b, events, k), events[k])
  {
    assert events[..k + 1] == events[..k] + [events[k]];
    RunInTwoParts(b, events[..k], [events[k]]);
    var before := At(b, events, k);
    assert Run(before, [events[k]]) == Run(Next(before, events[k]), [events[k]][1..]);
  }

  lemma {:induction false} RowsAreTheSame(b: Books, events: seq<Event>, k: nat)
    requires k <= |events|
    ensures At(b, events, k).tenants.Keys == b.tenants.Keys
    ensures At(b, events, k).subscriptions.Keys == b.subscriptions.Keys
    ensures forall s :: s in b.subscriptions ==> At(b, events, k).subscriptions[s].tenant == b.subscriptions[s].tenant
  {
    if k == 0 {
      assert events[..0] == [];
    } else {
      RowsAreTheSame(b, events, k - 1);
      AtStep(b, events, k - 1);
      NextKeepsRows(At(b, events, k - 1), events[k - 1]);
    }
  }

  // ---------------------------------------------------------------- paying up reactivates

  /** Suspended by dunning, which needs something unpaid, or active. */
  ghost predicate TenantFollowsDebt(b: Books, tenant: Id) {
    && tenant in b.tenants
    && var t := b.tenants[tenant];
       || (SuspendedByDunning(t) && TenantOwes(b.invoices, tenant, None))
       || (t.status == TenantActive && t.reason == NoReason)
  }

  /** A tenant that dunning shut out is not let in again while it owes. */
  ghost predicate StaysShut(before: Books, after: Books, tenant: Id) {
    tenant in before.tenants && SuspendedByDunning(before.tenants[tenant]) && TenantOwes(after.invoices, tenant, None)
    ==> tenant in after.tenants && SuspendedByDunning(after.tenants[tenant])
  }

  /** Still owing, or active with no trace of dunning. */
  ghost predicate SubscriptionFollowsDebt(b: Books, sub: Id) {
    && sub in b.subscriptions
    && (SubscriptionOwes(b.invoices, sub, None) || b.subscriptions[sub] == Reactivated(b.subscriptions[sub]))
  }

  lemma OwesElsewhere(b: Books, id: Id, inv: Invoice, tenant: Id)
    requires id in b.invoices && inv.tenant == b.invoices[id].tenant
    ensures TenantOwes(b.invoices[id := inv], tenant, None) <==>
              TenantOwes(b.invoices, tenant, Some(id)) || (inv.tenant == tenant && Unpaid(inv))
    ensures TenantOwes(b.invoices, tenant, None) <==>
              TenantOwes(b.invoices, tenant, Some(id)) || (inv.tenant == tenant && Unpaid(b.invoices[id]))
  {
    var after := b.invoices[id := inv];
    if TenantOwes(b.invoices, tenant, Some(id)) {
      var i :| i in b.invoices && i != id && b.invoices[i].tenant == tenant && Unpaid(b.invoices[i]);
      assert after[i] == b.invoices[i];
    }
    if inv.tenant == tenant && Unpaid(inv) {
      assert after[id] == inv;
    }
    if TenantOwes(after, tenant, None) {
      var i :| i in after && after[i].tenant == tenant && Unpaid(after[i]);
      assert i != id ==> b.invoices[i] == after[i];
    }
  }

  lemma SubscriptionOwesElsewhere(b: Books, id: Id, inv: Invoice, sub: Id)
    requires id in b.invoices && inv.subscription == b.invoices[id].subscription
    ensures SubscriptionOwes(b.invoices[id := inv], sub, None) <==>
              SubscriptionOwes(b.invoices, sub, Some(id)) || (inv.subscription == Some(sub) && Unpaid(inv))
    ensures SubscriptionOwes(b.invoices, sub, None) <==>
              SubscriptionOwes(b.invoices, sub, Some(id)) || (inv.subscription == Some(sub) && Unpaid(b.invoices[id]))
  {
    var after := b.invoices[id := inv];
    if SubscriptionOwes(b.invoices, sub, Some(id)) {
      var i :| i in b.invoices && i != id && b.invoices[i].subscription == Some(sub) && Unpaid(b.invoices[i]);
      assert after[i] == b.invoices[i];
    }
    if inv.subscription == Some(sub) && Unpaid(inv) {
      assert after[id] == inv;
    }
    if SubscriptionOwes(after, sub, None) {
      var i :| i in after && after[i].subscription == Some(sub) && Unpaid(after[i]);
      assert i != id ==> b.invoices[i] == after[i];
    }
  }

  /** The invoice lookups that a settlement makes after crediting do not depend on the credited invoice. */
  lemma OwesIgnoresExcepted(b: Books, id: Id, inv: Invoice, tenant: Id, sub: Id)
    requires id in b.invoices
    ensures TenantOwes(b.invoices[id := inv], tenant, Some(id)) == TenantOwes(b.invoices, tenant, Some(id))
    ensures SubscriptionOwes(b.invoices[id := inv], sub, Some(id)) == SubscriptionOwes(b.invoices, sub, Some(id))
  {
    var after := b.invoices[id := inv];
    assert forall i :: i in b.invoices && i != id ==> after[i] == b.invoices[i];
    if TenantOwes(b.invoices, tenant, Some(id)) {
      var i :| i in b.invoices && i != id && b.invoices[i].tenant == tenant && Unpaid(b.invoices[i]);
      assert i in after && after[i].tenant == tenant;
    }
    if SubscriptionOwes(b.invoices, sub, Some(id)) {
      var i :| i in b.invoices && i != id && b.invoices[i].subscription == Some(sub) && Unpaid(b.invoices[i]);
      assert i in after && after[i].subscription == Some(sub);
    }
  }

  /** What one recorded payment does to a tenant: reopen it when this was the last thing it owed. */
  lemma RecordingOnTenant(b: Books, p: Payment, now: Time, tenant: Id)
    requires p.invoice in b.invoices && tenant in b.tenants
    ensures var inv := b.invoices[p.invoice];
            Recording(b, p, now).tenants[tenant] ==
              if inv.paid + p.amount >= inv.amount && inv.tenant == tenant
                 && SuspendedByDunning(b.tenants[tenant]) && !TenantOwes(b.invoices, tenant, Some(p.invoice))
              then Reopened(b.tenants[tenant]) else b.tenants[tenant]
  {
    var inv := b.invoices[p.invoice];
    OwesIgnoresExcepted(b, p.invoice, inv.(paid := inv.paid + p.amount), tenant, 0);
  }

  lemma RecordingOnSubscription(b: Books, p: Payment, now: Time, sub: Id)
    requires p.invoice in b.invoices && sub in b.subscriptions
    ensures var inv := b.invoices[p.invoice];
            Recording(b, p, now).subscriptions[sub] ==
              if inv.paid + p.amount >= inv.amount && inv.subscription == Some(sub)
                 && !SubscriptionOwes(b.invoices, sub, Some(p.invoice))
              then Reactivated(b.subscriptions[sub]) else b.subscriptions[sub]
  {
    var inv := b.invoices[p.invoice];
    OwesIgnoresExcepted(b, p.invoice, inv.(paid := inv.paid + p.amount), 0, sub);
  }

  lemma RecordingFollowsDebt(b: Books, p: Payment, now: Time, tenant: Id)
    requires Sound(b) && tenant in b.tenants
    requires p.invoice in b.invoices && 0 < p.amount <= Outstanding(b.invoices[p.invoice])
    ensures TenantFollowsDebt(b, tenant) ==> TenantFollowsDebt(Recording(b, p, now), tenant)
    ensures StaysShut(b, Recording(b, p, now), tenant)
    ensures TenantOwes(Recording(b, p, now).invoices, tenant, None) ==> TenantOwes(b.invoices, tenant, None)
  {
    var inv := b.invoices[p.invoice];
    ApplyPaymentFrame(b.(payments := b.payments + [p]), p.invoice, p.amount, now);
    RecordingOnTenant(b, p, now, tenant);
    OwesElsewhere(b, p.invoice, Credited(inv, p.amount, now), tenant);
  }

  lemma RecordingFollowsSubscriptionDebt(b: Books, p: Payment, now: Time, sub: Id)
    requires Sound(b) && SubscriptionFollowsDebt(b, sub)
    requires p.invoice in b.invoices && 0 < p.amount <= Outstanding(b.invoices[p.invoice])
    ensures SubscriptionFollowsDebt(Recording(b, p, now), sub)
  {
    var inv := b.invoices[p.invoice];
    ApplyPaymentFrame(b.(payments := b.payments + [p]), p.invoice, p.amount, now);
    RecordingOnSubscription(b, p, now, sub);
    SubscriptionOwesElsewhere(b, p.invoice, Credited(inv, p.amount, now), sub);
  }

  lemma PassKeepsDebts(b: Books, now: Time, grace: Time, tenant: Id, sub: Id)
    ensures TenantOwes(DunningPass(b, now, grace).invoices, tenant, None) == TenantOwes(b.invoices, tenant, None)
    ensures SubscriptionOwes(DunningPass(b, now, grace).invoices, sub, None) == SubscriptionOwes(b.invoices, sub, None)
  {
    var after := DunningPass(b, now, grace).invoices;
    forall i | i in b.invoices
      ensures after[i].tenant == b.invoices[i].tenant && after[i].subscription == b.invoices[i].subscription
      ensures Unpaid(after[i]) <==> Unpaid(b.invoices[i])
    {
      InvoiceAfterPassSound(b, b.invoices[i], now);
    }
    if TenantOwes(b.invoices, tenant, None) {
      var i :| i in b.invoices && b.invoices[i].tenant == tenant && Unpaid(b.invoices[i]);
      assert i in after && after[i].tenant == tenant;
    }
    if SubscriptionOwes(b.invoices, sub, None) {
      var i :| i in b.invoices && b.invoices[i].subscription == Some(sub) && Unpaid(b.invoices[i]);
      assert i in after && after[i].subscription == Some(sub);
    }
  }

  lemma OverdueOwes(b: Books, sub: Id, now: Time)
    requires References(b) && HasOverdue(b.invoices, sub, now)
    ensures SubscriptionOwes(b.invoices, sub, None)
    ensures sub in b.subscriptions && TenantOwes(b.invoices, b.subscriptions[sub].tenant, None)
  {
    var i :| i in b.invoices && OverdueFor(b.invoices[i], sub, now);
    assert Unpaid(b.invoices[i]) && b.invoices[i].subscription == Some(sub);
  }

  lemma PassShutsOnlyDebtors(b: Books, now: Time, tenant: Id)
    requires References(b)
    ensures PassSuspendsTenant(b, tenant, now) ==> TenantOwes(b.invoices, tenant, None)
  {
    if PassSuspendsTenant(b, tenant, now) {
      var s :| s in b.subscriptions && PassSuspends(b, s, now) && b.subscriptions[s].tenant == tenant;
      OverdueOwes(b, s, now);
    }
  }

  lemma PassOnTenant(b: Books, now: Time, grace: Time, tenant: Id)
    requires tenant in b.tenants
    ensures tenant in DunningPass(b, now, grace).tenants
    ensures var t, t' := b.tenants[tenant], DunningPass(b, now, grace).tenants[tenant];
            t' == t || (PassSuspendsTenant(b, tenant, now) && SuspendedByDunning(t'))
  {
  }

  lemma PassFollowsDebt(b: Books, now: Time, grace: Time, tenant: Id)
    requires Sound(b)
    ensures TenantFollowsDebt(b, tenant) ==> TenantFollowsDebt(DunningPass(b, now, grace), tenant)
    ensures StaysShut(b, DunningPass(b, now, grace), tenant)
  {
    PassKeepsDebts(b, now, grace, tenant, 0);
    PassShutsOnlyDebtors(b, now, tenant);
    if tenant in b.tenants {
      PassOnTenant(b, now, grace, tenant);
    }
  }

  lemma PassFollowsSubscriptionDebt(b: Books, now: Time, grace: Time, sub: Id)
    requires Sound(b)
    ensures SubscriptionFollowsDebt(b, sub) ==> SubscriptionFollowsDebt(DunningPass(b, now, grace), sub)
  {
    PassKeepsDebts(b, now, grace, 0, sub);
    if sub in b.subscriptions && PassAdvances(b, sub, now) {
      OverdueOwes(b, sub, now);
    }
  }

  lemma InvoicingKeepsDebts(b: Books, id: Id, inv: Invoice, tenant: Id, sub: Id)
    requires id !in b.invoices
    ensures TenantOwes(b.invoices, tenant, None) ==> TenantOwes(b.invoices[id := inv], tenant, None)
    ensures SubscriptionOwes(b.invoices, sub, None) ==> SubscriptionOwes(b.invoices[id := inv], sub, None)
  {
    var after := b.invoices[id := inv];
    if TenantOwes(b.invoices, tenant, None) {
      var i :| i in b.invoices && b.invoices[i].tenant == tenant && Unpaid(b.invoices[i]);
      assert after[i] == b.invoices[i];
    }
    if SubscriptionOwes(b.invoices, sub, None) {
      var i :| i in b.invoices && b.invoices[i].subscription == Some(sub) && Unpaid(b.invoices[i]);
      assert after[i] == b.invoices[i];
    }
  }

  /** Everything but courtesy unlocks, which write the tenant's status on their own. */
  predicate Collecting(e: Event) {
    e.Paying? || e.Calling? || e.Passing? || e.Invoicing?
  }

  lemma CollectingFollowsDebt(b: Books, e: Event, tenant: Id, sub: Id)
    requires Sound(b) && Collecting(e) && tenant in b.tenants
    ensures TenantFollowsDebt(b, tenant) ==> TenantFollowsDebt(Next(b, e), tenant)
    ensures SubscriptionFollowsDebt(b, sub) ==> SubscriptionFollowsDebt(Next(b, e), sub)
    ensures StaysShut(b, Next(b, e), tenant)
    ensures !e.Invoicing? && TenantOwes(Next(b, e).invoices, tenant, None) ==> TenantOwes(b.invoices, tenant, None)
  {
    if e.Passing? {
      PassFollowsDebt(b, e.at, e.grace, tenant);
      PassFollowsSubscriptionDebt(b, e.at, e.grace, sub);
      PassKeepsDebts(b, e.at, e.grace, tenant, sub);
    } else if e.Invoicing? {
      if MayInvoice(b, e.id, e.invoice) {
        InvoicingKeepsDebts(b, e.id, e.invoice, tenant, sub);
      }
    } else if Next(b, e) != b {
      var p := if e.Paying? then Payment(e.id, b.invoices[e.id].tenant, e.amount, e.reference)
               else Payment(e.callback.invoice, e.callback.tenant, e.callback.amount, e.callback.reference);
      assert Next(b, e) == Recording(b, p, e.at);
      RecordingFollowsDebt(b, p, e.at, tenant);
      if SubscriptionFollowsDebt(b, sub) {
        RecordingFollowsSubscriptionDebt(b, p, e.at, sub);
      }
    }
  }

  lemma {:induction false} RunFollowsDebt(b: Books, events: seq<Event>, k: nat, tenant: Id, sub: Id)
    requires Sound(b) && TenantFollowsDebt(b, tenant)
    requires k <= |events| && forall j :: 0 <= j < |events| ==> Collecting(events[j])
    ensures Sound(At(b, events, k))
    ensures TenantFollowsDebt(At(b, events, k), tenant)
    ensures SubscriptionFollowsDebt(b, sub) ==> SubscriptionFollowsDebt(At(b, events, k), sub)
  {
    if k == 0 {
      assert events[..0] == [];
    } else {
      RunFollowsDebt(b, events, k - 1, tenant, sub);
      AtStep(b, events, k - 1);
      NextKeepsSound(At(b, events, k - 1), events[k - 1]);
      CollectingFollowsDebt(At(b, events, k - 1), events[k - 1], tenant, sub);
    }
  }

  /** Without a new invoice in between, a tenant that owes now has owed all along. */
  lemma {:induction false} DebtsOnlyShrink(b: Books, events: seq<Event>, k: nat, m: nat, tenant: Id)
    requires Sound(b) && TenantFollowsDebt(b, tenant)
    requires k <= m <= |events| && forall j :: 0 <= j < |events| ==> Collecting(events[j]) && !events[j].Invoicing?
    requires TenantOwes(At(b, events, m).invoices, tenant, None)
    ensures TenantOwes(At(b, events, k).invoices, tenant, None)
    decreases m
  {
    if k < m {
      AtStep(b, events, m - 1);
      RunFollowsDebt(b, events, m - 1, tenant, 0);
      CollectingFollowsDebt(At(b, events, m - 1), events[m - 1], tenant, 0);
      DebtsOnlyShrink(b, events, k, m - 1, tenant);
    }
  }

  lemma {:induction false} ShutWhileOwing(b: Books, events: seq<Event>, k: nat, tenant: Id)
    requires Sound(b) && TenantFollowsDebt(b, tenant) && SuspendedByDunning(b.tenants[tenant])
    requires k <= |events| && forall j :: 0 <= j < |events| ==> Collecting(events[j])
    requires forall j :: 0 <= j <= k ==> TenantOwes(At(b, events, j).invoices, tenant, None)
    ensures tenant in At(b, events, k).tenants && SuspendedByDunning(At(b, events, k).tenants[tenant])
  {
    if k == 0 {
      assert events[..0] == [];
    } else {
      ShutWhileOwing(b, events, k - 1, tenant);
      AtStep(b, events, k - 1);
      RunFollowsDebt(b, events, k - 1, tenant, 0);
      CollectingFollowsDebt(At(b, events, k - 1), events[k - 1], tenant, 0);
    }
  }

  /**
   * However a dunning-suspended tenant's debts are paid, in any order and any instalments, with
   * dunning passes and new invoices in between: the tenant is active once nothing of its is unpaid,
   * and not before; and a subscription that owed is active, with its dunning cleared, once it owes
   * nothing. As long as no invoice is added, the tenant is suspended exactly while it owes.
   */
  lemma PayingUpReactivates(b: Books, events: seq<Event>, tenant: Id, sub: Id)
    requires Sound(b) && forall k :: 0 <= k < |events| ==> Collecting(events[k])
    requires tenant in b.tenants && SuspendedByDunning(b.tenants[tenant]) && TenantOwes(b.invoices, tenant, None)
    requires sub in b.subscriptions && SubscriptionOwes(b.invoices, sub, None)
    ensures var after := Run(b, events);
            && tenant in after.tenants && sub in after.subscriptions
            && (after.tenants[tenant].status == TenantActive || SuspendedByDunning(after.tenants[tenant]))
            && (!TenantOwes(after.invoices, tenant, None) ==> after.tenants[tenant].status == TenantActive)
            && (!SubscriptionOwes(after.invoices, sub, None) ==>
                  && after.subscriptions[sub].status == Active
                  && after.subscriptions[sub].step == NoStep
                  && after.subscriptions[sub].pastDueAt == None
                  && after.subscriptions[sub].graceUntil == None)
            && ((forall k :: 0 <= k <= |events| ==> TenantOwes(At(b, events, k).invoices, tenant, None)) ==>
                  after.tenants[tenant].status == Suspended)
            && ((forall k :: 0 <= k < |events| ==> !events[k].Invoicing?) ==>
                  (after.tenants[tenant].status == Suspended <==> TenantOwes(after.invoices, tenant, None)))
  {
    var n := |events|;
    assert events[..n] == events;
    RunFollowsDebt(b, events, n, tenant, sub);
    if (forall k :: 0 <= k < n ==> !events[k].Invoicing?) && TenantOwes(At(b, events, n).invoices, tenant, None) {
      forall k | 0 <= k <= n ensures TenantOwes(At(b, events, k).invoices, tenant, None) {
        DebtsOnlyShrink(b, events, k, n, tenant);
      }
    }
    if forall k :: 0 <= k <= n ==> TenantOwes(At(b, events, k).invoices, tenant, None) {
      ShutWhileOwing(b, events, n, tenant);
    }
  }

  // ---------------------------------------------------------------- who is let in again

  /** Active, or shut out by dunning itself. */
  predicate Readmitted(t: Tenant) {
    t.status == TenantActive || SuspendedByDunning(t)
  }

  lemma RecordingReadmits(b: Books, p: Payment, now: Time, tenant: Id)
    requires tenant in b.tenants && p.invoice in b.invoices
    requires TenantOwes(b.invoices, tenant, None) && !TenantOwes(Recording(b, p, now).invoices, tenant, None)
    ensures Recording(b, p, now).tenants[tenant].status == TenantActive <==> Readmitted(b.tenants[tenant])
  {
    ApplyPaymentFrame(b.(payments := b.payments + [p]), p.invoice, p.amount, now);
    RecordingOnTenant(b, p, now, tenant);
    OwesElsewhere(b, p.invoice, Credited(b.invoices[p.invoice], p.amount, now), tenant);
  }

  lemma OthersKeepDebts(b: Books, e: Event, tenant: Id)
    requires e.Passing? || e.Unlocking? || e.Expiring? || e.Invoicing?
    requires TenantOwes(b.invoices, tenant, None)
    ensures TenantOwes(Next(b, e).invoices, tenant, None)
  {
    if e.Passing? {
      PassKeepsDebts(b, e.at, e.grace, tenant, 0);
    } else if e.Invoicing? && MayInvoice(b, e.id, e.invoice) {
      InvoicingKeepsDebts(b, e.id, e.invoice, tenant, 0);
    }
  }

  lemma ClearingReadmits(b: Books, e: Event, tenant: Id)
    requires tenant in b.tenants && tenant in Next(b, e).tenants
    requires TenantOwes(b.invoices, tenant, None) && !TenantOwes(Next(b, e).invoices, tenant, None)
    ensures Next(b, e).tenants[tenant].status == TenantActive <==> Readmitted(b.tenants[tenant])
  {
    if e.Passing? || e.Unlocking? || e.Expiring? || e.Invoicing? {
      OthersKeepDebts(b, e, tenant);
    } else {
      var p := if e.Paying? then Payment(e.id, b.invoices[e.id].tenant, e.amount, e.reference)
               else Payment(e.callback.invoice, e.callback.tenant, e.callback.amount, e.callback.reference);
      assert Next(b, e) == Recording(b, p, e.at);
      RecordingReadmits(b, p, e.at, tenant);
    }
  }

  /**
   * In runs of all events: whenever the last debt of a tenant is cleared, the tenant is active afterwards
   * exactly if it was active before or was shut out by dunning. Any other suspension outlives the debt.
   */
  lemma LastDebtReadmitsExactly(b: Books, events: seq<Event>, k: nat, tenant: Id)
    requires k < |events| && tenant in b.tenants
    requires TenantOwes(At(b, events, k).invoices, tenant, None)
    requires !TenantOwes(At(b, events, k + 1).invoices, tenant, None)
    ensures tenant in At(b, events, k).tenants && tenant in At(b, events, k + 1).tenants
    ensures At(b, events, k + 1).tenants[tenant].status == TenantActive <==> Readmitted(At(b, events, k).tenants[tenant])
  {
    RowsAreTheSame(b, events, k);
    RowsAreTheSame(b, events, k + 1);
    AtStep(b, events, k);
    ClearingReadmits(At(b, events, k), events[k], tenant);
  }

  lemma RunOfThree(b: Books, e: Event, f: Event, g: Event)
    ensures Run(b, [e, f, g]) == Next(Next(Next(b, e), f), g)
  {
    assert [e, f, g][1..] == [f, g] && [f, g][1..] == [g] && [g][1..] == [];
    assert Run(Next(Next(b, e), f), [g]) == Run(Next(Next(Next(b, e), f), g), []);
  }

  /** An unlock that ends while the tenant owes suspends it again, under its old reason only if that was a billing one. */
  lemma UnlockThenExpiry(b: Books, tenant: Id, until: Time, newest: Option<Id>, at: Time)
    requires tenant in b.tenants && NewestCurrent(b, tenant, newest) && until <= at
    requires TenantOwes(b.invoices, tenant, None)
    ensures var after := Next(Next(b, Unlocking(tenant, until, newest)), Expiring(at));
            && after.invoices == b.invoices && after.payments == b.payments && tenant in after.tenants
            && after.tenants[tenant] == Tenant(Suspended, ReasonAfterExpiry(b.tenants[tenant].reason), None)
  {
  }

  lemma OnlyDebt(b: Books, tenant: Id, id: Id, inv: Invoice)
    requires id in b.invoices && b.invoices[id].tenant == tenant && Unpaid(b.invoices[id])
    requires !TenantOwes(b.invoices, tenant, Some(id))
    requires inv.tenant == tenant && !Unpaid(inv)
    ensures TenantOwes(b.invoices, tenant, None) && !TenantOwes(b.invoices[id := inv], tenant, None)
  {
    OwesElsewhere(b, id, inv, tenant);
  }

  lemma PayingOffReadmits(b: Books, tenant: Id, id: Id, now: Time)
    requires tenant in b.tenants && id in b.invoices && b.invoices[id].tenant == tenant && Unpaid(b.invoices[id])
    requires Outstanding(b.invoices[id]) > 0 && !TenantOwes(b.invoices, tenant, Some(id))
    ensures var after := Next(b, Paying(id, Outstanding(b.invoices[id]), "", now));
            && tenant in after.tenants && !TenantOwes(after.invoices, tenant, None)
            && (after.tenants[tenant].status == TenantActive <==> Readmitted(b.tenants[tenant]))
  {
    var inv := b.invoices[id];
    var p := Payment(id, tenant, Outstanding(inv), "");
    OnlyDebt(b, tenant, id, Credited(inv, p.amount, now));
    ApplyPaymentFrame(b.(payments := b.payments + [p]), id, p.amount, now);
    assert Next(b, Paying(id, Outstanding(inv), "", now)) == Recording(b, p, now);
    RecordingReadmits(b, p, now, tenant);
  }

  /**
   * A tenant with one unpaid invoice gets a courtesy unlock, the unlock ends, and then the invoice is paid
   * in full. Nothing is owed, and the tenant is let in exactly if dunning was its reason before the unlock.
   */
  lemma PayingAfterUnlockReadmitsExactly(b: Books, tenant: Id, id: Id, until: Time, newest: Option<Id>, at: Time, now: Time)
    requires tenant in b.tenants && NewestCurrent(b, tenant, newest) && until <= at
    requires id in b.invoices && b.invoices[id].tenant == tenant && Unpaid(b.invoices[id])
    requires Outstanding(b.invoices[id]) > 0 && !TenantOwes(b.invoices, tenant, Some(id))
    ensures var events := [Unlocking(tenant, until, newest), Expiring(at), Paying(id, Outstanding(b.invoices[id]), "", now)];
            var after := Run(b, events);
            && tenant in after.tenants && !TenantOwes(after.invoices, tenant, None)
            && (after.tenants[tenant].status == TenantActive <==> b.tenants[tenant].reason == BillingDunning)
  {
    var inv := b.invoices[id];
    var pay := Paying(id, Outstanding(inv), "", now);
    OnlyDebt(b, tenant, id, inv.(status := Paid));
    UnlockThenExpiry(b, tenant, until, newest, at);
    var shut := Next(Next(b, Unlocking(tenant, until, newest)), Expiring(at));
    PayingOffReadmits(shut, tenant, id, now);
    RunOfThree(b, Unlocking(tenant, until, newest), Expiring(at), pay);
  }

  // ---------------------------------------------------------------- how long dunning waits

  /** The pass at `i` saw something overdue and opened an episode for the subscription. */
  ghost predicate Opens(b: Books, events: seq<Event>, i: nat, sub: Id) {
    && i < |events| && events[i].Passing?
    && PassAdvances(At(b, events, i), sub, events[i].at)
    && StartsOver(At(b, events, i).subscriptions[sub])
  }

  /** The pass at `j` saw something overdue and moved the subscription into its grace period. */
  ghost predicate EntersGrace(b: Books, events: seq<Event>, j: nat, sub: Id) {
    && j < |events| && events[j].Passing?
    && PassAdvances(At(b, events, j), sub, events[j].at)
    && !StartsOver(At(b, events, j).subscriptions[sub])
    && At(b, events, j).subscriptions[sub].step == PastDueStep
  }

  /** The dates of the subscription are those of the episode opened at `i`. */
  predicate DatedBy(s: Subscription, opening: Event) {
    opening.Passing? && s.pastDueAt == Some(opening.at) && s.graceUntil == Some(opening.at + opening.grace)
  }

  /** Events touch a subscription in one of three ways. */
  lemma NextOnSubscription(b: Books, e: Event, sub: Id)
    requires sub in b.subscriptions
    ensures sub in Next(b, e).subscriptions
    ensures var s, s' := b.subscriptions[sub], Next(b, e).subscriptions[sub];
            if e.Passing? && PassAdvances(b, sub, e.at) then s' == AdvancedSubscription(s, e.at, e.grace)
            else s' == s || s'.step == NoStep
  {
    if e.Paying? && Pay(b, e.id, e.amount, e.reference, e.at).verdict == Accepted {
      RecordingOnSubscription(b, Payment(e.id, b.invoices[e.id].tenant, e.amount, e.reference), e.at, sub);
    } else if e.Calling? && Gateway(b, e.callback, e.at).verdict == Accepted {
      var c := e.callback;
      RecordingOnSubscription(b, Payment(c.invoice, c.tenant, c.amount, c.reference), e.at, sub);
    }
  }

  lemma {:induction false} SubscriptionsStay(b: Books, events: seq<Event>, k: nat, sub: Id)
    requires k <= |events| && sub in b.subscriptions
    ensures sub in At(b, events, k).subscriptions
  {
    if k == 0 {
      assert events[..0] == [];
    } else {
      SubscriptionsStay(b, events, k - 1, sub);
      AtStep(b, events, k - 1);
      NextOnSubscription(At(b, events, k - 1), events[k - 1], sub);
    }
  }

  /**
   * Where the episode of a subscription comes from: a subscription that is past due was opened by
   * an earlier pass `i`, and one in grace was moved there by a later pass `j`; its dates are those of `i`.
   */
  lemma {:induction false} EpisodeHistory(b: Books, events: seq<Event>, k: nat, sub: Id) returns (i: nat, j: nat)
    requires k <= |events| && sub in b.subscriptions && b.subscriptions[sub].step == NoStep
    ensures sub in At(b, events, k).subscriptions
    ensures var s := At(b, events, k).subscriptions[sub];
            && (s.step == PastDueStep ==> i < k && Opens(b, events, i, sub) && DatedBy(s, events[i]))
            && (s.step == Grace ==>
                  i < j < k && Opens(b, events, i, sub) && EntersGrace(b, events, j, sub) && DatedBy(s, events[i]))
  {
    i, j := 0, 0;
    SubscriptionsStay(b, events, k, sub);
    if k == 0 {
      assert events[..0] == [];
    } else {
      i, j := EpisodeHistory(b, events, k - 1, sub);
      AtStep(b, events, k - 1);
      var before, e := At(b, events, k - 1), events[k - 1];
      NextOnSubscription(before, e, sub);
      if e.Passing? && PassAdvances(before, sub, e.at) {
        if StartsOver(before.subscriptions[sub]) {
          i := k - 1;
          assert Opens(b, events, i, sub);
        } else if before.subscriptions[sub].step == PastDueStep {
          j := k - 1;
          assert EntersGrace(b, events, j, sub);
        }
      }
    }
  }

  /**
   * A dunning pass suspends nobody early. Whenever the pass at `k` suspends a subscription whose
   * dunning had not begun when the run started, two earlier distinct passes `i < j` each saw it
   * overdue: `i` opened this episode, recorded its time as the past-due time and still stands as
   * that, and `j` moved it into grace; and the pass at `k`, which sees it overdue too, comes no
   * sooner than the grace period set at `i` after that recorded time.
   */
  lemma SuspensionIsTimely(b: Books, events: seq<Event>, k: nat, sub: Id) returns (i: nat, j: nat)
    requires k < |events| && events[k].Passing?
    requires sub in b.subscriptions && b.subscriptions[sub].step == NoStep
    requires PassSuspends(At(b, events, k), sub, events[k].at)
    ensures i < j < k && Opens(b, events, i, sub) && EntersGrace(b, events, j, sub)
    ensures HasOverdue(At(b, events, k).invoices, sub, events[k].at)
    ensures At(b, events, k).subscriptions[sub].pastDueAt == Some(events[i].at)
    ensures events[k].at >= events[i].at + events[i].grace
  {
    i, j := EpisodeHistory(b, events, k, sub);
  }

  /** The same for tenants: one that a pass newly suspends has a subscription whose episode is that old. */
  lemma TenantSuspensionIsTimely(b: Books, events: seq<Event>, k: nat, tenant: Id) returns (sub: Id, i: nat, j: nat)
    requires k < |events| && events[k].Passing?
    requires forall s :: s in b.subscriptions && b.subscriptions[s].tenant == tenant ==> b.subscriptions[s].step == NoStep
    requires tenant in At(b, events, k).tenants && At(b, events, k).tenants[tenant].status != Suspended
    requires tenant in At(b, events, k + 1).tenants && At(b, events, k + 1).tenants[tenant].status == Suspended
    ensures sub in At(b, events, k).subscriptions && At(b, events, k).subscriptions[sub].tenant == tenant
    ensures PassSuspends(At(b, events, k), sub, events[k].at)
    ensures i < j < k && Opens(b, events, i, sub) && EntersGrace(b, events, j, sub)
    ensures At(b, events, k).subscriptions[sub].pastDueAt == Some(events[i].at)
    ensures events[k].at >= events[i].at + events[i].grace
  {
    AtStep(b, events, k);
    RowsAreTheSame(b, events, k);
    var before := At(b, events, k);
    assert PassSuspendsTenant(before, tenant, events[k].at);
    sub :| sub in before.subscriptions && PassSuspends(before, sub, events[k].at) && before.subscriptions[sub].tenant == tenant;
    i, j := SuspensionIsTimely(b, events, k, sub);
  }

  // ---------------------------------------------------------------- and that it does not wait longer

  /** An open or past-due invoice of the subscription. */
  predicate Standing(b: Books, sub: Id, id: Id) {
    && sub in b.subscriptions && b.subscriptions[sub].tenant in b.tenants
    && id in b.invoices && b.invoices[id].subscription == Some(sub) && b.invoices[id].tenant == b.subscriptions[sub].tenant
    && (b.invoices[id].status == Open || b.invoices[id].status == PastDue)
  }

  /** A courtesy unlock clears the dunning of its tenant. */
  predicate Unlocks(e: Event, tenant: Id) {
    e.Unlocking? && e.tenant == tenant
  }

  lemma RecordingUnderDebt(b: Books, p: Payment, now: Time, sub: Id, id: Id)
    requires p.invoice in b.invoices && Standing(b, sub, id) && Standing(Recording(b, p, now), sub, id)
    ensures Recording(b, p, now).subscriptions[sub] == b.subscriptions[sub]
    ensures var t := b.subscriptions[sub].tenant; Recording(b, p, now).tenants[t] == b.tenants[t]
  {
    ApplyPaymentFrame(b.(payments := b.payments + [p]), p.invoice, p.amount, now);
    RecordingOnSubscription(b, p, now, sub);
    RecordingOnTenant(b, p, now, b.subscriptions[sub].tenant);
    if id != p.invoice {
      assert Unpaid(b.invoices[id]);
    }
  }

  /** While an invoice stands, only passes move the subscription, and a dunning suspension stays. */
  lemma NextUnderDebt(b: Books, e: Event, sub: Id, id: Id)
    requires Standing(b, sub, id) && Standing(Next(b, e), sub, id) && !Unlocks(e, b.subscriptions[sub].tenant)
    ensures Next(b, e).subscriptions[sub] ==
              if e.Passing? && PassAdvances(b, sub, e.at) then AdvancedSubscription(b.subscriptions[sub], e.at, e.grace)
              else b.subscriptions[sub]
    ensures var t := b.subscriptions[sub].tenant;
            SuspendedByDunning(b.tenants[t]) || (e.Passing? && PassSuspends(b, sub, e.at)) ==>
              SuspendedByDunning(Next(b, e).tenants[t])
  {
    if e.Paying? && Pay(b, e.id, e.amount, e.reference, e.at).verdict == Accepted {
      RecordingUnderDebt(b, Payment(e.id, b.invoices[e.id].tenant, e.amount, e.reference), e.at, sub, id);
    } else if e.Calling? && Gateway(b, e.callback, e.at).verdict == Accepted {
      var c := e.callback;
      RecordingUnderDebt(b, Payment(c.invoice, c.tenant, c.amount, c.reference), e.at, sub, id);
    } else if e.Expiring? {
      assert Unpaid(b.invoices[id]);
    }
  }

  /** A pass came between `i` and `m`. */
  predicate PassSince(events: seq<Event>, i: nat, m: nat)
    requires m <= |events|
  {
    exists j :: i < j < m && events[j].Passing?
  }

  /** Two passes came between `i` and `m`, the second of them at or after the time `date`. */
  predicate PassedTwice(events: seq<Event>, i: nat, m: nat, date: Time)
    requires m <= |events|
  {
    exists n :: i < n < m && events[n].Passing? && events[n].at >= date && PassSince(events, i, n)
  }

  function StepDue(events: seq<Event>, i: nat, m: nat, date: Time): DunningStep
    requires m <= |events|
  {
    if PassedTwice(events, i, m, date) then SuspendedStep else if PassSince(events, i, m) then Grace else PastDueStep
  }

  lemma OneMorePass(events: seq<Event>, i: nat, m: nat, date: Time)
    requires i < m < |events|
    ensures PassSince(events, i, m + 1) <==> PassSince(events, i, m) || events[m].Passing?
    ensures PassedTwice(events, i, m + 1, date) <==>
              PassedTwice(events, i, m, date) || (events[m].Passing? && events[m].at >= date && PassSince(events, i, m))
  {
    if PassSince(events, i, m) {
      var j :| i < j < m && events[j].Passing?;
      assert i < j < m + 1;
    }
    if PassedTwice(events, i, m, date) {
      var n :| i < n < m && events[n].Passing? && events[n].at >= date && PassSince(events, i, n);
      assert i < n < m + 1;
    }
  }

  /** From the pass at `i` up to `k` the invoice stands, is overdue at every pass, and the tenant is not unlocked. */
  ghost predicate OverdueThroughout(b: Books, events: seq<Event>, i: nat, k: nat, sub: Id, id: Id)
    requires k <= |events|
  {
    && (forall m :: i <= m <= k ==> Standing(At(b, events, m), sub, id))
    && (forall m :: i <= m < k ==> !Unlocks(events[m], At(b, events, m).subscriptions[sub].tenant))
    && (forall m :: i <= m < k && events[m].Passing? ==> At(b, events, m).invoices[id].dueAt < events[m].at)
  }

  /** A subscription in the episode that the pass `opening` began. */
  predicate InEpisode(s: Subscription, opening: Event, step: DunningStep) {
    s.isCurrent && s.status == Late && DatedBy(s, opening) && s.step == step
  }

  lemma OverdueUntil(b: Books, events: seq<Event>, i: nat, k: nat, sub: Id, id: Id)
    requires i < k <= |events| && OverdueThroughout(b, events, i, k, sub, id)
    ensures OverdueThroughout(b, events, i, k - 1, sub, id)
    ensures Standing(At(b, events, k - 1), sub, id) && Standing(At(b, events, k), sub, id)
    ensures !Unlocks(events[k - 1], At(b, events, k - 1).subscriptions[sub].tenant)
    ensures events[k - 1].Passing? ==> At(b, events, k - 1).invoices[id].dueAt < events[k - 1].at
  {
  }

  lemma EpisodeOpens(b: Books, e: Event, sub: Id, id: Id)
    requires Standing(b, sub, id) && Standing(Next(b, e), sub, id) && !Unlocks(e, b.subscriptions[sub].tenant)
    requires e.Passing? && PassAdvances(b, sub, e.at) && StartsOver(b.subscriptions[sub])
    ensures InEpisode(Next(b, e).subscriptions[sub], e, PastDueStep)
  {
    NextUnderDebt(b, e, sub, id);
  }

  /** What a state of the episode is known to be. */
  ghost predicate Reached(b: Books, sub: Id, opening: Event, step: DunningStep) {
    && sub in b.subscriptions && b.subscriptions[sub].tenant in b.tenants
    && InEpisode(b.subscriptions[sub], opening, step)
    && (step == SuspendedStep ==> SuspendedByDunning(b.tenants[b.subscriptions[sub].tenant]))
  }

  function StepAfter(step: DunningStep, e: Event, opening: Event): DunningStep
    requires opening.Passing?
  {
    if e.Passing? && step == PastDueStep then Grace
    else if e.Passing? && step == Grace && e.at >= opening.at + opening.grace then SuspendedStep
    else step
  }

  lemma EpisodeStep(b: Books, e: Event, sub: Id, id: Id, opening: Event, step: DunningStep)
    requires Standing(b, sub, id) && Standing(Next(b, e), sub, id) && !Unlocks(e, b.subscriptions[sub].tenant)
    requires e.Passing? ==> b.invoices[id].dueAt < e.at
    requires opening.Passing? && step in {PastDueStep, Grace, SuspendedStep} && Reached(b, sub, opening, step)
    ensures Reached(Next(b, e), sub, opening, StepAfter(step, e, opening))
  {
    NextUnderDebt(b, e, sub, id);
    if e.Passing? {
      assert OverdueFor(b.invoices[id], sub, e.at);
    }
  }

  lemma StepDueNext(events: seq<Event>, i: nat, k: nat, opening: Event)
    requires i < k < |events| && opening.Passing?
    ensures var date := opening.at + opening.grace;
            StepDue(events, i, k + 1, date) == StepAfter(StepDue(events, i, k, date), events[k], opening)
  {
    OneMorePass(events, i, k, opening.at + opening.grace);
  }

  lemma NoPassYet(events: seq<Event>, i: nat, date: Time)
    requires i < |events|
    ensures StepDue(events, i, i + 1, date) == PastDueStep
  {
  }

  lemma EpisodeBegins(b: Books, events: seq<Event>, i: nat, sub: Id, id: Id)
    requires i < |events| && Opens(b, events, i, sub) && OverdueThroughout(b, events, i, i + 1, sub, id)
    ensures Reached(At(b, events, i + 1), sub, events[i], PastDueStep)
  {
    AtStep(b, events, i);
    OverdueUntil(b, events, i, i + 1, sub, id);
    EpisodeOpens(At(b, events, i), events[i], sub, id);
  }

  lemma EpisodeContinues(b: Books, events: seq<Event>, i: nat, k: nat, sub: Id, id: Id, step: DunningStep)
    requires i < k < |events| && events[i].Passing? && OverdueThroughout(b, events, i, k + 1, sub, id)
    requires step in {PastDueStep, Grace, SuspendedStep} && Reached(At(b, events, k), sub, events[i], step)
    ensures Reached(At(b, events, k + 1), sub, events[i], StepAfter(step, events[k], events[i]))
  {
    AtStep(b, events, k);
    OverdueUntil(b, events, i, k + 1, sub, id);
    EpisodeStep(At(b, events, k), events[k], sub, id, events[i], step);
  }

  /**
   * Once a pass `i` opened an episode and the invoice stays overdue, where dunning stands is decided by
   * the passes that follow: in grace after the next one, and suspended, with the tenant shut out, exactly
   * when another one after that came no earlier than the grace date set at `i`.
   */
  lemma {:induction false} SuspensionComesExactly(b: Books, events: seq<Event>, i: nat, k: nat, sub: Id, id: Id)
    requires i < k <= |events| && Opens(b, events, i, sub) && OverdueThroughout(b, events, i, k, sub, id)
    ensures Reached(At(b, events, k), sub, events[i], StepDue(events, i, k, events[i].at + events[i].grace))
  {
    var date := events[i].at + events[i].grace;
    if k == i + 1 {
      NoPassYet(events, i, date);
      EpisodeBegins(b, events, i, sub, id);
    } else {
      OverdueUntil(b, events, i, k, sub, id);
      SuspensionComesExactly(b, events, i, k - 1, sub, id);
      StepDueNext(events, i, k - 1, events[i]);
      EpisodeContinues(b, events, i, k - 1, sub, id, StepDue(events, i, k - 1, date));
    }
  }

  // ---------------------------------------------------------------- part payments stop dunning

  /** Some invoice of the subscription is open or past due; part-paid ones do not count. */
  predicate HasOpen(b: Books, sub: Id) {
    exists i :: i in b.invoices && b.invoices[i].subscription == Some(sub)
                && (b.invoices[i].status == Open || b.invoices[i].status == PastDue)
  }

  /** Which subscriptions some pass, sooner or later, would advance. */
  lemma DunnableExactly(b: Books, sub: Id)
    requires sub in b.subscriptions && b.subscriptions[sub].tenant in b.tenants
    ensures var s := b.subscriptions[sub];
            (exists now :: PassAdvances(b, sub, now)) <==>
              HasOpen(b, sub) && s.isCurrent && (s.step != SuspendedStep || s.status == Active)
  {
    var s := b.subscriptions[sub];
    if HasOpen(b, sub) && s.isCurrent && (s.step != SuspendedStep || s.status == Active) {
      var i :| i in b.invoices && b.invoices[i].subscription == Some(sub)
               && (b.invoices[i].status == Open || b.invoices[i].status == PastDue);
      var due := b.invoices[i].dueAt + 1;
      var now := if s.graceUntil.Some? && s.graceUntil.value > due then s.graceUntil.value else due;
      assert OverdueFor(b.invoices[i], sub, now);
      assert PassAdvances(b, sub, now);
    }
    if now :| PassAdvances(b, sub, now) {
      var i :| i in b.invoices && OverdueFor(b.invoices[i], sub, now);
      assert HasOpen(b, sub);
    }
  }

  predicate Bills(e: Event, sub: Id) {
    e.Invoicing? && e.invoice.subscription == Some(sub)
  }

  lemma RecordingOpensNothing(b: Books, p: Payment, now: Time, sub: Id)
    requires p.invoice in b.invoices && !HasOpen(b, sub)
    ensures !HasOpen(Recording(b, p, now), sub)
  {
    ApplyPaymentFrame(b.(payments := b.payments + [p]), p.invoice, p.amount, now);
    var after := Recording(b, p, now);
    forall i | i in after.invoices && after.invoices[i].subscription == Some(sub)
      ensures after.invoices[i].status != Open && after.invoices[i].status != PastDue
    {
      assert i != p.invoice ==> after.invoices[i] == b.invoices[i];
    }
  }

  lemma NextOpensNothing(b: Books, e: Event, sub: Id)
    requires !HasOpen(b, sub) && !Bills(e, sub)
    ensures !HasOpen(Next(b, e), sub)
  {
    if e.Paying? && Pay(b, e.id, e.amount, e.reference, e.at).verdict == Accepted {
      RecordingOpensNothing(b, Payment(e.id, b.invoices[e.id].tenant, e.amount, e.reference), e.at, sub);
    } else if e.Calling? && Gateway(b, e.callback, e.at).verdict == Accepted {
      var c := e.callback;
      RecordingOpensNothing(b, Payment(c.invoice, c.tenant, c.amount, c.reference), e.at, sub);
    }
  }

  lemma {:induction false} NeverDunned(b: Books, events: seq<Event>, k: nat, sub: Id)
    requires !HasOpen(b, sub) && k <= |events| && forall j :: 0 <= j < |events| ==> !Bills(events[j], sub)
    ensures !HasOpen(At(b, events, k), sub)
    ensures forall now :: !PassAdvances(At(b, events, k), sub, now)
  {
    if k == 0 {
      assert events[..0] == [];
    } else {
      NeverDunned(b, events, k - 1, sub);
      AtStep(b, events, k - 1);
      NextOpensNothing(At(b, events, k - 1), events[k - 1], sub);
    }
    NothingOverdue(At(b, events, k), sub);
  }

  lemma NothingOverdue(b: Books, sub: Id)
    requires !HasOpen(b, sub)
    ensures forall now :: !PassAdvances(b, sub, now)
  {
  }

  /**
   * One unit paid on the only open invoice of a subscription stops its dunning: in no run from then on
   * does any pass advance it, however long the rest stays unpaid, until it is billed again.
   */
  lemma OneUnitStopsDunning(b: Books, sub: Id, id: Id, at: Time, events: seq<Event>, k: nat, now: Time)
    requires id in b.invoices && b.invoices[id].status in {Open, PastDue} && Outstanding(b.invoices[id]) > 1
    requires forall i :: i in b.invoices && i != id && b.invoices[i].subscription == Some(sub) ==>
               b.invoices[i].status !in {Open, PastDue}
    requires k <= |events| && forall j :: 0 <= j < |events| ==> !Bills(events[j], sub)
    ensures var b' := Next(b, Paying(id, 1, "", at));
            id in b'.invoices && Outstanding(b'.invoices[id]) == Outstanding(b.invoices[id]) - 1
            && !PassAdvances(At(b', events, k), sub, now)
  {
    var p := Payment(id, b.invoices[id].tenant, 1, "");
    ApplyPaymentFrame(b.(payments := b.payments + [p]), id, 1, at);
    var b' := Recording(b, p, at);
    assert Next(b, Paying(id, 1, "", at)) == b';
    forall i | i in b'.invoices && b'.invoices[i].subscription == Some(sub)
      ensures b'.invoices[i].status != Open && b'.invoices[i].status != PastDue
    {
      assert i != id ==> b'.invoices[i] == b.invoices[i];
    }
    NeverDunned(b', events, k, sub);
  }
}
