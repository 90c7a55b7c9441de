/**
 * The billing tables and what each operation does to them: payments, gateway callbacks, dunning
 * passes and courtesy unlocks. Times are points of the timeline, in microseconds.
 */
module Ledger {
  import opened Text

  type Id = nat
  type Time = int

  datatype InvoiceStatus = Open | PartiallyPaid | Paid | PastDue | Draft | Void | WrittenOff
  datatype SubscriptionStatus = Active | Trialing | Late | Cancelled | CancelledBlacklisted
  datatype DunningStep = NoStep | PastDueStep | Grace | SuspendedStep
  datatype TenantStatus = TenantActive | Suspended | Archived | Blacklisted
  datatype Reason = NoReason | BillingDunning | BillingGraceExpired | CourtesyUnlockExpired | OtherReason

  datatype Invoice = Invoice(
    tenant: Id, subscription: Option<Id>, amount: int, paid: int,
    status: InvoiceStatus, dueAt: Time, paidAt: Option<Time>)

  datatype Subscription = Subscription(
    tenant: Id, status: SubscriptionStatus, isCurrent: bool,
    step: DunningStep, pastDueAt: Option<Time>, graceUntil: Option<Time>)

  datatype Tenant = Tenant(status: TenantStatus, reason: Reason, courtesyUntil: Option<Time>)

  datatype Payment = Payment(invoice: Id, tenant: Id, amount: int, reference: string)

  datatype Books = Books(
    invoices: map<Id, Invoice>, subscriptions: map<Id, Subscription>,
    tenants: map<Id, Tenant>, payments: seq<Payment>)

  function Outstanding(inv: Invoice): int {
    if inv.amount > inv.paid then inv.amount - inv.paid else 0
  }

  predicate Unpaid(inv: Invoice) {
    inv.status == Open || inv.status == PastDue || inv.status == PartiallyPaid
  }

  /** Some unpaid invoice of the subscription, other than `except`. */
  predicate SubscriptionOwes(invoices: map<Id, Invoice>, sub: Id, except: Option<Id>) {
    exists i :: i in invoices && Some(i) != except && invoices[i].subscription == Some(sub) && Unpaid(invoices[i])
  }

  /** Some unpaid invoice of the tenant, other than `except`. */
  predicate TenantOwes(invoices: map<Id, Invoice>, tenant: Id, except: Option<Id>) {
    exists i :: i in invoices && Some(i) != except && invoices[i].tenant == tenant && Unpaid(invoices[i])
  }

  // ---------------------------------------------------------------- payments

  function Reactivated(s: Subscription): Subscription {
    s.(status := Active, step := NoStep, pastDueAt := None, graceUntil := None)
  }

  function SettledInvoice(inv: Invoice, now: Time): Invoice {
    inv.(status := Paid, paidAt := Some(now), paid := if inv.paid < inv.amount then inv.amount else inv.paid)
  }

  function Reopened(t: Tenant): Tenant {
    t.(status := TenantActive, reason := NoReason)
  }

  predicate SuspendedByDunning(t: Tenant) {
    t.status == Suspended && t.reason == BillingDunning
  }

  /** `settle_invoice` */
  function Settle(b: Books, id: Id, now: Time): Books
    requires id in b.invoices
  {
    var inv := b.invoices[id];
    var sub := inv.subscription;
    var subscriptions :=
      if sub.Some? && sub.value in b.subscriptions && !SubscriptionOwes(b.invoices, sub.value, Some(id))
      then b.subscriptions[sub.value := Reactivated(b.subscriptions[sub.value])]
      else b.subscriptions;
    var tenants :=
      if inv.tenant in b.tenants && SuspendedByDunning(b.tenants[inv.tenant]) && !TenantOwes(b.invoices, inv.tenant, Some(id))
      then b.tenants[inv.tenant := Reopened(b.tenants[inv.tenant])]
      else b.tenants;
    b.(invoices := b.invoices[id := SettledInvoice(inv, now)], subscriptions := subscriptions, tenants := tenants)
  }

  /** `apply_payment_to_invoice`, for a positive amount */
  function ApplyPayment(b: Books, id: Id, amount: int, now: Time): Books
    requires id in b.invoices
  {
    var credited := b.invoices[id].(paid := b.invoices[id].paid + amount);
    var b' := b.(invoices := b.invoices[id := credited]);
    if credited.paid >= credited.amount then Settle(b', id, now)
    else b'.(invoices := b'.invoices[id := credited.(status := PartiallyPaid)])
  }

  predicate ReferenceUsed(payments: seq<Payment>, reference: string) {
    exists k :: 0 <= k < |payments| && payments[k].reference == reference
  }

  /** Position of the first payment carrying a reference. */
  function FirstWithReference(payments: seq<Payment>, reference: string): (k: nat)
    requires ReferenceUsed(payments, reference)
    ensures k < |payments| && payments[k].reference == reference
    ensures forall j :: 0 <= j < k ==> payments[j].reference != reference
  {
    if payments[0].reference == reference then 0 else
      assert exists k :: 0 <= k < |payments[1..]| && payments[1..][k].reference == reference by {
        var k :| 0 <= k < |payments| && payments[k].reference == reference;
        assert payments[1..][k - 1] == payments[k];
      }
      1 + FirstWithReference(payments[1..], reference)
  }

  datatype Verdict = Accepted | Duplicate | NotFound | Refused | Conflict

  datatype Answer = Answer(books: Books, verdict: Verdict)

  /** `pay_invoice`: a payment recorded by staff. */
  function Pay(b: Books, id: Id, amount: int, reference: string, now: Time): Answer {
    if id !in b.invoices then Answer(b, NotFound)
    else if b.invoices[id].status == Void || b.invoices[id].status == WrittenOff then Answer(b, Conflict)
    else if amount <= 0 || amount > Outstanding(b.invoices[id]) then Answer(b, Refused)
    else if reference != "" && ReferenceUsed(b.payments, reference) then Answer(b, Conflict)
    else
      var payment := Payment(id, b.invoices[id].tenant, amount, reference);
      Answer(ApplyPayment(b.(payments := b.payments + [payment]), id, amount, now), Accepted)
  }

  /** A gateway callback; its clock reading is not part of the message. */
  datatype Callback = Callback(tenant: Id, invoice: Id, amount: int, reference: string)

  /** `settle_tenant_invoice` */
  function Gateway(b: Books, c: Callback, now: Time): Answer {
    if c.invoice !in b.invoices || b.invoices[c.invoice].tenant != c.tenant then Answer(b, NotFound)
    else if c.reference == "" then Answer(b, Refused)
    else if ReferenceUsed(b.payments, c.reference) then
      var earlier := b.payments[FirstWithReference(b.payments, c.reference)];
      Answer(b, if earlier.tenant != c.tenant || earlier.invoice != c.invoice then Conflict else Duplicate)
    else if c.amount <= 0 || c.amount > Outstanding(b.invoices[c.invoice]) then Answer(b, Refused)
    else
      var payment := Payment(c.invoice, c.tenant, c.amount, c.reference);
      Answer(ApplyPayment(b.(payments := b.payments + [payment]), c.invoice, c.amount, now), Accepted)
  }

  // ---------------------------------------------------------------- dunning

  /** An invoice that a dunning pass acts on. */
  predicate OverdueFor(inv: Invoice, sub: Id, now: Time) {
    && (inv.status == Open || inv.status == PastDue)
    && inv.dueAt < now
    && inv.subscription == Some(sub)
  }

  predicate HasOverdue(invoices: map<Id, Invoice>, sub: Id, now: Time) {
    exists i :: i in invoices && OverdueFor(invoices[i], sub, now)
  }

  /** The step rule of a pass: suspended subscriptions and unexpired grace are left alone. */
  predicate MayAdvance(s: Subscription, now: Time) {
    && s.isCurrent
    && (s.step != SuspendedStep || s.status == Active)
    && !(s.step == Grace && s.graceUntil.Some? && s.graceUntil.value > now)
  }

  predicate StartsOver(s: Subscription) {
    s.step == NoStep || s.status == Active
  }

  /** One dunning step of a subscription. */
  function AdvancedSubscription(s: Subscription, now: Time, grace: Time): Subscription {
    if StartsOver(s) then
      s.(status := Late, step := PastDueStep, pastDueAt := Some(now), graceUntil := Some(now + grace))
    else if s.step == PastDueStep then
      s.(step := Grace, graceUntil := if s.graceUntil.None? then Some(now + grace) else s.graceUntil)
    else
      s.(step := SuspendedStep, status := Late)
  }

  predicate Suspends(s: Subscription) {
    !StartsOver(s) && s.step != PastDueStep
  }

  function SuspendedTenant(t: Tenant): Tenant {
    t.(status := Suspended, reason := BillingDunning)
  }

  /** `advance_dunning` */
  function Advance(b: Books, sub: Id, now: Time, grace: Time): Books
    requires sub in b.subscriptions
  {
    var s := b.subscriptions[sub];
    if s.tenant !in b.tenants then b
    else
      var invoices :=
        if StartsOver(s) then
          map i | i in b.invoices :: if b.invoices[i].subscription == Some(sub) && b.invoices[i].status == Open
                                     then b.invoices[i].(status := PastDue) else b.invoices[i]
        else b.invoices;
      var tenants :=
        if Suspends(s) then b.tenants[s.tenant := SuspendedTenant(b.tenants[s.tenant])] else b.tenants;
      b.(invoices := invoices, tenants := tenants,
         subscriptions := b.subscriptions[sub := AdvancedSubscription(s, now, grace)])
  }

  /** The subscriptions that a pass over `b` advances. */
  predicate PassAdvances(b: Books, sub: Id, now: Time) {
    && sub in b.subscriptions
    && b.subscriptions[sub].tenant in b.tenants
    && HasOverdue(b.invoices, sub, now)
    && MayAdvance(b.subscriptions[sub], now)
  }

  /** The pass advances the subscription out of its grace period. */
  predicate PassSuspends(b: Books, sub: Id, now: Time) {
    PassAdvances(b, sub, now) && Suspends(b.subscriptions[sub])
  }

  predicate PassSuspendsTenant(b: Books, tenant: Id, now: Time) {
    exists sub :: sub in b.subscriptions && PassSuspends(b, sub, now) && b.subscriptions[sub].tenant == tenant
  }

  function InvoiceAfterPass(b: Books, inv: Invoice, now: Time): Invoice {
    if inv.status == Open && inv.subscription.Some? && PassAdvances(b, inv.subscription.value, now)
       && StartsOver(b.subscriptions[inv.subscription.value])
    then inv.(status := PastDue) else inv
  }

  /**
   * `run_dunning_pass`, said all at once: every subscription the pass advances takes one step, whatever
   * the order in which the invoices are scanned.
   */
  function DunningPass(b: Books, now: Time, grace: Time): Books {
    b.(subscriptions := map s | s in b.subscriptions ::
         if PassAdvances(b, s, now) then AdvancedSubscription(b.subscriptions[s], now, grace) else b.subscriptions[s],
       invoices := map i | i in b.invoices :: InvoiceAfterPass(b, b.invoices[i], now),
       tenants := map t | t in b.tenants ::
         if PassSuspendsTenant(b, t, now) then SuspendedTenant(b.tenants[t]) else b.tenants[t])
  }

  // ---------------------------------------------------------------- courtesy unlocks

  /** The subscription a courtesy unlock clears: the newest current one of the tenant, if there is one. */
  predicate NewestCurrent(b: Books, tenant: Id, sub: Option<Id>) {
    if sub.Some? then
      && sub.value in b.subscriptions
      && IsCurrentOf(b.subscriptions[sub.value], tenant)
      && forall s :: s in b.subscriptions && IsCurrentOf(b.subscriptions[s], tenant) ==> s <= sub.value
    else forall s :: s in b.subscriptions ==> !IsCurrentOf(b.subscriptions[s], tenant)
  }

  predicate IsCurrentOf(s: Subscription, tenant: Id) {
    s.tenant == tenant && s.isCurrent
  }

  function Unlocked(t: Tenant, until: Time): Tenant {
    t.(status := TenantActive, courtesyUntil := Some(until))
  }

  function DunningCleared(s: Subscription): Subscription {
    s.(step := NoStep, pastDueAt := None, graceUntil := None)
  }

  /** `courtesy_unlock` */
  function CourtesyUnlock(b: Books, tenant: Id, until: Time, newest: Option<Id>): Books
    requires NewestCurrent(b, tenant, newest)
  {
    if tenant !in b.tenants then b
    else b.(tenants := b.tenants[tenant := Unlocked(b.tenants[tenant], until)],
            subscriptions := if newest.Some?
                             then b.subscriptions[newest.value := DunningCleared(b.subscriptions[newest.value])]
                             else b.subscriptions)
  }

  /** A healthy current subscription and nothing unpaid. */
  predicate BillingResolved(b: Books, tenant: Id) {
    && (exists s :: s in b.subscriptions && Healthy(b.subscriptions[s], tenant))
    && !TenantOwes(b.invoices, tenant, None)
  }

  predicate Healthy(s: Subscription, tenant: Id) {
    && IsCurrentOf(s, tenant)
    && (s.status == Active || s.status == Trialing)
    && s.step == NoStep
  }

  function ReasonAfterExpiry(r: Reason): Reason {
    if r == BillingDunning || r == BillingGraceExpired then r else CourtesyUnlockExpired
  }

  function TenantAfterExpiry(t: Tenant, resolved: bool, now: Time): Tenant {
    if t.courtesyUntil.None? || t.courtesyUntil.value > now then t
    else if resolved then
      t.(courtesyUntil := None, reason := if t.reason == OtherReason then OtherReason else NoReason)
    else t.(status := Suspended, courtesyUntil := None, reason := ReasonAfterExpiry(t.reason))
  }

  /** `run_courtesy_unlock_expiry_pass` */
  function CourtesyExpiry(b: Books, now: Time): Books {
    b.(tenants := map t | t in b.tenants :: TenantAfterExpiry(b.tenants[t], BillingResolved(b, t), now))
  }

  // ---------------------------------------------------------------- steps and runs

  datatype Event =
    | Paying(id: Id, amount: int, reference: string, at: Time)
    | Calling(callback: Callback, at: Time)
    | Passing(at: Time, grace: Time)
    | Unlocking(tenant: Id, until: Time, newest: Option<Id>)
    | Expiring(at: Time)
    | Invoicing(id: Id, invoice: Invoice)

  /** A new invoice takes a fresh id, is open and unpaid, and bills a subscription of its own tenant. */
  predicate MayInvoice(b: Books, id: Id, inv: Invoice) {
    && id !in b.invoices
    && inv.tenant in b.tenants
    && inv.status == Open && inv.paid == 0
    && (inv.subscription.Some? ==>
          inv.subscription.value in b.subscriptions && b.subscriptions[inv.subscription.value].tenant == inv.tenant)
  }

  function Next(b: Books, e: Event): Books {
    match e
    case Paying(id, amount, reference, at) => Pay(b, id, amount, reference, at).books
    case Calling(c, at) => Gateway(b, c, at).books
    case Passing(at, grace) => DunningPass(b, at, grace)
    case Unlocking(tenant, until, newest) =>
      if NewestCurrent(b, tenant, newest) then CourtesyUnlock(b, tenant, until, newest) else b
    case Expiring(at) => CourtesyExpiry(b, at)
    case Invoicing(id, inv) => if MayInvoice(b, id, inv) then b.(invoices := b.invoices[id := inv]) else b
  }

  function Run(b: Books, events: seq<Event>): Books
    decreases |events|
  {
    if events == [] then b else Run(Next(b, events[0]), events[1..])
  }
}
