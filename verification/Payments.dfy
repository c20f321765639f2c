/** Money in, entitlement out: payments, their invoices, and the subscriptions they start.

    A payment is settled by whoever reports success first -- a provider callback, a status poll or the
    reconciliation sweep -- and every report may arrive twice, late or out of order.  Settling issues
    the invoice and publishes PAYMENT_SUCCEEDED; the one handler that matters grants access. */
module Payments {
  import opened Wrappers
  import opened InvoiceNumbers

  type Pid = nat   // a payment, by its place in the table
  type Sid = nat   // a subscription, by its place in the table

  const DAY := 86400
  const PAYMENT_WINDOW := 7200
  const RECONCILE_AFTER := 600
  const RECONCILE_BATCH := 200

  datatype Status = Pending | Processing | Succeeded | Failed | Cancelled | Refunded | PartiallyRefunded

  // What is being paid for, with the metadata that the purpose needs ("" and None are absent).
  datatype Purpose =
    | NewSubscription(plan: string, coupon: string)
    | SubscriptionRenewal(subscription: Option<Sid>)
    | OtherPurpose

  datatype Payment = Payment(
    user: nat, purpose: Purpose, amount: nat, refunded: nat, status: Status,
    providerRef: string, createdAt: nat, expiresAt: nat)

  datatype SubscriptionStatus = Active | Trialing | SubscriptionCancelled | Expired

  datatype Subscription = Subscription(
    user: nat, plan: string, status: SubscriptionStatus, expiresAt: nat, payment: Option<Pid>, autoRenew: bool)

  datatype Plan = Plan(active: bool, durationDays: nat)

  datatype Coupon = Coupon(
    active: bool, validFrom: nat, validUntil: Option<nat>, maxRedemptions: nat, redemptions: nat,
    perUserLimit: nat, plans: set<string>, freeDays: nat)

  datatype World = World(
    payments: seq<Payment>,
    invoices: map<Pid, string>,
    numbers: seq<string>,               // the invoice table, in order of issue
    subscriptions: seq<Subscription>,
    plans: map<string, Plan>,
    coupons: map<string, Coupon>,
    redeemed: map<(string, nat), nat>,  // coupon uses by member
    settled: seq<Pid>,                  // PAYMENT_SUCCEEDED events published so far
    months: seq<string>,                // the month of each issued invoice
    now: nat,
    month: string)

  // What a provider says about a payment.
  datatype Report = Paid | Declined | CancelledByPayer | RefundedOutside(amount: nat) | NothingNew

  datatype Error = PlanNotFound | CouponInvalid | SubscriptionNotFound | InvoiceNumberTaken | InvalidRefund

  predicate IsOpen(p: Payment) { p.status == Pending || p.status == Processing }

  predicate Live(s: Subscription) { s.status == Active || s.status == Trialing }

  // ---- subscriptions -----------------------------------------------------------------------------

  predicate CouponOk(c: Coupon, used: nat, plan: string, now: nat) {
    && c.active && c.validFrom <= now && (c.validUntil.Some? ==> now <= c.validUntil.value)
    && (c.maxRedemptions == 0 || c.redemptions < c.maxRedemptions)
    && (c.plans == {} || plan in c.plans)
    && used < c.perUserLimit
  }

  function Uses(w: World, code: string, user: nat): nat {
    if (code, user) in w.redeemed then w.redeemed[(code, user)] else 0
  }

  predicate Redeemable(w: World, code: string, user: nat, plan: string) {
    code in w.coupons && CouponOk(w.coupons[code], Uses(w, code, user), plan, w.now)
  }

  function Redeem(w: World, code: string, user: nat): World
    requires code in w.coupons
  {
    var c := w.coupons[code];
    w.(coupons := w.coupons[code := c.(redemptions := c.redemptions + 1)],
       redeemed := w.redeemed[(code, user) := Uses(w, code, user) + 1])
  }

  // A member's live rows are cancelled before a new one starts.
  function Replaced(rows: seq<Subscription>, user: nat): (r: seq<Subscription>)
    ensures |r| == |rows|
  {
    seq(|rows|, i requires 0 <= i < |rows| =>
      if rows[i].user == user && Live(rows[i]) then rows[i].(status := SubscriptionCancelled) else rows[i])
  }

  predicate Startable(w: World, user: nat, plan: string, coupon: string) {
    plan in w.plans && w.plans[plan].active && (coupon != "" ==> Redeemable(w, coupon, user, plan))
  }

  function Start(w: World, user: nat, plan: string, coupon: string, payment: Option<Pid>): Result<World, Error> {
    if plan !in w.plans || !w.plans[plan].active then Err(PlanNotFound)
    else if coupon != "" && !Redeemable(w, coupon, user, plan) then Err(CouponInvalid)
    else
      var bonus := if coupon == "" then 0 else w.coupons[coupon].freeDays;
      var w' := if coupon == "" then w else Redeem(w, coupon, user);
      var row := Subscription(user, plan, Active, w.now + (w.plans[plan].durationDays + bonus) * DAY, payment, true);
      Ok(w'.(subscriptions := Replaced(w.subscriptions, user) + [row]))
  }

  function Renewed(row: Subscription, days: nat, now: nat, payment: Option<Pid>): Subscription {
    var base := if row.expiresAt > now then row.expiresAt else now;
    row.(expiresAt := base + days * DAY, status := Active, payment := if payment.Some? then payment else row.payment)
  }

  function PlanDays(w: World, plan: string): nat { if plan in w.plans then w.plans[plan].durationDays else 0 }

  function Renew(w: World, sid: Sid, payment: Option<Pid>): Result<World, Error> {
    if sid >= |w.subscriptions| then Err(SubscriptionNotFound)
    else
      var row := w.subscriptions[sid];
      Ok(w.(subscriptions := w.subscriptions[sid := Renewed(row, PlanDays(w, row.plan), w.now, payment)]))
  }

  // The newest live, unexpired row of a member, if any.
  function CurrentRow(w: World, user: nat, n: nat): (r: Option<Sid>)
    requires n <= |w.subscriptions|
    ensures r.Some? ==> r.value < n
  {
    if n == 0 then None
    else
      var row := w.subscriptions[n - 1];
      if row.user == user && Live(row) && row.expiresAt > w.now then Some(n - 1) else CurrentRow(w, user, n - 1)
  }

  function Stopped(w: World, user: nat): World {
    match CurrentRow(w, user, |w.subscriptions|)
    case None => w
    case Some(sid) =>
      w.(subscriptions :=
           w.subscriptions[sid := w.subscriptions[sid].(status := SubscriptionCancelled, autoRenew := false)])
  }

  function ExpiredRow(s: Subscription, now: nat): Subscription {
    if s.status != Expired && s.expiresAt < now then s.(status := Expired) else s
  }

  // The handler of PAYMENT_SUCCEEDED.  An error it raises stays inside the event bus.
  function Grant(w: World, p: Pid): World
    requires p < |w.payments|
  {
    var pay := w.payments[p];
    var result := match pay.purpose
      case NewSubscription(plan, coupon) => if plan == "" then Ok(w) else Start(w, pay.user, plan, coupon, Some(p))
      case SubscriptionRenewal(Some(sid)) => Renew(w, sid, Some(p))
      case _ => Ok(w);
    match result case Ok(w') => w' case Err(_) => w
  }

  // ---- payments ----------------------------------------------------------------------------------

  function WithStatus(w: World, p: Pid, s: Status): World
    requires p < |w.payments|
  {
    w.(payments := w.payments[p := w.payments[p].(status := s)])
  }

  function MarkSucceeded(w: World, p: Pid, ref: string): World
    requires p < |w.payments|
  {
    var pay := w.payments[p];
    w.(payments :=
         w.payments[p := pay.(status := Succeeded, providerRef := if ref != "" then ref else pay.providerRef)])
  }

  // One invoice per payment; an existing one is kept.
  function IssueInvoice(w: World, p: Pid): Result<World, Error> {
    if p in w.invoices then Ok(w)
    else
      match Issue(w.numbers, w.month)
      case Err(_) => Err(InvoiceNumberTaken)
      case Ok(numbers) =>
        Ok(w.(numbers := numbers,
              invoices := w.invoices[p := NextNumber(w.numbers, w.month)],
              months := w.months + [w.month]))
  }

  function Settle(w: World, p: Pid, ref: string): Result<World, Error>
    requires p < |w.payments|
  {
    if w.payments[p].status == Succeeded then Ok(w)
    else
      match IssueInvoice(MarkSucceeded(w, p, ref), p)
      case Err(e) => Err(e)
      case Ok(w') => Ok(Grant(w'.(settled := w'.settled + [p]), p))
  }

  function Fail(w: World, p: Pid): World
    requires p < |w.payments|
  {
    if w.payments[p].status == Succeeded then w else WithStatus(w, p, Failed)
  }

  function ApplyRefund(w: World, p: Pid, amount: nat): World
    requires p < |w.payments|
  {
    var pay := w.payments[p];
    var total := pay.refunded + amount;
    w.(payments := w.payments[p :=
      pay.(refunded := total, status := if total >= pay.amount then Refunded else PartiallyRefunded)])
  }

  // A webhook that was matched to a payment; an error rolls the whole callback back.
  function Callback(w: World, p: Pid, ref: string, report: Report): Result<World, Error>
    requires p < |w.payments|
  {
    match report
    case Paid => Settle(w, p, ref)
    case Declined => Ok(Fail(w, p))
    case CancelledByPayer => Ok(WithStatus(w, p, Cancelled))
    case RefundedOutside(amount) => Ok(ApplyRefund(w, p, if amount == 0 then w.payments[p].amount else amount))
    case NothingNew => Ok(w)
  }

  // Callbacks name our reference, or else the provider's own, newest payment first.
  function ByProviderRef(payments: seq<Payment>, ref: string, n: nat): (r: Option<Pid>)
    requires n <= |payments|
    ensures r.Some? ==> r.value < n && payments[r.value].providerRef == ref
    ensures r.Some? ==> forall i | r.value < i < n :: payments[i].providerRef != ref
    ensures r.None? ==> forall i | 0 <= i < n :: payments[i].providerRef != ref
  {
    if n == 0 then None
    else if payments[n - 1].providerRef == ref then Some(n - 1)
    else ByProviderRef(payments, ref, n - 1)
  }

  function Resolve(w: World, reference: Option<Pid>, ref: string): (r: Option<Pid>)
    ensures r.Some? ==> r.value < |w.payments|
  {
    if reference.Some? && reference.value < |w.payments| then reference
    else if ref != "" then ByProviderRef(w.payments, ref, |w.payments|)
    else None
  }

  function Poll(w: World, p: Pid, report: Report): Result<World, Error>
    requires p < |w.payments|
  {
    var ref := w.payments[p].providerRef;
    if ref == "" then Ok(w)
    else
      match report
      case Paid => Settle(w, p, ref)
      case Declined => Ok(Fail(w, p))
      case _ => Ok(w)
  }

  function OrElse(r: Result<World, Error>, w: World): World {
    match r case Ok(w') => w' case Err(_) => w
  }

  predicate DueForReconciliation(p: Payment, now: nat) {
    IsOpen(p) && p.createdAt + RECONCILE_AFTER < now && p.providerRef != ""
  }

  // The due payments from the newest down to the n-th.
  function Due(payments: seq<Payment>, now: nat, n: nat): (ids: seq<Pid>)
    ensures forall i | 0 <= i < |ids| :: ids[i] < |payments|
    decreases |payments| - n
  {
    if n >= |payments| then []
    else Due(payments, now, n + 1) + if DueForReconciliation(payments[n], now) then [n] else []
  }

  function Batch(ids: seq<Pid>): seq<Pid> {
    if |ids| <= RECONCILE_BATCH then ids else ids[..RECONCILE_BATCH]
  }

  // The sweep polls what it selected; one failing poll does not stop the others.
  function PollAll(w: World, ids: seq<Pid>, reports: map<Pid, Report>, k: nat): (r: World)
    requires k <= |ids| && forall i | 0 <= i < |ids| :: ids[i] < |w.payments|
    ensures |r.payments| == |w.payments|
  {
    if k == 0 then w
    else
      var before, p := PollAll(w, ids, reports, k - 1), ids[k - 1];
      if p !in reports then before
      else
        PollKeepsTable(before, p, reports[p]);
        OrElse(Poll(before, p, reports[p]), before)
  }

  lemma PollKeepsTable(w: World, p: Pid, report: Report)
    requires p < |w.payments|
    ensures |OrElse(Poll(w, p, report), w).payments| == |w.payments|
  {}

  function Stale(p: Payment, now: nat): Payment {
    if IsOpen(p) && p.expiresAt < now then p.(status := Cancelled) else p
  }

  // ---- steps and runs ----------------------------------------------------------------------------

  datatype Step =
    | Create(user: nat, purpose: Purpose, amount: nat, providerRef: string)
    | Webhook(reference: Option<Pid>, ref: string, report: Report)
    | PollStatus(p: Pid, report: Report)
    | Reconcile(reports: map<Pid, Report>)
    | ExpireStale
    | IssueRefund(p: Pid, amount: nat)
    | StartFree(user: nat, plan: string, coupon: string)
    | RenewBy(sid: Sid)
    | CancelBy(user: nat)
    | ExpireDue
    | Later(now: nat, month: string)

  predicate RefundAllowed(pay: Payment, amount: nat) {
    0 < amount && pay.refunded + amount <= pay.amount && pay.status == Succeeded
  }

  function Next(w: World, step: Step): World {
    match step
    case Create(user, purpose, amount, ref) =>
      if amount == 0 then w
      else
        w.(payments := w.payments + [Payment(user, purpose, amount, 0, Processing, ref, w.now, w.now + PAYMENT_WINDOW)])
    case Webhook(reference, ref, report) => (
      match Resolve(w, reference, ref)
      case None => w
      case Some(p) => OrElse(Callback(w, p, ref, report), w))
    case PollStatus(p, report) => if p < |w.payments| then OrElse(Poll(w, p, report), w) else w
    case Reconcile(reports) => var ids := Batch(Due(w.payments, w.now, 0)); PollAll(w, ids, reports, |ids|)
    case ExpireStale =>
      w.(payments := seq(|w.payments|, i requires 0 <= i < |w.payments| => Stale(w.payments[i], w.now)))
    case IssueRefund(p, amount) =>
      if p < |w.payments| && RefundAllowed(w.payments[p], amount) then ApplyRefund(w, p, amount) else w
    case StartFree(user, plan, coupon) => OrElse(Start(w, user, plan, coupon, None), w)
    case RenewBy(sid) => OrElse(Renew(w, sid, None), w)
    case CancelBy(user) => Stopped(w, user)
    case ExpireDue =>
      w.(subscriptions :=
           seq(|w.subscriptions|, i requires 0 <= i < |w.subscriptions| => ExpiredRow(w.subscriptions[i], w.now)))
    case Later(now, month) => if now >= w.now && IsMonth(month) then w.(now := now, month := month) else w
  }

  ghost predicate Initial(w: World) {
    && w.payments == [] && w.invoices == map[] && w.numbers == [] && w.subscriptions == []
    && w.redeemed == map[] && w.settled == [] && w.months == [] && IsMonth(w.month)
    && forall c | c in w.coupons :: w.coupons[c].redemptions == 0
  }

  function Run(start: World, steps: seq<Step>): World {
    if steps == [] then start else Next(Run(start, steps[..|steps| - 1]), steps[|steps| - 1])
  }

  predicate IsSettled(w: World, p: Pid) { p < |w.payments| && w.payments[p].status == Succeeded }

  // The step is a cancellation or a refund that hits p while it stands settled.
  predicate Unsettles(w: World, step: Step, p: Pid) {
    IsSettled(w, p) &&
    match step
    case Webhook(reference, ref, report) =>
      Resolve(w, reference, ref) == Some(p) && (report.CancelledByPayer? || report.RefundedOutside?)
    case IssueRefund(q, amount) => q == p && RefundAllowed(w.payments[p], amount)
    case _ => false
  }

  function Unsettled(start: World, steps: seq<Step>, p: Pid): nat {
    if steps == [] then 0
    else
      Unsettled(start, steps[..|steps| - 1], p)
      + if Unsettles(Run(start, steps[..|steps| - 1]), steps[|steps| - 1], p) then 1 else 0
  }

  function Count(ids: seq<Pid>, p: Pid): nat {
    if ids == [] then 0 else Count(ids[..|ids| - 1], p) + if ids[|ids| - 1] == p then 1 else 0
  }

  // Subscription rows that carry this payment's id.
  function Carrying(rows: seq<Subscription>, p: Pid): nat {
    if rows == [] then 0 else Carrying(rows[..|rows| - 1], p) + if rows[|rows| - 1].payment == Some(p) then 1 else 0
  }

  // ---- what every step keeps, payment by payment -------------------------------------------------

  // The books on p: invoiced exactly if ever settled, and never granted more often than settled.
  ghost predicate Books(w: World, p: Pid) {
    && (p in w.invoices <==> Count(w.settled, p) >= 1)
    && Carrying(w.subscriptions, p) <= Count(w.settled, p)
    && (IsSettled(w, p) ==> p in w.invoices)
  }

  // Settlements of p beyond the one it may stand in.
  function Surplus(w: World, p: Pid): int { Count(w.settled, p) - if IsSettled(w, p) then 1 else 0 }

  // A change that never takes p out of SUCCEEDED, and counts each time it goes in.
  ghost predicate Kept(w: World, w': World, p: Pid) {
    && (Books(w, p) ==> Books(w', p))
    && Surplus(w', p) == Surplus(w, p)
    && (IsSettled(w, p) ==> IsSettled(w', p))
  }

  lemma CountOneMore(ids: seq<Pid>, q: Pid, p: Pid)
    ensures Count(ids + [q], p) == Count(ids, p) + if p == q then 1 else 0
  {
    assert (ids + [q])[..|ids|] == ids;
  }

  lemma CarryingOneMore(rows: seq<Subscription>, row: Subscription, p: Pid)
    ensures Carrying(rows + [row], p) == Carrying(rows, p) + if row.payment == Some(p) then 1 else 0
  {
    assert (rows + [row])[..|rows|] == rows;
  }

  lemma {:induction false} CarryingSame(rows: seq<Subscription>, rows': seq<Subscription>, p: Pid)
    requires |rows| == |rows'| && forall i | 0 <= i < |rows| :: rows'[i].payment == rows[i].payment
    ensures Carrying(rows', p) == Carrying(rows, p)
  {
    if rows != [] { CarryingSame(rows[..|rows| - 1], rows'[..|rows'| - 1], p); }
  }

  lemma {:induction false} CarryingUpdated(rows: seq<Subscription>, sid: Sid, row: Subscription, p: Pid)
    requires sid < |rows|
    ensures Carrying(rows[sid := row], p) ==
            Carrying(rows, p) - (if rows[sid].payment == Some(p) then 1 else 0)
            + (if row.payment == Some(p) then 1 else 0)
  {
    var n := |rows| - 1;
    if sid == n {
      assert rows[sid := row][..n] == rows[..n];
    } else {
      CarryingUpdated(rows[..n], sid, row, p);
      assert rows[sid := row][..n] == rows[..n][sid := row];
    }
  }

  // Starting or renewing writes p on at most one row.
  lemma StartCarries(w: World, user: nat, plan: string, coupon: string, payment: Option<Pid>, p: Pid)
    ensures var after := OrElse(Start(w, user, plan, coupon, payment), w);
            && Carrying(after.subscriptions, p) == Carrying(w.subscriptions, p)
                 + (if Start(w, user, plan, coupon, payment).Ok? && payment == Some(p) then 1 else 0)
            && after.payments == w.payments && after.invoices == w.invoices && after.settled == w.settled
  {
    var result := Start(w, user, plan, coupon, payment);
    if result.Ok? {
      var replaced := Replaced(w.subscriptions, user);
      CarryingSame(w.subscriptions, replaced, p);
      CarryingOneMore(replaced, result.value.subscriptions[|replaced|], p);
    }
  }

  lemma RenewCarries(w: World, sid: Sid, payment: Option<Pid>, p: Pid)
    ensures var after := OrElse(Renew(w, sid, payment), w);
            && Carrying(after.subscriptions, p) <= Carrying(w.subscriptions, p) + (if payment == Some(p) then 1 else 0)
            && after.payments == w.payments && after.invoices == w.invoices && after.settled == w.settled
  {
    if sid < |w.subscriptions| {
      var row := w.subscriptions[sid];
      CarryingUpdated(w.subscriptions, sid, Renewed(row, PlanDays(w, row.plan), w.now, payment), p);
    }
  }

  lemma GrantCarries(w: World, q: Pid, p: Pid)
    requires q < |w.payments|
    ensures var w' := Grant(w, q);
            && Carrying(w'.subscriptions, p) <= Carrying(w.subscriptions, p) + (if p == q then 1 else 0)
            && w'.payments == w.payments && w'.invoices == w.invoices && w'.settled == w.settled
  {
    match w.payments[q].purpose
    case NewSubscription(plan, coupon) => StartCarries(w, w.payments[q].user, plan, coupon, Some(q), p);
    case SubscriptionRenewal(Some(sid)) => RenewCarries(w, sid, Some(q), p);
    case _ =>
  }

  lemma IssueChangesOnlyInvoices(w: World, q: Pid)
    ensures IssueInvoice(w, q).Ok? ==>
              var after := IssueInvoice(w, q).value;
              && after.payments == w.payments && after.settled == w.settled && after.subscriptions == w.subscriptions
              && after.invoices.Keys == w.invoices.Keys + {q}
  {
    hide Issue;
  }

  lemma SettleKeeps(w: World, q: Pid, ref: string, p: Pid)
    requires q < |w.payments|
    ensures Settle(w, q, ref).Ok? ==> Kept(w, Settle(w, q, ref).value, p) && IsSettled(Settle(w, q, ref).value, q)
    ensures Settle(w, q, ref).Ok? ==> |Settle(w, q, ref).value.payments| == |w.payments|
  {
    hide IssueInvoice, Grant, Count, Carrying;
    if w.payments[q].status != Succeeded {
      var w1 := MarkSucceeded(w, q, ref);
      IssueChangesOnlyInvoices(w1, q);
      if IssueInvoice(w1, q).Ok? {
        var w2 := IssueInvoice(w1, q).value;
        CountOneMore(w2.settled, q, p);
        GrantCarries(w2.(settled := w2.settled + [q]), q, p);
      }
    }
  }

  lemma PollKeeps(w: World, q: Pid, report: Report, p: Pid)
    requires q < |w.payments|
    ensures Kept(w, OrElse(Poll(w, q, report), w), p)
  {
    hide Settle, Count, Carrying;
    SettleKeeps(w, q, w.payments[q].providerRef, p);
  }

  lemma {:induction false} PollAllKeeps(w: World, ids: seq<Pid>, reports: map<Pid, Report>, k: nat, p: Pid)
    requires k <= |ids| && forall i | 0 <= i < |ids| :: ids[i] < |w.payments|
    ensures Kept(w, PollAll(w, ids, reports, k), p)
  {
    if k > 0 {
      PollAllKeeps(w, ids, reports, k - 1, p);
      if ids[k - 1] in reports { PollKeeps(PollAll(w, ids, reports, k - 1), ids[k - 1], reports[ids[k - 1]], p); }
    }
  }

  // A callback is the only way out, and then only by cancelling or refunding.
  lemma CallbackKeeps(w: World, q: Pid, ref: string, report: Report, p: Pid)
    requires q < |w.payments|
    ensures var w' := OrElse(Callback(w, q, ref, report), w);
            && (Books(w, p) ==> Books(w', p))
            && Surplus(w', p) == Surplus(w, p) +
                 (if p == q && IsSettled(w, p) && (report.CancelledByPayer? || report.RefundedOutside?) then 1 else 0)
  {
    SettleKeeps(w, q, ref, p);
  }

  lemma WebhookKeeps(w: World, reference: Option<Pid>, ref: string, report: Report, p: Pid)
    ensures var step := Webhook(reference, ref, report);
            && (Books(w, p) ==> Books(Next(w, step), p))
            && Surplus(Next(w, step), p) == Surplus(w, p) + if Unsettles(w, step, p) then 1 else 0
  {
    var target := Resolve(w, reference, ref);
    if target.Some? { CallbackKeeps(w, target.value, ref, report, p); }
  }

  lemma SubscriptionStepKeeps(w: World, step: Step, p: Pid)
    requires step.StartFree? || step.RenewBy? || step.CancelBy? || step.ExpireDue?
    ensures Kept(w, Next(w, step), p)
  {
    hide Start, Renew, Count, Carrying;
    match step
    case StartFree(user, plan, coupon) => StartCarries(w, user, plan, coupon, None, p);
    case RenewBy(sid) => RenewCarries(w, sid, None, p);
    case _ => CarryingSame(w.subscriptions, Next(w, step).subscriptions, p);
  }

  lemma StepKeepsBooks(w: World, step: Step, p: Pid)
    ensures Books(w, p) ==> Books(Next(w, step), p)
    ensures Surplus(Next(w, step), p) == Surplus(w, p) + if Unsettles(w, step, p) then 1 else 0
  {
    hide Settle, Start, Renew, Count, Carrying;
    match step
    case Webhook(reference, ref, report) => WebhookKeeps(w, reference, ref, report, p);
    case PollStatus(q, report) => if q < |w.payments| { PollKeeps(w, q, report, p); }
    case Reconcile(reports) =>
      var ids := Batch(Due(w.payments, w.now, 0));
      PollAllKeeps(w, ids, reports, |ids|, p);
    case Create(_, _, _, _) => assert Kept(w, Next(w, step), p);
    case ExpireStale => assert Kept(w, Next(w, step), p);
    case IssueRefund(_, _) =>
    case Later(_, _) => assert Kept(w, Next(w, step), p);
    case _ => SubscriptionStepKeeps(w, step, p);
  }

  // ---- theorems about runs -----------------------------------------------------------------------

  lemma {:induction false} RunKeepsBooks(start: World, steps: seq<Step>, p: Pid)
    requires Initial(start)
    ensures Books(Run(start, steps), p)
    ensures Surplus(Run(start, steps), p) == Unsettled(start, steps, p)
  {
    if steps != [] {
      RunKeepsBooks(start, steps[..|steps| - 1], p);
      StepKeepsBooks(Run(start, steps[..|steps| - 1]), steps[|steps| - 1], p);
    }
  }

  // In every run at all -- duplicates, replays, reorderings, cancellations, refunds -- a payment is
  // settled exactly once more than it was taken out of SUCCEEDED while it stands there, and exactly
  // as often otherwise; it has an invoice exactly if it was ever settled; and no more subscription
  // rows carry its id than it was settled times.
  lemma SettlementsAreAccountedFor(start: World, steps: seq<Step>, p: Pid)
    requires Initial(start)
    ensures var w := Run(start, steps);
            && Count(w.settled, p) == Unsettled(start, steps, p) + (if IsSettled(w, p) then 1 else 0)
            && (p in w.invoices <==> Count(w.settled, p) >= 1)
            && Carrying(w.subscriptions, p) <= Count(w.settled, p)
  {
    RunKeepsBooks(start, steps, p);
  }

  // Success and failure reports, polls, reconciliation and expiry sweeps, in any order and number:
  // everything but a cancellation or refund of p.
  predicate Undisturbed(start: World, steps: seq<Step>, p: Pid) {
    steps == [] ||
    (&& Undisturbed(start, steps[..|steps| - 1], p)
     && !Unsettles(Run(start, steps[..|steps| - 1]), steps[|steps| - 1], p))
  }

  lemma {:induction false} UndisturbedIsNeverUnsettled(start: World, steps: seq<Step>, p: Pid)
    ensures Undisturbed(start, steps, p) <==> Unsettled(start, steps, p) == 0
  {
    if steps != [] { UndisturbedIsNeverUnsettled(start, steps[..|steps| - 1], p); }
  }

  // Then p is settled at most once, for good, with one invoice and at most one subscription row.
  lemma SettledOnceAndForGood(start: World, steps: seq<Step>, n: nat, p: Pid)
    requires Initial(start) && n <= |steps| && Undisturbed(start, steps, p)
    ensures var w := Run(start, steps);
            && Count(w.settled, p) <= 1
            && (IsSettled(w, p) <==> Count(w.settled, p) == 1)
            && (IsSettled(w, p) <==> p in w.invoices)
            && Carrying(w.subscriptions, p) <= 1
    ensures IsSettled(Run(start, steps[..n]), p) ==> IsSettled(Run(start, steps), p)
  {
    UndisturbedIsNeverUnsettled(start, steps, p);
    SettlementsAreAccountedFor(start, steps, p);
    SettledStays(start, steps, n, p);
  }

  lemma {:induction false} SettledStays(start: World, steps: seq<Step>, n: nat, p: Pid)
    requires n <= |steps| && Undisturbed(start, steps, p)
    ensures IsSettled(Run(start, steps[..n]), p) ==> IsSettled(Run(start, steps), p)
    ensures Count(Run(start, steps[..n]).settled, p) <= Count(Run(start, steps).settled, p)
  {
    if n < |steps| {
      var init := steps[..|steps| - 1];
      SettledStays(start, init, n, p);
      assert init[..n] == steps[..n];
      StepKeepsSettled(Run(start, init), steps[|steps| - 1], p);
    } else {
      assert steps[..n] == steps;
    }
  }

  // A settled payment leaves SUCCEEDED in exactly the steps that cancel or refund it.
  lemma StepKeepsSettled(w: World, step: Step, p: Pid)
    ensures IsSettled(w, p) ==> (IsSettled(Next(w, step), p) <==> !Unsettles(w, step, p))
    ensures Count(w.settled, p) <= Count(Next(w, step).settled, p)
  {
    hide Settle, Count, Start, Renew;
    StepKeepsBooks(w, step, p);
    match step
    case Webhook(reference, ref, report) =>
      var target := Resolve(w, reference, ref);
      if target.Some? { SettleKeeps(w, target.value, ref, p); }
    case PollStatus(q, report) => if q < |w.payments| { PollKeeps(w, q, report, p); }
    case Reconcile(reports) =>
      var ids := Batch(Due(w.payments, w.now, 0));
      PollAllKeeps(w, ids, reports, |ids|, p);
    case StartFree(_, _, _) => SubscriptionStepKeeps(w, step, p);
    case RenewBy(_) => SubscriptionStepKeeps(w, step, p);
    case _ =>
  }

  // The price of that exception: a cancellation callback for a settled payment reopens it, and the
  // next success report settles it a second time under the same invoice.
  lemma CancelledPaymentSettlesAgain(w: World, p: Pid)
    requires IsSettled(w, p) && p in w.invoices
    ensures var cancelled := Next(w, Webhook(Some(p), "", CancelledByPayer));
            var again := Next(cancelled, Webhook(Some(p), "", Paid));
            && !IsSettled(cancelled, p) && IsSettled(again, p)
            && Count(again.settled, p) == Count(w.settled, p) + 1
            && again.invoices == w.invoices
  {
    hide Grant, Count, Carrying, Issue;
    var cancelled := Next(w, Webhook(Some(p), "", CancelledByPayer));
    SettleKeeps(cancelled, p, "", p);
    GrantCarries(MarkSucceeded(cancelled, p, "").(settled := cancelled.settled + [p]), p, p);
  }

  // ---- invoice numbers over runs -----------------------------------------------------------------

  ghost predicate Numbered(w: World) {
    && IsMonth(w.month) && (forall m | m in w.months :: IsMonth(m))
    && w.numbers == Table(w.months)
    && (forall p | p in w.invoices :: w.invoices[p] in w.numbers)
    && (forall p, q | p in w.invoices && q in w.invoices && p != q :: w.invoices[p] != w.invoices[q])
  }

  lemma IssueKeepsNumbered(w: World, p: Pid)
    requires Numbered(w)
    ensures IssueInvoice(w, p).Ok? ==> Numbered(IssueInvoice(w, p).value)
  {
    var result := IssueInvoice(w, p);
    if result.Ok? && p !in w.invoices {
      assert (w.months + [w.month])[..|w.months|] == w.months;
      assert forall n | n in w.numbers :: n != NextNumber(w.numbers, w.month);
    }
  }

  // Nothing that Numbered talks about changes.
  ghost predicate SameBooksOfNumbers(w: World, w': World) {
    w'.months == w.months && w'.numbers == w.numbers && w'.invoices == w.invoices && w'.month == w.month
  }

  lemma GrantTouchesNoNumbers(w: World, p: Pid)
    requires p < |w.payments|
    ensures SameBooksOfNumbers(w, Grant(w, p))
  {}

  lemma SettleKeepsNumbered(w: World, p: Pid, ref: string)
    requires Numbered(w) && p < |w.payments|
    ensures Settle(w, p, ref).Ok? ==> Numbered(Settle(w, p, ref).value)
  {
    if w.payments[p].status != Succeeded {
      var w1 := MarkSucceeded(w, p, ref);
      IssueKeepsNumbered(w1, p);
      if IssueInvoice(w1, p).Ok? {
        var w2 := IssueInvoice(w1, p).value;
        GrantTouchesNoNumbers(w2.(settled := w2.settled + [p]), p);
      }
    }
  }

  lemma {:induction false} PollAllKeepsNumbered(w: World, ids: seq<Pid>, reports: map<Pid, Report>, k: nat)
    requires Numbered(w) && k <= |ids| && forall i | 0 <= i < |ids| :: ids[i] < |w.payments|
    ensures Numbered(PollAll(w, ids, reports, k))
  {
    hide Settle, Table;
    if k > 0 {
      PollAllKeepsNumbered(w, ids, reports, k - 1);
      var before, p := PollAll(w, ids, reports, k - 1), ids[k - 1];
      SettleKeepsNumbered(before, p, before.payments[p].providerRef);
    }
  }

  predicate Reports(step: Step) { step.Webhook? || step.PollStatus? || step.Reconcile? }

  lemma OtherStepsTouchNoNumbers(w: World, step: Step)
    requires !Reports(step) && !step.Later?
    ensures SameBooksOfNumbers(w, Next(w, step))
  {
    match step
    case StartFree(user, plan, coupon) => assert SameBooksOfNumbers(w, OrElse(Start(w, user, plan, coupon, None), w));
    case _ =>
  }

  lemma StepKeepsNumbered(w: World, step: Step)
    requires Numbered(w)
    ensures Numbered(Next(w, step))
  {
    hide Settle, Start, Renew, Table;
    match step
    case Webhook(reference, ref, report) =>
      var target := Resolve(w, reference, ref);
      if target.Some? { SettleKeepsNumbered(w, target.value, ref); }
    case PollStatus(p, report) => if p < |w.payments| { SettleKeepsNumbered(w, p, w.payments[p].providerRef); }
    case Reconcile(reports) =>
      var ids := Batch(Due(w.payments, w.now, 0));
      PollAllKeepsNumbered(w, ids, reports, |ids|);
    case Later(_, _) =>
    case _ => OtherStepsTouchNoNumbers(w, step);
  }

  lemma {:induction false} RunKeepsNumbered(start: World, steps: seq<Step>)
    requires Initial(start)
    ensures Numbered(Run(start, steps))
  {
    if steps != [] {
      RunKeepsNumbered(start, steps[..|steps| - 1]);
      StepKeepsNumbered(Run(start, steps[..|steps| - 1]), steps[|steps| - 1]);
    }
  }

  ghost predicate Reachable(w: World) { exists start, steps :: Initial(start) && w == Run(start, steps) }

  lemma ReachableIsInOrder(w: World, p: Pid)
    requires Reachable(w)
    ensures Numbered(w) && Books(w, p)
  {
    hide Run, Numbered, Books, Initial;
    var start, steps :| Initial(start) && w == Run(start, steps);
    RunKeepsNumbered(start, steps);
    RunKeepsBooks(start, steps, p);
  }

  // Whatever has happened, no two payments share an invoice number, and each month's invoices carry
  // the numbers 1, 2, ... in order, without a gap.
  lemma InvoicesAreNumberedInOrder(w: World, month: string)
    requires Reachable(w) && IsMonth(month)
    ensures InMonth(w.numbers, month) == FirstNumbers(month, Issued(Attempts(w.months, month)))
    ensures forall p, q | p in w.invoices && q in w.invoices && p != q :: w.invoices[p] != w.invoices[q]
  {
    hide Reachable;
    ReachableIsInOrder(w, 0);
    MonthIsNumberedWithoutGaps(w.months, month);
  }

  // A payment that was never settled can fail to settle for one reason only: the month's hundred
  // thousand invoice numbers are used up.
  lemma SettlementFailsOnlyInAFullMonth(w: World, p: Pid, ref: string)
    requires Reachable(w) && p < |w.payments| && p !in w.invoices
    ensures Settle(w, p, ref).Err? <==> Attempts(w.months, w.month) >= MONTHLY_CAPACITY
  {
    hide Reachable;
    ReachableIsInOrder(w, p);
    AttemptFailsWhenMonthIsFull(w.months, w.month);
  }

  // ---- what a settlement buys --------------------------------------------------------------------

  // A first settlement of a subscription payment grants access exactly if the plan is still offered
  // and the coupon, if any, can still be redeemed; otherwise the money is taken and nothing starts.
  lemma GrantedExactlyWhenStartable(w: World, p: Pid, ref: string)
    requires p < |w.payments| && !IsSettled(w, p) && w.payments[p].purpose.NewSubscription?
    requires Settle(w, p, ref).Ok? && Carrying(w.subscriptions, p) == 0
    ensures var pay, w' := w.payments[p], Settle(w, p, ref).value;
            && IsSettled(w', p)
            && (Carrying(w'.subscriptions, p) == 1 <==>
                  pay.purpose.plan != "" && Startable(w, pay.user, pay.purpose.plan, pay.purpose.coupon))
  {
    var w1 := IssueInvoice(MarkSucceeded(w, p, ref), p).value;
    var w2 := w1.(settled := w1.settled + [p]);
    var pay := w2.payments[p];
    StartCarries(w2, pay.user, pay.purpose.plan, pay.purpose.coupon, Some(p), p);
  }

  function LiveRows(rows: seq<Subscription>, user: nat): nat {
    if rows == [] then 0
    else LiveRows(rows[..|rows| - 1], user) + if rows[|rows| - 1].user == user && Live(rows[|rows| - 1]) then 1 else 0
  }

  lemma {:induction false} ReplacedHasNoneLive(rows: seq<Subscription>, user: nat)
    ensures LiveRows(Replaced(rows, user), user) == 0
  {
    if rows != [] {
      ReplacedHasNoneLive(rows[..|rows| - 1], user);
      assert Replaced(rows, user)[..|rows| - 1] == Replaced(rows[..|rows| - 1], user);
    }
  }

  lemma {:induction false} LiveRowsUpdated(rows: seq<Subscription>, sid: Sid, row: Subscription, user: nat)
    requires sid < |rows|
    ensures LiveRows(rows[sid := row], user) ==
            LiveRows(rows, user) - (if rows[sid].user == user && Live(rows[sid]) then 1 else 0)
            + (if row.user == user && Live(row) then 1 else 0)
  {
    var n := |rows| - 1;
    if sid == n {
      assert rows[sid := row][..n] == rows[..n];
    } else {
      LiveRowsUpdated(rows[..n], sid, row, user);
      assert rows[sid := row][..n] == rows[..n][sid := row];
    }
  }

  // Starting a plan leaves the member exactly one live row.
  lemma StartLeavesOneLive(w: World, user: nat, plan: string, coupon: string, payment: Option<Pid>)
    requires Start(w, user, plan, coupon, payment).Ok?
    ensures LiveRows(Start(w, user, plan, coupon, payment).value.subscriptions, user) == 1
  {
    var rows := Start(w, user, plan, coupon, payment).value.subscriptions;
    ReplacedHasNoneLive(w.subscriptions, user);
    assert rows[..|rows| - 1] == Replaced(w.subscriptions, user);
  }

  // Renewing does so only if no other row of the member is live: it can revive a replaced one.
  lemma RenewLeavesOneLiveExactlyIfNoOther(w: World, sid: Sid, payment: Option<Pid>)
    requires sid < |w.subscriptions|
    ensures var row, user := w.subscriptions[sid], w.subscriptions[sid].user;
            LiveRows(Renew(w, sid, payment).value.subscriptions, user) == 1
            <==> LiveRows(w.subscriptions, user) == if Live(row) then 1 else 0
  {
    var row := w.subscriptions[sid];
    LiveRowsUpdated(w.subscriptions, sid, Renewed(row, PlanDays(w, row.plan), w.now, payment), row.user);
  }

  // No member redeems a coupon more often than its limit, and no coupon is redeemed more often than
  // its own, over any run.
  ghost predicate CouponsWithinLimits(w: World) {
    && (forall c, u | (c, u) in w.redeemed :: c in w.coupons && w.redeemed[(c, u)] <= w.coupons[c].perUserLimit)
    && (forall c | c in w.coupons ::
          w.coupons[c].maxRedemptions == 0 || w.coupons[c].redemptions <= w.coupons[c].maxRedemptions)
  }

  lemma StartKeepsCoupons(w: World, user: nat, plan: string, coupon: string, payment: Option<Pid>)
    requires CouponsWithinLimits(w)
    ensures CouponsWithinLimits(OrElse(Start(w, user, plan, coupon, payment), w))
  {}

  lemma SettleKeepsCoupons(w: World, p: Pid, ref: string)
    requires CouponsWithinLimits(w) && p < |w.payments|
    ensures Settle(w, p, ref).Ok? ==> CouponsWithinLimits(Settle(w, p, ref).value)
  {
    if w.payments[p].status != Succeeded {
      var w1 := IssueInvoice(MarkSucceeded(w, p, ref), p);
      if w1.Ok? && w.payments[p].purpose.NewSubscription? {
        var w2, pay := w1.value.(settled := w1.value.settled + [p]), w.payments[p];
        StartKeepsCoupons(w2, pay.user, pay.purpose.plan, pay.purpose.coupon, Some(p));
      }
    }
  }

  lemma {:induction false} PollAllKeepsCoupons(w: World, ids: seq<Pid>, reports: map<Pid, Report>, k: nat)
    requires CouponsWithinLimits(w) && k <= |ids| && forall i | 0 <= i < |ids| :: ids[i] < |w.payments|
    ensures CouponsWithinLimits(PollAll(w, ids, reports, k))
  {
    if k > 0 {
      PollAllKeepsCoupons(w, ids, reports, k - 1);
      var before, p := PollAll(w, ids, reports, k - 1), ids[k - 1];
      SettleKeepsCoupons(before, p, before.payments[p].providerRef);
    }
  }

  lemma OtherStepsTouchNoCoupons(w: World, step: Step)
    requires !Reports(step) && !step.StartFree?
    ensures Next(w, step).coupons == w.coupons && Next(w, step).redeemed == w.redeemed
  {}

  lemma StepKeepsCoupons(w: World, step: Step)
    requires CouponsWithinLimits(w)
    ensures CouponsWithinLimits(Next(w, step))
  {
    hide Settle, Start;
    match step
    case Webhook(reference, ref, report) =>
      var target := Resolve(w, reference, ref);
      if target.Some? { SettleKeepsCoupons(w, target.value, ref); }
    case PollStatus(p, report) => if p < |w.payments| { SettleKeepsCoupons(w, p, w.payments[p].providerRef); }
    case Reconcile(reports) =>
      var ids := Batch(Due(w.payments, w.now, 0));
      PollAllKeepsCoupons(w, ids, reports, |ids|);
    case StartFree(user, plan, coupon) => StartKeepsCoupons(w, user, plan, coupon, None);
    case _ => OtherStepsTouchNoCoupons(w, step);
  }

  lemma {:induction false} RunKeepsCouponsWithinLimits(start: World, steps: seq<Step>)
    requires Initial(start)
    ensures CouponsWithinLimits(Run(start, steps))
  {
    if steps != [] {
      RunKeepsCouponsWithinLimits(start, steps[..|steps| - 1]);
      StepKeepsCoupons(Run(start, steps[..|steps| - 1]), steps[|steps| - 1]);
    }
  }
}
