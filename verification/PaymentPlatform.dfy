/** The payment and subscription services over their tables.  Each method is one transaction: when it
    fails, the tables are as they were. */
module PaymentPlatform {
  import opened Wrappers
  import opened InvoiceNumbers
  import opened Payments

  // Rows among the first n that are due to expire.
  function Expiring(rows: seq<Subscription>, now: nat, n: nat): nat
    requires n <= |rows|
  {
    if n == 0 then 0
    else Expiring(rows, now, n - 1) + if rows[n - 1].status != Expired && rows[n - 1].expiresAt < now then 1 else 0
  }

  class Platform {
    var payments: seq<Payment>
    var invoices: map<Pid, string>
    var numbers: seq<string>
    var subscriptions: seq<Subscription>
    var plans: map<string, Plan>
    var coupons: map<string, Coupon>
    var redeemed: map<(string, nat), nat>
    var settled: seq<Pid>
    var months: seq<string>
    var now: nat
    var month: string

    function State(): World
      reads this
    {
      World(payments, invoices, numbers, subscriptions, plans, coupons, redeemed, settled, months, now, month)
    }

    constructor (plans: map<string, Plan>, coupons: map<string, Coupon>, now: nat, month: string)
      requires IsMonth(month) && forall c | c in coupons :: coupons[c].redemptions == 0
      ensures Initial(State())
    {
      payments, invoices, numbers, subscriptions := [], map[], [], [];
      this.plans, this.coupons, redeemed, settled, months := plans, coupons, map[], [], [];
      this.now, this.month := now, month;
    }

    // ---- subscriptions ---------------------------------------------------------------------------

    method RedeemCoupon(code: string, user: nat)
      requires code in coupons
      modifies `coupons, `redeemed
      ensures State() == Redeem(old(State()), code, user)
    {
      var used := Uses(State(), code, user);
      coupons := coupons[code := coupons[code].(redemptions := coupons[code].redemptions + 1)];
      redeemed := redeemed[(code, user) := used + 1];
    }

    // "A member holds one live subscription at a time."
    method ReplaceLive(user: nat)
      modifies `subscriptions
      ensures subscriptions == Replaced(old(subscriptions), user)
    {
      ghost var was := subscriptions;
      var i := 0;
      while i < |subscriptions|
        invariant 0 <= i <= |subscriptions| == |was|
        invariant forall k | 0 <= k < |was| :: subscriptions[k] == if k < i then Replaced(was, user)[k] else was[k]
      {
        if subscriptions[i].user == user && Live(subscriptions[i]) {
          subscriptions := subscriptions[i := subscriptions[i].(status := SubscriptionCancelled)];
        }
        i := i + 1;
      }
    }

    method StartSubscription(user: nat, plan: string, coupon: string, payment: Option<Pid>)
      returns (r: Result<Sid, Error>)
      modifies `subscriptions, `coupons, `redeemed
      ensures State() == OrElse(Start(old(State()), user, plan, coupon, payment), old(State()))
      ensures r.Ok? <==> Startable(old(State()), user, plan, coupon)
      ensures r.Ok? ==> r.value == |old(subscriptions)|
    {
      if plan !in plans || !plans[plan].active {
        return Err(PlanNotFound);
      }
      if coupon != "" && !Redeemable(State(), coupon, user, plan) {
        return Err(CouponInvalid);   // the cancelled rows of this transaction are rolled back
      }
      ReplaceLive(user);
      var bonus := 0;
      if coupon != "" {
        bonus := coupons[coupon].freeDays;
        RedeemCoupon(coupon, user);
      }
      var expires := now + (plans[plan].durationDays + bonus) * DAY;
      r := Ok(|subscriptions|);
      subscriptions := subscriptions + [Subscription(user, plan, Active, expires, payment, true)];
    }

    method RenewSubscription(sid: Sid, payment: Option<Pid>) returns (r: Result<nat, Error>)
      modifies `subscriptions
      ensures State() == OrElse(Renew(old(State()), sid, payment), old(State()))
      ensures r.Ok? <==> sid < |old(subscriptions)|
      ensures r.Ok? ==> r.value == subscriptions[sid].expiresAt >= now
    {
      if sid >= |subscriptions| {
        return Err(SubscriptionNotFound);
      }
      var row := subscriptions[sid];
      var base := if row.expiresAt > now then row.expiresAt else now;
      row := row.(expiresAt := base + PlanDays(State(), row.plan) * DAY, status := Active);
      if payment.Some? {
        row := row.(payment := payment);
      }
      subscriptions := subscriptions[sid := row];
      r := Ok(row.expiresAt);
    }

    method CancelSubscription(user: nat) returns (found: bool)
      modifies `subscriptions
      ensures State() == Stopped(old(State()), user)
      ensures found <==> CurrentRow(old(State()), user, |old(subscriptions)|).Some?
    {
      var i := |subscriptions|;
      while i > 0
        invariant 0 <= i <= |subscriptions| && State() == old(State())
        invariant CurrentRow(State(), user, |subscriptions|) == CurrentRow(State(), user, i)
      {
        i := i - 1;
        var row := subscriptions[i];
        if row.user == user && Live(row) && row.expiresAt > now {
          subscriptions := subscriptions[i := row.(status := SubscriptionCancelled, autoRenew := false)];
          return true;
        }
      }
      found := false;
    }

    method ExpireDueSubscriptions() returns (count: nat)
      modifies `subscriptions
      ensures State() == Next(old(State()), ExpireDue)
      ensures count == Expiring(old(subscriptions), now, |old(subscriptions)|)
    {
      hide Next;
      ghost var was := subscriptions;
      var i := 0;
      count := 0;
      while i < |subscriptions|
        invariant 0 <= i <= |subscriptions| == |was|
        invariant forall k | 0 <= k < |was| :: subscriptions[k] == if k < i then ExpiredRow(was[k], now) else was[k]
        invariant count == Expiring(was, now, i)
      {
        if subscriptions[i].status != Expired && subscriptions[i].expiresAt < now {
          subscriptions := subscriptions[i := subscriptions[i].(status := Expired)];
          count := count + 1;
        }
        i := i + 1;
      }
      ExpireDueIs(old(State()), subscriptions);
    }

    static lemma ExpireDueIs(w: World, rows: seq<Subscription>)
      requires |rows| == |w.subscriptions|
      requires forall k | 0 <= k < |rows| :: rows[k] == ExpiredRow(w.subscriptions[k], w.now)
      ensures Next(w, ExpireDue) == w.(subscriptions := rows)
    {
      assert rows
          == seq(|w.subscriptions|, i requires 0 <= i < |w.subscriptions| => ExpiredRow(w.subscriptions[i], w.now));
    }

    // ---- payments --------------------------------------------------------------------------------

    // The subscriptions module's handler of PAYMENT_SUCCEEDED, as the event bus runs it.
    method GrantAccess(p: Pid)
      requires p < |payments|
      modifies `subscriptions, `coupons, `redeemed
      ensures State() == Grant(old(State()), p)
    {
      hide Start, Renew;
      var pay := payments[p];
      match pay.purpose
      case NewSubscription(plan, coupon) =>
        if plan != "" {
          var _ := StartSubscription(pay.user, plan, coupon, Some(p));
        }
      case SubscriptionRenewal(Some(sid)) =>
        var _ := RenewSubscription(sid, Some(p));
      case _ =>
    }

    method CreateInvoice(p: Pid) returns (r: Result<string, Error>)
      modifies `numbers, `invoices, `months
      ensures State() == OrElse(IssueInvoice(old(State()), p), old(State()))
      ensures r.Ok? <==> IssueInvoice(old(State()), p).Ok?
      ensures r.Ok? ==> p in invoices && r.value == invoices[p]
    {
      hide NextNumber;
      if p in invoices {
        return Ok(invoices[p]);
      }
      var number := NextNumber(numbers, month);
      if number in numbers {
        return Err(InvoiceNumberTaken);
      }
      numbers, invoices, months := numbers + [number], invoices[p := number], months + [month];
      r := Ok(number);
    }

    method SettlePayment(p: Pid, ref: string) returns (r: Result<bool, Error>)
      requires p < |payments|
      modifies this
      ensures State() == OrElse(Settle(old(State()), p, ref), old(State()))
      ensures r.Ok? <==> Settle(old(State()), p, ref).Ok?
      ensures r.Ok? ==> r.value == !IsSettled(old(State()), p)
    {
      hide IssueInvoice, Grant;
      if payments[p].status == Succeeded {
        return Ok(false);
      }
      var was := payments;
      var pay := payments[p];
      payments := payments[p := pay.(status := Succeeded, providerRef := if ref != "" then ref else pay.providerRef)];
      IssueChangesOnlyInvoices(State(), p);
      var invoice := CreateInvoice(p);
      if invoice.Err? {
        payments := was;
        return Err(invoice.error);
      }
      settled := settled + [p];
      GrantAccess(p);
      r := Ok(true);
    }

    method FailPayment(p: Pid)
      requires p < |payments|
      modifies `payments
      ensures State() == Fail(old(State()), p)
    {
      if payments[p].status == Succeeded {
        return;
      }
      payments := payments[p := payments[p].(status := Failed)];
    }

    method Refund(p: Pid, amount: nat)
      requires p < |payments|
      modifies `payments
      ensures State() == ApplyRefund(old(State()), p, amount)
    {
      var pay := payments[p];
      pay := pay.(refunded := pay.refunded + amount);
      pay := pay.(status := if pay.refunded >= pay.amount then Refunded else PartiallyRefunded);
      payments := payments[p := pay];
    }

    method IssueRefundFor(p: Pid, amount: nat) returns (ok: bool)
      requires p < |payments|
      modifies `payments
      ensures ok <==> RefundAllowed(old(payments)[p], amount)
      ensures State() == if ok then ApplyRefund(old(State()), p, amount) else old(State())
      ensures ok ==> payments[p].refunded <= payments[p].amount
    {
      var pay := payments[p];
      var refundable := if pay.refunded < pay.amount then pay.amount - pay.refunded else 0;
      if amount == 0 || amount > refundable {
        return false;
      }
      if pay.status != Succeeded {
        return false;
      }
      Refund(p, amount);
      ok := true;
    }

    method PollPayment(p: Pid, report: Report)
      requires p < |payments|
      modifies this
      ensures State() == OrElse(Poll(old(State()), p, report), old(State()))
    {
      hide Settle, Fail;
      var ref := payments[p].providerRef;
      if ref == "" {
        return;
      }
      match report
      case Paid => var _ := SettlePayment(p, ref);
      case Declined => FailPayment(p);
      case _ =>
    }

    method FindByProviderRef(ref: string) returns (r: Option<Pid>)
      ensures r == ByProviderRef(payments, ref, |payments|)
    {
      var i := |payments|;
      while i > 0
        invariant 0 <= i <= |payments|
        invariant ByProviderRef(payments, ref, |payments|) == ByProviderRef(payments, ref, i)
      {
        i := i - 1;
        if payments[i].providerRef == ref {
          return Some(i);
        }
      }
      r := None;
    }

    method ApplyWebhook(reference: Option<Pid>, ref: string, report: Report) returns (handled: bool)
      modifies this
      ensures State() == Next(old(State()), Webhook(reference, ref, report))
      ensures handled ==> Resolve(old(State()), reference, ref).Some?
    {
      hide Settle, Fail, ApplyRefund;
      var target: Option<Pid> := None;
      if reference.Some? && reference.value < |payments| {
        target := reference;
      } else if ref != "" {
        target := FindByProviderRef(ref);
      }
      if target.None? {
        return false;
      }
      var p := target.value;
      handled := true;
      match report
      case Paid =>
        var settlement := SettlePayment(p, ref);
        handled := settlement.Ok?;
      case Declined => FailPayment(p);
      case CancelledByPayer => payments := payments[p := payments[p].(status := Cancelled)];
      case RefundedOutside(amount) => Refund(p, if amount == 0 then payments[p].amount else amount);
      case NothingNew =>
    }

    // The sweep takes the newest due payments first, at most a batch of them.
    method SelectDue() returns (ids: seq<Pid>)
      ensures ids == Batch(Due(payments, now, 0))
    {
      var i := |payments|;
      ids := [];
      while i > 0
        invariant 0 <= i <= |payments|
        invariant ids == Due(payments, now, i)
      {
        i := i - 1;
        if DueForReconciliation(payments[i], now) {
          ids := ids + [i];
        }
      }
      ids := Batch(ids);
    }

    method ReconcileOpenPayments(reports: map<Pid, Report>)
      modifies this
      ensures State() == Next(old(State()), Reconcile(reports))
    {
      hide Poll;
      var ids := SelectDue();
      ghost var was := State();
      var k := 0;
      while k < |ids|
        invariant 0 <= k <= |ids| && |payments| == |was.payments|
        invariant State() == PollAll(was, ids, reports, k)
      {
        if ids[k] in reports {
          PollKeepsTable(State(), ids[k], reports[ids[k]]);
          PollPayment(ids[k], reports[ids[k]]);
        }
        k := k + 1;
      }
    }

    method ExpireStalePayments()
      modifies `payments
      ensures State() == Next(old(State()), ExpireStale)
    {
      payments := seq(|payments|, i requires 0 <= i < |payments| reads this => Stale(payments[i], now));
    }
  }
}
