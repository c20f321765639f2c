/** What starts, extends, stops and expires a subscription, and what a settled payment buys. */
module SubscriptionRules {
  import opened Wrappers
  import opened Payments

  // ---- starting ----------------------------------------------------------------------------------------

  // The coupon exists, is switched on and inside its dates, covers the plan, and neither its own uses nor
  // the member's are used up.
  ghost predicate Honoured(w: World, code: string, user: nat, plan: string) {
    && code in w.coupons
    && var c := w.coupons[code];
       && c.active && c.validFrom <= w.now && (c.validUntil == None || w.now <= c.validUntil.value)
       && (c.maxRedemptions > 0 ==> c.redemptions < c.maxRedemptions)
       && (c.plans != {} ==> plan in c.plans)
       && c.perUserLimit > (if (code, user) in w.redeemed then w.redeemed[(code, user)] else 0)
  }

  ghost predicate Offered(w: World, user: nat, plan: string, coupon: string) {
    plan in w.plans && w.plans[plan].active && (coupon == "" || Honoured(w, coupon, user, plan))
  }

  // Every row is as it was, except that the member's live ones are cancelled.
  ghost predicate OnlyCancelled(rows: seq<Subscription>, after: seq<Subscription>, user: nat) {
    && |rows| <= |after|
    && forall i | 0 <= i < |rows| ::
         after[i] == if rows[i].user == user && rows[i].status in {Active, Trialing}
                     then rows[i].(status := SubscriptionCancelled) else rows[i]
  }

  // The one new row runs from now for the plan's days and the coupon's free ones.
  ghost predicate Opened(w: World, v: World, user: nat, plan: string, coupon: string, payment: Option<Pid>) {
    && plan in w.plans && (coupon != "" ==> coupon in w.coupons)
    && OnlyCancelled(w.subscriptions, v.subscriptions, user)
    && |v.subscriptions| == |w.subscriptions| + 1
    && Used(w, v, user, coupon)
    && var days := w.plans[plan].durationDays + if coupon == "" then 0 else w.coupons[coupon].freeDays;
       v.subscriptions[|w.subscriptions|] == Subscription(user, plan, Active, w.now + days * 86400, payment, true)
  }

  // The coupon, if there is one, has been used once more, by this member.
  ghost predicate Used(w: World, v: World, user: nat, coupon: string) {
    if coupon == "" then v.coupons == w.coupons && v.redeemed == w.redeemed
    else
      && coupon in w.coupons && (coupon, user) in v.redeemed
      && v.coupons == w.coupons[coupon := w.coupons[coupon].(redemptions := w.coupons[coupon].redemptions + 1)]
      && v.redeemed == w.redeemed[(coupon, user) := v.redeemed[(coupon, user)]]
      && v.redeemed[(coupon, user)] == 1 + if (coupon, user) in w.redeemed then w.redeemed[(coupon, user)] else 0
  }

  ghost predicate NothingBought(w: World, v: World) {
    v.subscriptions == w.subscriptions && v.coupons == w.coupons && v.redeemed == w.redeemed
  }

  lemma OfferedIsStartable(w: World, user: nat, plan: string, coupon: string)
    ensures Offered(w, user, plan, coupon) <==> Startable(w, user, plan, coupon)
  {}

  lemma ReplacedOnlyCancels(rows: seq<Subscription>, row: Subscription, user: nat)
    ensures OnlyCancelled(rows, Replaced(rows, user) + [row], user)
  {}

  lemma StartOpens(w: World, user: nat, plan: string, coupon: string, payment: Option<Pid>)
    ensures var r := Start(w, user, plan, coupon, payment);
            if Offered(w, user, plan, coupon) then r.Ok? && Opened(w, r.value, user, plan, coupon, payment)
            else if plan in w.plans && w.plans[plan].active then r == Err(CouponInvalid) else r == Err(PlanNotFound)
  {
    hide Offered, CouponOk, Replaced, OnlyCancelled;
    OfferedIsStartable(w, user, plan, coupon);
    if Startable(w, user, plan, coupon) {
      var v := Start(w, user, plan, coupon, payment).value;
      ReplacedOnlyCancels(w.subscriptions, v.subscriptions[|w.subscriptions|], user);
    }
  }

  // A free start opens a row exactly if the plan is offered and the coupon honoured; else nothing changes.
  lemma FreeStartIsExact(w: World, user: nat, plan: string, coupon: string)
    ensures var v := Next(w, StartFree(user, plan, coupon));
            if Offered(w, user, plan, coupon) then Opened(w, v, user, plan, coupon, None) else v == w
  {
    hide Start, Offered, Opened;
    StartOpens(w, user, plan, coupon, None);
  }

  // ---- extending ---------------------------------------------------------------------------------------

  // The row runs on from its end, or from now if that is past, for the days of its plan; it is active, and
  // carries the payment that paid for it.
  ghost predicate Extended(w: World, v: World, sid: Sid, payment: Option<Pid>) {
    && sid < |w.subscriptions| == |v.subscriptions|
    && v.coupons == w.coupons && v.redeemed == w.redeemed
    && (forall i | 0 <= i < |w.subscriptions| && i != sid :: v.subscriptions[i] == w.subscriptions[i])
    && var before, after := w.subscriptions[sid], v.subscriptions[sid];
       && after.user == before.user && after.plan == before.plan && after.autoRenew == before.autoRenew
       && after.status == Active && after.payment == (if payment == None then before.payment else payment)
       && Runs(after.expiresAt, before.expiresAt, w.now,
               if before.plan in w.plans then w.plans[before.plan].durationDays else 0)
  }

  ghost predicate Runs(until: nat, from: nat, now: nat, days: nat) {
    && until >= from + days * 86400 && until >= now + days * 86400
    && (until == from + days * 86400 || until == now + days * 86400)
  }

  lemma RenewExtends(w: World, sid: Sid, payment: Option<Pid>)
    ensures var r := Renew(w, sid, payment);
            if sid < |w.subscriptions| then r.Ok? && Extended(w, r.value, sid, payment)
            else r == Err(SubscriptionNotFound)
  {}

  // A renewal extends the row it names, and no other.
  lemma RenewalIsExact(w: World, sid: Sid)
    ensures var v := Next(w, RenewBy(sid));
            if sid < |w.subscriptions| then Extended(w, v, sid, None) else v == w
  {
    hide Renew, Extended;
    RenewExtends(w, sid, None);
  }

  // ---- what a settled payment buys ---------------------------------------------------------------------

  // A new subscription if its plan is offered and its coupon honoured; an extension of the row the payment
  // names; and nothing otherwise.
  ghost predicate Bought(w: World, v: World, p: Pid) {
    && p < |w.payments|
    && var pay := w.payments[p];
       match pay.purpose
       case NewSubscription(plan, coupon) =>
         if plan != "" && Offered(w, pay.user, plan, coupon) then Opened(w, v, pay.user, plan, coupon, Some(p))
         else NothingBought(w, v)
       case SubscriptionRenewal(Some(sid)) =>
         if sid < |w.subscriptions| then Extended(w, v, sid, Some(p)) else NothingBought(w, v)
       case _ => NothingBought(w, v)
  }

  lemma GrantBuys(w: World, p: Pid)
    requires p < |w.payments|
    ensures Bought(w, Grant(w, p), p)
  {
    hide Start, Renew, Offered, Opened, Extended;
    match w.payments[p].purpose
    case NewSubscription(plan, coupon) => StartOpens(w, w.payments[p].user, plan, coupon, Some(p));
    case SubscriptionRenewal(Some(sid)) => RenewExtends(w, sid, Some(p));
    case _ =>
  }

  // ---- stopping and expiring ---------------------------------------------------------------------------

  ghost predicate Stands(row: Subscription, user: nat, now: nat) {
    row.user == user && row.status in {Active, Trialing} && now < row.expiresAt
  }

  // The newest row that is live and unexpired.
  ghost predicate IsTheCurrent(w: World, user: nat, sid: Sid) {
    && sid < |w.subscriptions| && Stands(w.subscriptions[sid], user, w.now)
    && forall i | sid < i < |w.subscriptions| :: !Stands(w.subscriptions[i], user, w.now)
  }

  lemma {:induction false} CurrentRowIsTheNewest(w: World, user: nat, n: nat)
    requires n <= |w.subscriptions|
    ensures match CurrentRow(w, user, n)
            case Some(sid) =>
              && Stands(w.subscriptions[sid], user, w.now)
              && (forall i | sid < i < n :: !Stands(w.subscriptions[i], user, w.now))
            case None => forall i | 0 <= i < n :: !Stands(w.subscriptions[i], user, w.now)
  {
    if n > 0 { CurrentRowIsTheNewest(w, user, n - 1); }
  }

  // Cancelling stops the member's newest live, unexpired row and its renewal; the time paid for stays.
  lemma CancellingStopsTheCurrentRow(w: World, user: nat, sid: Sid)
    ensures var v := Next(w, CancelBy(user));
            && (IsTheCurrent(w, user, sid) ==>
                  v == w.(subscriptions := w.subscriptions[sid :=
                         w.subscriptions[sid].(status := SubscriptionCancelled, autoRenew := false)]))
            && (v != w ==> exists s: Sid :: IsTheCurrent(w, user, s))
  {
    hide CurrentRow, Stands;
    CurrentRowIsTheNewest(w, user, |w.subscriptions|);
    var current := CurrentRow(w, user, |w.subscriptions|);
    if current.Some? { assert IsTheCurrent(w, user, current.value); }
  }

  // The expiry sweeps: a subscription past its end expires, an open payment past its window is cancelled.
  lemma SweepsAreExact(w: World)
    ensures var v := Next(w, ExpireDue);
            && v == w.(subscriptions := v.subscriptions) && |v.subscriptions| == |w.subscriptions|
            && forall i | 0 <= i < |w.subscriptions| ::
                 v.subscriptions[i] == w.subscriptions[i].(status :=
                   if w.subscriptions[i].expiresAt < w.now then Expired else w.subscriptions[i].status)
    ensures var v := Next(w, ExpireStale);
            && v == w.(payments := v.payments) && |v.payments| == |w.payments|
            && forall p | 0 <= p < |w.payments| ::
                 v.payments[p] == w.payments[p].(status :=
                   if w.payments[p].status in {Pending, Processing} && w.payments[p].expiresAt < w.now
                   then Cancelled else w.payments[p].status)
  {}

  // A new payment is processed for two hours; one of no amount is not taken.
  lemma CreatingIsExact(w: World, user: nat, purpose: Purpose, amount: nat, ref: string)
    ensures var v := Next(w, Create(user, purpose, amount, ref));
            if amount == 0 then v == w
            else
              && v == w.(payments := v.payments) && |v.payments| == |w.payments| + 1
              && v.payments[..|w.payments|] == w.payments
              && v.payments[|w.payments|] == Payment(user, purpose, amount, 0, Processing, ref, w.now, w.now + 7200)
  {}
}
