/** What the reports of a payment provider, the sweeps and the members' own actions do to payments and
    subscriptions, call by call. */
module Settlement {
  import opened Wrappers
  import opened InvoiceNumbers
  import opened Payments
  import opened SubscriptionRules

  // ---- which payment a report is about ---------------------------------------------------------------

  // Ours by reference, or else the newest with the provider's own reference.
  ghost predicate Names(w: World, reference: Option<Pid>, ref: string, p: Pid) {
    && p < |w.payments|
    && (reference == Some(p)
        || (&& (reference.None? || reference.value >= |w.payments|)
            && ref != "" && w.payments[p].providerRef == ref
            && forall i | p < i < |w.payments| :: w.payments[i].providerRef != ref))
  }

  lemma NamedIsResolved(w: World, reference: Option<Pid>, ref: string, p: Pid)
    ensures Names(w, reference, ref, p) <==> Resolve(w, reference, ref) == Some(p)
  {}

  // A report about no payment of ours changes nothing.
  lemma OrphansChangeNothing(w: World, reference: Option<Pid>, ref: string, report: Report)
    requires forall p: Pid :: !Names(w, reference, ref, p)
    ensures Next(w, Webhook(reference, ref, report)) == w
  {
    var r := Resolve(w, reference, ref);
    if r.Some? { NamedIsResolved(w, reference, ref, r.value); }
  }

  // ---- settling ----------------------------------------------------------------------------------------

  // The month has no invoice number left.
  predicate MonthIsFull(w: World) { Attempts(w.months, w.month) >= MONTHLY_CAPACITY }

  // Payment p has just been settled: it is marked, invoiced, announced once more, and nothing else about
  // the payments changed.
  ghost predicate JustSettled(w: World, v: World, p: Pid) {
    && p < |w.payments| == |v.payments|
    && v.payments[p] == w.payments[p].(status := Succeeded, providerRef := v.payments[p].providerRef)
    && p in v.invoices && (p in w.invoices ==> v.invoices == w.invoices)
    && (p !in w.invoices ==> v.invoices == w.invoices[p := NextNumber(w.numbers, w.month)])
    && v.months == w.months + (if p in w.invoices then [] else [w.month])
    && v.now == w.now && v.month == w.month
    && v.settled == w.settled + [p]
    && forall q | 0 <= q < |w.payments| && q != p :: v.payments[q] == w.payments[q]
  }

  lemma SettlingSettles(w: World, p: Pid, ref: string)
    requires p < |w.payments| && w.payments[p].status != Succeeded
    requires Issue(w.numbers, w.month).Err? <==> MonthIsFull(w)
    ensures if p !in w.invoices && MonthIsFull(w) then Settle(w, p, ref).Err?
            else
              && Settle(w, p, ref).Ok?
              && JustSettled(w, Settle(w, p, ref).value, p) && Bought(w, Settle(w, p, ref).value, p)
              && Settle(w, p, ref).value.payments[p].providerRef
                 == (if ref == "" then w.payments[p].providerRef else ref)
  {
    hide Issue, NextNumber, MonthIsFull, Grant, Bought;
    var marked := MarkSucceeded(w, p, ref);
    if Settle(w, p, ref).Ok? {
      var invoiced := IssueInvoice(marked, p).value;
      var due := invoiced.(settled := invoiced.settled + [p]);
      GrantTouchesOnlySubscriptions(due, p);
      GrantBuys(due, p);
      BoughtAlike(w, due, Grant(due, p), p);
    }
  }

  // What is bought does not depend on the payments and the invoices.
  lemma BoughtAlike(w: World, due: World, v: World, p: Pid)
    requires p < |w.payments| && due == w.(payments := due.payments, invoices := due.invoices, numbers := due.numbers,
                                           months := due.months, settled := due.settled)
    requires p < |due.payments| && due.payments[p].purpose == w.payments[p].purpose
    requires due.payments[p].user == w.payments[p].user
    ensures Bought(due, v, p) ==> Bought(w, v, p)
  {}

  lemma GrantTouchesOnlySubscriptions(w: World, p: Pid)
    requires p < |w.payments|
    ensures var v := Grant(w, p);
            && v.payments == w.payments && v.invoices == w.invoices && v.settled == w.settled
            && v.numbers == w.numbers && v.months == w.months && v.now == w.now && v.month == w.month
  {
    hide Startable, Redeemable, Replaced, Renewed;
  }

  lemma IssueFailsWhenFull(w: World)
    requires Numbered(w)
    ensures Issue(w.numbers, w.month).Err? <==> MonthIsFull(w)
  {
    hide Issue;
    AttemptFailsWhenMonthIsFull(w.months, w.month);
  }

  // A payment reported paid is settled, whoever it was named by and whatever had happened to it before,
  // unless it needs an invoice in a full month; then the report changes nothing.
  lemma PaidReportSettles(w: World, reference: Option<Pid>, ref: string, p: Pid)
    requires Reachable(w) && Names(w, reference, ref, p) && w.payments[p].status != Succeeded
    ensures var v := Next(w, Webhook(reference, ref, Paid));
            if p !in w.invoices && MonthIsFull(w) then v == w
            else JustSettled(w, v, p) && Bought(w, v, p) && (ref != "" ==> v.payments[p].providerRef == ref)
  {
    hide Reachable, Numbered, Books, Settle, JustSettled, Bought, MonthIsFull, Resolve, Names, Issue;
    ReachableIsInOrder(w, p);
    IssueFailsWhenFull(w);
    NamedIsResolved(w, reference, ref, p);
    NamedIsAPayment(w, reference, ref, p);
    SettlingSettles(w, p, ref);
  }

  lemma NamedIsAPayment(w: World, reference: Option<Pid>, ref: string, p: Pid)
    ensures Names(w, reference, ref, p) ==> p < |w.payments|
  {}

  // A poll does the same for a payment the provider knows, and nothing for one it does not.
  lemma PaidPollSettles(w: World, p: Pid)
    requires Reachable(w) && p < |w.payments| && w.payments[p].status != Succeeded
    ensures var v, ref := Next(w, PollStatus(p, Paid)), w.payments[p].providerRef;
            if ref == "" || (p !in w.invoices && MonthIsFull(w)) then v == w
            else JustSettled(w, v, p) && Bought(w, v, p) && v.payments[p].providerRef == ref
  {
    hide Reachable, Numbered, Books, Settle, JustSettled, Bought, MonthIsFull, Issue;
    ReachableIsInOrder(w, p);
    IssueFailsWhenFull(w);
    SettlingSettles(w, p, w.payments[p].providerRef);
  }

  // ---- the other reports -------------------------------------------------------------------------------

  // Only payment p changed, and it reads like this now.
  ghost predicate OnlyNow(w: World, v: World, p: Pid, row: Payment) {
    p < |w.payments| && v == w.(payments := w.payments[p := row])
  }

  // A declined payment is failed unless it had succeeded; a cancelled one is cancelled whatever it was; a
  // refund made outside adds up, all of it where no amount is given; and a success repeated is ignored.
  lemma OtherReports(w: World, reference: Option<Pid>, ref: string, p: Pid, amount: nat)
    requires Names(w, reference, ref, p)
    ensures var pay := w.payments[p];
            var back := if amount == 0 then pay.amount else amount;
            && (pay.status != Succeeded ==>
                  OnlyNow(w, Next(w, Webhook(reference, ref, Declined)), p, pay.(status := Failed)))
            && (pay.status == Succeeded ==> Next(w, Webhook(reference, ref, Declined)) == w)
            && (pay.status == Succeeded ==> Next(w, Webhook(reference, ref, Paid)) == w)
            && OnlyNow(w, Next(w, Webhook(reference, ref, CancelledByPayer)), p, pay.(status := Cancelled))
            && OnlyNow(w, Next(w, Webhook(reference, ref, RefundedOutside(amount))), p,
                       pay.(refunded := pay.refunded + back,
                            status := if pay.refunded + back < pay.amount then PartiallyRefunded else Refunded))
            && Next(w, Webhook(reference, ref, NothingNew)) == w
  {
    hide Resolve, Names, Grant, IssueInvoice;
    NamedIsResolved(w, reference, ref, p);
    NamedIsAPayment(w, reference, ref, p);
  }

  lemma OtherPolls(w: World, p: Pid, report: Report)
    requires p < |w.payments| && report != Paid
    ensures var v, pay := Next(w, PollStatus(p, report)), w.payments[p];
            if report == Declined && pay.providerRef != "" && pay.status != Succeeded
            then OnlyNow(w, v, p, pay.(status := Failed)) else v == w
  {}

  // A refund is issued exactly for a positive amount not above what is left of a succeeded payment.
  lemma RefundsAreIssuedExactlyWithinTheRest(w: World, p: Pid, amount: nat)
    requires p < |w.payments|
    ensures var v, pay := Next(w, IssueRefund(p, amount)), w.payments[p];
            if pay.status == Succeeded && 1 <= amount && amount + pay.refunded <= pay.amount
            then OnlyNow(w, v, p, pay.(refunded := pay.refunded + amount,
                                       status := if pay.refunded + amount == pay.amount then Refunded
                                                 else PartiallyRefunded))
            else v == w
  {}

  // ---- sweeps ------------------------------------------------------------------------------------------

  // Open, older than ten minutes and known to the provider.
  predicate Waits(p: Payment, now: nat) {
    (p.status == Pending || p.status == Processing) && p.createdAt + 600 < now && p.providerRef != ""
  }

  // How many payments from the n-th on wait.
  function Waiting(payments: seq<Payment>, now: nat, n: nat): nat
    decreases |payments| - n
  {
    if n >= |payments| then 0 else Waiting(payments, now, n + 1) + if Waits(payments[n], now) then 1 else 0
  }

  lemma {:induction false} DueCounts(payments: seq<Payment>, now: nat, n: nat)
    ensures |Due(payments, now, n)| == Waiting(payments, now, n)
    decreases |payments| - n
  {
    if n < |payments| { DueCounts(payments, now, n + 1); }
  }

  lemma {:induction false} DueHolds(payments: seq<Payment>, now: nat, n: nat, i: nat)
    requires i < |Due(payments, now, n)|
    ensures var p := Due(payments, now, n)[i];
            n <= p < |payments| && Waits(payments[p], now) && Waiting(payments, now, p + 1) == i
    decreases |payments| - n
  {
    if i < |Due(payments, now, n + 1)| { DueHolds(payments, now, n + 1, i); } else { DueCounts(payments, now, n + 1); }
  }

  lemma {:induction false} DueFinds(payments: seq<Payment>, now: nat, n: nat, p: Pid)
    requires n <= p < |payments| && Waits(payments[p], now)
    ensures var i := Waiting(payments, now, p + 1);
            i < |Due(payments, now, n)| && Due(payments, now, n)[i] == p
    decreases p - n
  {
    if n < p { DueFinds(payments, now, n + 1, p); } else { DueCounts(payments, now, n + 1); }
  }

  // Among the two hundred newest payments that wait.
  predicate Picked(w: World, p: Pid) {
    p < |w.payments| && Waits(w.payments[p], w.now) && Waiting(w.payments, w.now, p + 1) < 200
  }

  function Batched(w: World): (ids: seq<Pid>)
    ensures forall i | 0 <= i < |ids| :: ids[i] < |w.payments|
  {
    Batch(Due(w.payments, w.now, 0))
  }

  // The reconciliation takes these, newest first.
  lemma BatchHolds(w: World, i: nat)
    requires i < |Batched(w)|
    ensures Picked(w, Batched(w)[i]) && Waiting(w.payments, w.now, Batched(w)[i] + 1) == i
  {
    DueHolds(w.payments, w.now, 0, i);
  }

  lemma BatchFinds(w: World, p: Pid)
    requires Picked(w, p)
    ensures var i := Waiting(w.payments, w.now, p + 1); i < |Batched(w)| && Batched(w)[i] == p
  {
    DueFinds(w.payments, w.now, 0, p);
  }

  // Payments from the n-th on that wait, are reported paid, and have no invoice yet.
  function Ahead(w: World, reports: map<Pid, Report>, n: nat): nat
    decreases |w.payments| - n
  {
    if n >= |w.payments| then 0
    else
      Ahead(w, reports, n + 1)
      + if Waits(w.payments[n], w.now) && n in reports && reports[n] == Paid && n !in w.invoices then 1 else 0
  }

  // The state when the sweep comes to the k-th payment of its batch.
  function Before(w: World, reports: map<Pid, Report>, k: nat): (r: World)
    requires k <= |Batched(w)|
    ensures |r.payments| == |w.payments|
  {
    PollAll(w, Batched(w), reports, k)
  }

  // Payment p as the poll of another payment leaves it.
  ghost predicate Spared(w: World, v: World, p: Pid) {
    && |v.payments| == |w.payments| && (p < |w.payments| ==> v.payments[p] == w.payments[p])
    && (p in v.invoices <==> p in w.invoices) && Count(v.settled, p) == Count(w.settled, p)
  }

  lemma PolledSpares(w: World, q: Pid, report: Report, p: Pid)
    requires Numbered(w) && q < |w.payments| && p != q
    ensures var v := OrElse(Poll(w, q, report), w); Spared(w, v, p) && v.month == w.month && v.now == w.now
  {
    hide Numbered, Settle, JustSettled, Bought, Issue, MonthIsFull, Count;
    if report == Paid && w.payments[q].status != Succeeded {
      IssueFailsWhenFull(w);
      SettlingSettles(w, q, w.payments[q].providerRef);
      SettledSpares(w, OrElse(Settle(w, q, w.payments[q].providerRef), w), q, p);
    } else if report == Paid { SettledAlready(w, q); }
  }

  lemma SettledAlready(w: World, q: Pid)
    requires q < |w.payments| && w.payments[q].status == Succeeded
    ensures Settle(w, q, w.payments[q].providerRef) == Ok(w)
  {}

  lemma SettledSpares(w: World, v: World, q: Pid, p: Pid)
    ensures JustSettled(w, v, q) ==>
              && (p != q ==> Spared(w, v, p)) && v.month == w.month && v.now == w.now
              && Count(v.settled, q) == Count(w.settled, q) + 1
              && Attempts(v.months, v.month) == Attempts(w.months, w.month) + if q in w.invoices then 0 else 1
  {
    CountOneMore(w.settled, q, p);
    CountOneMore(w.settled, q, q);
    assert (w.months + [w.month])[..|w.months|] == w.months == w.months + [];
  }

  // Invoices that the poll of q takes up.
  lemma PolledTakes(w: World, q: Pid, report: Report)
    requires Numbered(w) && q < |w.payments| && Waits(w.payments[q], w.now)
    ensures var v := OrElse(Poll(w, q, report), w);
            var issued := Attempts(w.months, w.month);
            Attempts(v.months, v.month) ==
              issued + if report == Paid && q !in w.invoices && issued < MONTHLY_CAPACITY then 1 else 0
  {
    hide Numbered, Settle, JustSettled, Bought, Issue, Attempts;
    if report == Paid {
      IssueFailsWhenFull(w);
      SettlingSettles(w, q, w.payments[q].providerRef);
      SettledSpares(w, OrElse(Settle(w, q, w.payments[q].providerRef), w), q, q);
    }
  }

  lemma {:induction false} SparedUntilItsTurn(w: World, reports: map<Pid, Report>, j: nat, k: nat, p: Pid)
    requires Numbered(w) && j <= k <= |Batched(w)| && forall i | j <= i < k :: Batched(w)[i] != p
    ensures Spared(Before(w, reports, j), Before(w, reports, k), p)
    ensures Before(w, reports, k).month == Before(w, reports, j).month
    ensures Before(w, reports, k).now == Before(w, reports, j).now
    ensures Numbered(Before(w, reports, k))
    decreases k - j
  {
    hide Numbered, Batched, Poll;
    PollAllKeepsNumbered(w, Batched(w), reports, k);
    if j < k {
      SparedUntilItsTurn(w, reports, j, k - 1, p);
      var before, q := Before(w, reports, k - 1), Batched(w)[k - 1];
      PollAllKeepsNumbered(w, Batched(w), reports, k - 1);
      if q in reports { PolledSpares(before, q, reports[q], p); }
    }
  }

  // When payment p's turn comes it is as it was, and the month's invoices are those issued before the
  // sweep and those of the payments ahead, as far as they went.
  lemma {:induction false} AtItsTurn(w: World, reports: map<Pid, Report>, n: nat)
    requires Numbered(w) && n <= |w.payments| && Waiting(w.payments, w.now, n) <= |Batched(w)|
    ensures var b := Before(w, reports, Waiting(w.payments, w.now, n));
            var issued, wanted := Attempts(w.months, w.month), Ahead(w, reports, n);
            && (Attempts(b.months, b.month) < MONTHLY_CAPACITY <==> issued + wanted < MONTHLY_CAPACITY)
            && (issued + wanted < MONTHLY_CAPACITY ==> Attempts(b.months, b.month) == issued + wanted)
    decreases |w.payments| - n
  {
    hide Numbered, Batched, Poll, Attempts, Waits, Spared;
    if n < |w.payments| {
      AtItsTurn(w, reports, n + 1);
      if Waits(w.payments[n], w.now) {
        var k := Waiting(w.payments, w.now, n + 1);
        TurnOf(w, reports, n);
        if n in reports { PolledTakes(Before(w, reports, k), n, reports[n]); }
      }
    }
  }

  lemma TurnOf(w: World, reports: map<Pid, Report>, p: Pid)
    requires Numbered(w) && p < |w.payments| && Waits(w.payments[p], w.now)
    requires Waiting(w.payments, w.now, p + 1) < |Batched(w)|
    ensures var k := Waiting(w.payments, w.now, p + 1);
            var b := Before(w, reports, k);
            && Batched(w)[k] == p && Spared(w, b, p) && b.payments[p] == w.payments[p]
            && (p in b.invoices <==> p in w.invoices)
            && b.now == w.now && b.month == w.month && Numbered(b)
  {
    hide Numbered, Poll, Waits, PollAll;
    var k := Waiting(w.payments, w.now, p + 1);
    DueFinds(w.payments, w.now, 0, p);
    forall i | 0 <= i < k ensures Batched(w)[i] != p { BatchHolds(w, i); }
    SparedUntilItsTurn(w, reports, 0, k, p);
    FirstPoll(w, reports);
  }

  lemma FirstPoll(w: World, reports: map<Pid, Report>)
    ensures Before(w, reports, 0) == w
  {}

  // Payment p has been settled once more.
  ghost predicate Settled(w: World, v: World, p: Pid) {
    && p < |w.payments| == |v.payments| && v.payments[p] == w.payments[p].(status := Succeeded)
    && p in v.invoices && Count(v.settled, p) == Count(w.settled, p) + 1
  }

  // What a sweep does to a payment: the two hundred newest waiting ones are polled.  Those reported paid
  // are settled, save those without an invoice for which the month's numbers did not suffice; the
  // declined ones fail; and no other payment is touched.
  lemma ReconciliationIsExact(w: World, reports: map<Pid, Report>, p: Pid)
    requires Reachable(w) && p < |w.payments|
    ensures var v := Next(w, Reconcile(reports));
            if Picked(w, p) && p in reports && reports[p] == Paid
               && (p in w.invoices || Attempts(w.months, w.month) + Ahead(w, reports, p + 1) < MONTHLY_CAPACITY)
            then Settled(w, v, p)
            else if Picked(w, p) && p in reports && reports[p] == Declined
            then Spared(w.(payments := w.payments[p := w.payments[p].(status := Failed)]), v, p)
            else Spared(w, v, p)
  {
    hide Reachable, Numbered, Books, Batched, PollAll, Attempts, Ahead, Waiting, Waits, Poll;
    ReachableIsInOrder(w, p);
    if Picked(w, p) {
      var k := Waiting(w.payments, w.now, p + 1);
      BatchFinds(w, p);
      TurnOf(w, reports, p);
      AtItsTurn(w, reports, p + 1);
      PolledAtItsTurn(w, reports, p);
      forall i | k + 1 <= i < |Batched(w)| ensures Batched(w)[i] != p { BatchHolds(w, i); }
      SparedUntilItsTurn(w, reports, k + 1, |Batched(w)|, p);
    } else {
      forall i | 0 <= i < |Batched(w)| ensures Batched(w)[i] != p { BatchHolds(w, i); }
      SparedUntilItsTurn(w, reports, 0, |Batched(w)|, p);
      FirstPoll(w, reports);
    }
    SweepPollsTheBatch(w, reports);
  }

  lemma SweepPollsTheBatch(w: World, reports: map<Pid, Report>)
    ensures Next(w, Reconcile(reports)) == Before(w, reports, |Batched(w)|)
  {}

  lemma PolledAtItsTurn(w: World, reports: map<Pid, Report>, p: Pid)
    requires Numbered(w) && Picked(w, p)
    requires Waiting(w.payments, w.now, p + 1) < |Batched(w)|
    ensures var k := Waiting(w.payments, w.now, p + 1);
            var b, v := Before(w, reports, k), Before(w, reports, k + 1);
            if p !in reports then v == b
            else if reports[p] == Paid && (p in w.invoices || !MonthIsFull(b)) then Settled(b, v, p)
            else if reports[p] == Declined
            then Spared(b.(payments := b.payments[p := b.payments[p].(status := Failed)]), v, p)
            else v == b
  {
    hide Numbered, Batched, Waiting, Settle, Bought, MonthIsFull, Issue, Count, Attempts;
    TurnOf(w, reports, p);
    var b := Before(w, reports, Waiting(w.payments, w.now, p + 1));
    if p in reports && reports[p] == Paid {
      IssueFailsWhenFull(b);
      SettlingSettles(b, p, b.payments[p].providerRef);
      SettledSpares(b, OrElse(Settle(b, p, b.payments[p].providerRef), b), p, p);
    }
  }
}
