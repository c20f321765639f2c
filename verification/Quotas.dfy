/** Daily quotas: the counters are true, the limit is never passed, and nobody is refused before it. */
module Quotas {
  import opened Wrappers
  import opened Relationship
  import opened RelationshipInvariants
  import opened RelationshipGuarantees
  import opened SwipeRules

  datatype Meter = LikeMeter | SuperLikeMeter | RewindMeter

  function Used(q: Quota, m: Meter): nat {
    match m case LikeMeter => q.likes case SuperLikeMeter => q.superLikes case RewindMeter => q.rewinds
  }

  function PlanLimit(limits: Limits, m: Meter): Option<nat> {
    match m case LikeMeter => limits.likes case SuperLikeMeter => limits.superLikes case RewindMeter => limits.rewinds
  }

  // The step is one that this meter counts for u, on this day, and it gets through.
  ghost predicate Counts(w: World, s: Step, u: Id, m: Meter, day: nat) {
    && w.now / DAY == day
    && (match m
        case LikeMeter =>
          s.SwipeStep? && s.sender == u && s.kind == Like
          && DoSwipe(w, s.sender, s.receiver, s.kind, s.limits).result.Ok?
        case SuperLikeMeter =>
          s.SwipeStep? && s.sender == u && s.kind == SuperLike
          && DoSwipe(w, s.sender, s.receiver, s.kind, s.limits).result.Ok?
        case RewindMeter =>
          s.RewindStep? && s.user == u && DoRewind(w, s.user, s.entitled, s.limits).result.Ok?)
  }

  // How often u got through on this day.
  ghost function Got(start: World, steps: seq<Step>, n: nat, u: Id, m: Meter, day: nat): nat
    requires n <= |steps|
  {
    if n == 0 then 0
    else
      Got(start, steps, n - 1, u, m, day)
      + if Counts(Run(start, steps, n - 1), steps[n - 1], u, m, day) then 1 else 0
  }

  // ---- one step ------------------------------------------------------------------------------------

  predicate Room(used: nat, limit: Option<nat>) { limit.Some? ==> used < limit.value }

  ghost predicate Metered(w: World, v: World, s: Step, u: Id, m: Meter) {
    && v.now == w.now
    && Used(Today(v, u), m) == Used(Today(w, u), m) + (if Counts(w, s, u, m, w.now / DAY) then 1 else 0)
    && (Counts(w, s, u, m, w.now / DAY) ==>
          (s.SwipeStep? || s.RewindStep?) && Room(Used(Today(w, u), m), PlanLimit(s.limits, m)))
  }

  // What a step does to a member's counters: time is all that resets them, and only what gets through
  // moves them.
  lemma StepOnQuota(w: World, s: Step, u: Id, m: Meter)
    ensures if s.TickStep? then Next(w, s) == w.(now := w.now + s.seconds) else Metered(w, Next(w, s), s, u, m)
  {
    hide Next, Metered;
    if s.SwipeStep? {
      SwipeOnQuota(w, s, u, m);
    } else if s.RewindStep? {
      RewindOnQuota(w, s, u, m);
    } else if s.ResetQuotasStep? {
      ResettingOnQuota(w, u);
      UncountedOnQuota(w, s, u, m);
    } else if s.TickStep? {
      TickIsTime(w, s);
    } else {
      OtherStepsOnQuota(w, s);
      UncountedOnQuota(w, s, u, m);
    }
  }

  lemma TickIsTime(w: World, s: Step)
    requires s.TickStep?
    ensures Next(w, s) == w.(now := w.now + s.seconds)
  {}

  lemma UncountedOnQuota(w: World, s: Step, u: Id, m: Meter)
    requires !s.SwipeStep? && !s.RewindStep?
    requires Next(w, s).now == w.now && Today(Next(w, s), u) == Today(w, u)
    ensures Metered(w, Next(w, s), s, u, m)
  {
    hide Next, Today;
  }

  lemma SwipeOnQuota(w: World, s: Step, u: Id, m: Meter)
    requires s.SwipeStep?
    ensures Metered(w, Next(w, s), s, u, m)
  {
    hide DoSwipe, DoRewind, SaysBlocked, Housed, MatchIdOf;
    SwipeTouches(w, s.sender, s.receiver, s.kind, s.limits);
    PassedTheQuota(w, s.sender, s.receiver, s.kind, s.limits);
  }

  lemma PassedTheQuota(w: World, a: Id, b: Id, kind: Kind, limits: Limits)
    ensures DoSwipe(w, a, b, kind, limits).result.Ok? ==> MaySwipe(Today(w, a), kind, limits)
  {
    hide Today, MaySwipe, MaySay, SaysBlocked, Sent, Matched, MatchIdOf, Keen;
    AskedTouches(w, a, b);
  }

  lemma RewindOnQuota(w: World, s: Step, u: Id, m: Meter)
    requires s.RewindStep?
    ensures Metered(w, Next(w, s), s, u, m)
  {
    hide AreMatched, Latest, DoSwipe;
  }

  // The midnight reset changes nothing that the reset on reading would not.
  lemma ResettingOnQuota(w: World, u: Id)
    ensures Next(w, ResetQuotasStep).now == w.now && Today(Next(w, ResetQuotasStep), u) == Today(w, u)
  {}

  lemma OtherStepsOnQuota(w: World, s: Step)
    requires !s.SwipeStep? && !s.RewindStep? && !s.ResetQuotasStep? && !s.TickStep?
    ensures SameQuotas(w, Next(w, s))
  {
    hide DoSwipe, DoRewind, DoUnmatch, DoBlock, DoOpenChat, DoSend, DoRead, DoBuildFeed, EndedOf, ClosedOf, Pruned,
         Archived;
    match s
    case UnmatchStep(u, m) => PartingOnQuota(w, u, m);
    case BlockStep(a, b) => PartingOnQuota(w, a, b);
    case FailedReportStep(a, b) => PartingOnQuota(w, a, b);
    case AskStep(a, b) => AskedTouches(w, a, b);
    case OpenChatStep(a, b) => ChattingOnQuota(w, a, b, Empty, true);
    case SendStep(u, k, body, withinPlan) => ChattingOnQuota(w, u, k, body, withinPlan);
    case ReadStep(u, k) => ChattingOnQuota(w, u, k, Empty, true);
    case FeedStep(u, limit, refresh, dateable, order) => FeedingOnQuota(w, u, limit, refresh, dateable, order);
    case _ =>
  }

  predicate SameQuotas(w: World, v: World) { v.now == w.now && v.quotas == w.quotas }

  lemma PartingOnQuota(w: World, a: Id, b: Id)
    ensures SameQuotas(w, DoUnmatch(w, a, b).world) && SameQuotas(w, DoBlock(w, a, b).world)
  {
    hide ClosedFor, EndedBetween, ClosedBetween;
  }

  lemma ChattingOnQuota(w: World, u: Id, k: nat, body: Content, withinPlan: bool)
    ensures SameQuotas(w, DoOpenChat(w, u, k).world)
    ensures SameQuotas(w, DoSend(w, u, k, body, withinPlan).world)
    ensures SameQuotas(w, DoRead(w, u, k))
  {
    hide SaysBlocked, Between, Delivered, Opened, Asked;
    forall x: Id ensures Asked(w, u, x).now == w.now && Asked(w, u, x).quotas == w.quotas {
      AskedTouches(w, u, x);
    }
  }

  lemma FeedingOnQuota(w: World, u: Id, limit: nat, refresh: bool, dateable: set<Id>, order: seq<Id>)
    ensures SameQuotas(w, DoBuildFeed(w, u, limit, refresh, dateable, order).world)
  {
    hide ExcludedIds, Only;
  }

  // ---- the counters are true -----------------------------------------------------------------------

  // No counter row is from the future.
  ghost predicate PastDays(w: World) { forall u | u in w.quotas :: w.quotas[u].day <= w.now / DAY }

  lemma TodayIsPast(w: World, u: Id)
    requires PastDays(w)
    ensures Today(w, u).day == w.now / DAY
  {}

  lemma DayPasses(a: nat, b: nat)
    requires a <= b
    ensures a / DAY <= b / DAY
  {}

  lemma StepKeepsPastDays(w: World, s: Step)
    requires PastDays(w)
    ensures PastDays(Next(w, s))
  {
    match s
    case SwipeStep(a, b, kind, limits) =>
      hide DoSwipe;
      SwipeTouches(w, a, b, kind, limits);
      TodayIsPast(w, a);
    case RewindStep(_, _, _) => hide AreMatched, Latest;
    case ResetQuotasStep =>
    case TickStep(seconds) => DayPasses(w.now, w.now + seconds);
    case _ =>
      hide Next;
      OtherStepsOnQuota(w, s);
  }

  lemma {:induction false} RunKeepsPastDays(start: World, steps: seq<Step>, n: nat)
    requires Fresh(start) && n <= |steps|
    ensures PastDays(Run(start, steps, n))
  {
    if n > 0 {
      RunKeepsPastDays(start, steps, n - 1);
      hide PastDays, Next;
      StepKeepsPastDays(Run(start, steps, n - 1), steps[n - 1]);
    }
  }

  lemma NewDayStartsAtZero(w: World, u: Id, seconds: nat, m: Meter)
    requires PastDays(w) && (w.now + seconds) / DAY > w.now / DAY
    ensures Used(Today(w.(now := w.now + seconds), u), m) == 0
  {}

  lemma SameDaySameCount(w: World, u: Id, seconds: nat)
    requires (w.now + seconds) / DAY == w.now / DAY
    ensures Today(w.(now := w.now + seconds), u) == Today(w, u)
  {}

  lemma CountsNeedsTheDay(w: World, s: Step, u: Id, m: Meter, day: nat)
    ensures Counts(w, s, u, m, day) ==> day == w.now / DAY && !s.TickStep?
  {}

  lemma {:induction false} NothingGotYet(start: World, steps: seq<Step>, n: nat, u: Id, m: Meter, day: nat)
    requires n <= |steps| && Run(start, steps, n).now / DAY < day
    ensures Got(start, steps, n, u, m, day) == 0
  {
    hide Next, Counts;
    if n > 0 {
      var w := Run(start, steps, n - 1);
      StepOnQuota(w, steps[n - 1], u, m);
      DayPasses(w.now, Run(start, steps, n).now);
      CountsNeedsTheDay(w, steps[n - 1], u, m, day);
      NothingGotYet(start, steps, n - 1, u, m, day);
    }
  }

  // In every run a member's counters for today are what the member got through today.
  lemma {:induction false} CountersAreTheCount(start: World, steps: seq<Step>, n: nat, u: Id, m: Meter)
    requires Fresh(start) && n <= |steps|
    ensures var w := Run(start, steps, n);
            Used(Today(w, u), m) == Got(start, steps, n, u, m, w.now / DAY)
  {
    hide Next, Today, Used, Counts, PastDays, Fresh;
    if n == 0 {
      NothingUsed(start, u, m);
    } else {
      var w, v, s := Run(start, steps, n - 1), Run(start, steps, n), steps[n - 1];
      CountersAreTheCount(start, steps, n - 1, u, m);
      StepOnQuota(w, s, u, m);
      CountsNeedsTheDay(w, s, u, m, v.now / DAY);
      if s.TickStep? {
        RunKeepsPastDays(start, steps, n - 1);
        DayPasses(w.now, v.now);
        if v.now / DAY == w.now / DAY {
          SameDaySameCount(w, u, s.seconds);
        } else {
          NewDayStartsAtZero(w, u, s.seconds, m);
          NothingGotYet(start, steps, n - 1, u, m, v.now / DAY);
        }
      }
    }
  }

  lemma NothingUsed(start: World, u: Id, m: Meter)
    requires Fresh(start)
    ensures Used(Today(start, u), m) == 0
  {}

  // ---- the limit -------------------------------------------------------------------------------------

  function MeterOf(kind: Kind): Meter { if kind == Like then LikeMeter else SuperLikeMeter }

  // Towards an active, unblocked receiver, and saying something new or upgrading a like, a like or a super
  // like is refused exactly if the plan gives a number and so many have got through today.
  lemma SwipeIsRefusedExactlyAtTheLimit(
    start: World, steps: seq<Step>, n: nat, a: Id, b: Id, kind: Kind, limits: Limits)
    requires Fresh(start) && n <= |steps| && kind != Pass && a != b
    requires var w := Run(start, steps, n);
             && b in w.standing && w.standing[b] == Member
             && !SaysBlocked(w, a, b)
             && ((a, b) in w.likes && !w.likes[(a, b)].rewound ==>
                   w.likes[(a, b)].kind == Like && kind == SuperLike)
    ensures var w := Run(start, steps, n);
            var result, plan := DoSwipe(w, a, b, kind, limits).result, PlanLimit(limits, MeterOf(kind));
            if plan.Some? && plan.value <= Got(start, steps, n, a, MeterOf(kind), w.now / DAY)
            then result == Err(QuotaExceeded) else result.Ok?
  {
    hide Run, Got, Today, SaysBlocked, Sent, Matched, MatchIdOf, Keen, Asked;
    var w := Run(start, steps, n);
    CountersAreTheCount(start, steps, n, a, MeterOf(kind));
    AskedTouches(w, a, b);
  }

  // An entitled member's rewind is refused for the quota exactly then.
  lemma RewindIsRefusedExactlyAtTheLimit(start: World, steps: seq<Step>, n: nat, u: Id, limits: Limits)
    requires Fresh(start) && n <= |steps|
    ensures var w := Run(start, steps, n);
            DoRewind(w, u, true, limits).result == Err(QuotaExceeded) <==>
              limits.rewinds.Some? && limits.rewinds.value <= Got(start, steps, n, u, RewindMeter, w.now / DAY)
    ensures DoRewind(Run(start, steps, n), u, false, limits) == Outcome(Run(start, steps, n), Err(NotPremium))
  {
    hide Run, Got, Today, AreMatched, Latest;
    CountersAreTheCount(start, steps, n, u, RewindMeter);
  }

  // However the day is spent, from any start, nobody gets more through than the most the plan allowed at
  // any of them.
  lemma {:induction false} DailyUseIsBounded(
    start: World, steps: seq<Step>, n: nat, u: Id, m: Meter, day: nat, limit: nat)
    requires n <= |steps|
    requires forall k | 0 <= k < n && Counts(Run(start, steps, k), steps[k], u, m, day) ::
               && (steps[k].SwipeStep? || steps[k].RewindStep?)
               && PlanLimit(steps[k].limits, m).Some? && PlanLimit(steps[k].limits, m).value <= limit
    ensures var w, got := Run(start, steps, n), Got(start, steps, n, u, m, day);
            && got <= limit
            && (w.now / DAY == day ==> got <= Used(Today(w, u), m))
            && (w.now / DAY < day ==> got == 0)
  {
    hide Next, Today, Used, PlanLimit, Counts;
    if n > 0 {
      DailyUseIsBounded(start, steps, n - 1, u, m, day, limit);
      var w, v, s := Run(start, steps, n - 1), Run(start, steps, n), steps[n - 1];
      StepOnQuota(w, s, u, m);
      DayPasses(w.now, v.now);
      CountsNeedsTheDay(w, s, u, m, day);
      if s.TickStep? && v.now / DAY == w.now / DAY { SameDaySameCount(w, u, s.seconds); }
    }
  }

  // ---- the limit is reached --------------------------------------------------------------------------

  // Member 0 swipes on 1, 2, 3 and so on.
  function Spree(kind: Kind, limits: Limits, n: nat): seq<Step> {
    seq(n, i requires 0 <= i < n => SwipeStep(0, i + 1, kind, limits))
  }

  ghost predicate OnlyZeroSwiped(w: World, start: World, n: nat) {
    && AtPeace(w) && w.now == start.now && w.standing == start.standing
    && forall p | p in w.likes :: p.0 == 0 && 1 <= p.1 <= n
  }

  lemma SpreeStep(w: World, start: World, n: nat, kind: Kind, limits: Limits)
    requires OnlyZeroSwiped(w, start, n) && kind != Pass && IsActive(start, n + 1)
    ensures !SaysBlocked(w, 0, n + 1)
    ensures OnlyZeroSwiped(DoSwipe(w, 0, n + 1, kind, limits).world, start, n + 1)
  {
    hide Asked, Sent, AtPeace, SaysBlocked, Today, MaySwipe, MaySay, Said, Consumed;
    assert (n + 1, 0) !in w.likes;
    PeacefulAsk(w, 0, n + 1);
    PeacefulSend(Asked(w, 0, n + 1), 0, n + 1, kind);
    AskedTouches(w, 0, n + 1);
    SentTouches(Asked(w, 0, n + 1), 0, n + 1, kind);
  }

  lemma {:induction false} SpreeStays(start: World, kind: Kind, limits: Limits, size: nat, n: nat)
    requires Fresh(start) && kind != Pass && n <= size
    requires forall r: Id | 1 <= r <= size :: IsActive(start, r)
    ensures OnlyZeroSwiped(Run(start, Spree(kind, limits, size), n), start, n)
  {
    hide DoSwipe;
    if n > 0 {
      hide OnlyZeroSwiped, Fresh, IsActive;
      SpreeStays(start, kind, limits, size, n - 1);
      var w := Run(start, Spree(kind, limits, size), n - 1);
      SpreeStep(w, start, n - 1, kind, limits);
      assert Spree(kind, limits, size)[n - 1] == SwipeStep(0, n, kind, limits);
    }
  }

  lemma CountedIfThrough(w: World, s: Step, kind: Kind, u: Id)
    requires s.SwipeStep? && s.sender == u && s.kind == kind != Pass
    ensures Counts(w, s, u, MeterOf(kind), w.now / DAY)
            <==> DoSwipe(w, s.sender, s.receiver, s.kind, s.limits).result.Ok?
  {
    hide DoSwipe, DoRewind;
  }

  lemma GotOneMore(start: World, steps: seq<Step>, n: nat, u: Id, m: Meter, day: nat)
    requires 0 < n <= |steps|
    ensures Got(start, steps, n, u, m, day)
            == Got(start, steps, n - 1, u, m, day)
               + if Counts(Run(start, steps, n - 1), steps[n - 1], u, m, day) then 1 else 0
  {
    hide Counts, Run;
  }

  lemma SpreeTurn(start: World, kind: Kind, limits: Limits, size: nat, n: nat)
    requires Fresh(start) && kind != Pass && 0 < n <= size && PlanLimit(limits, MeterOf(kind)).Some?
    requires forall r: Id | 1 <= r <= size :: IsActive(start, r)
    ensures var steps, m, l := Spree(kind, limits, size), MeterOf(kind), PlanLimit(limits, MeterOf(kind)).value;
            var w, before := Run(start, steps, n - 1), Got(start, steps, n - 1, 0, m, start.now / DAY);
            Got(start, steps, n, 0, m, start.now / DAY) == before + if before < l then 1 else 0
  {
    var steps := Spree(kind, limits, size);
    var w := Run(start, steps, n - 1);
    assert steps[n - 1] == SwipeStep(0, n, kind, limits);
    assert IsActive(start, n);
    SpreeStays(start, kind, limits, size, n - 1);
    assert IsActive(w, n) && (0, n) !in w.likes && w.now == start.now;
    hide Run, DoSwipe, SaysBlocked, Fresh, IsActive, OnlyZeroSwiped, Counts, Got;
    SpreeStep(w, start, n - 1, kind, limits);
    CountedIfThrough(w, steps[n - 1], kind, 0);
    assert w.standing[n] == Member by { ActiveIsMember(w, n); }
    SwipeIsRefusedExactlyAtTheLimit(start, steps, n - 1, 0, n, kind, limits);
    GotOneMore(start, steps, n, 0, MeterOf(kind), start.now / DAY);
  }

  lemma ActiveIsMember(w: World, u: Id)
    requires IsActive(w, u)
    ensures u in w.standing && w.standing[u] == Member
  {}

  // With a limit of l, exactly the first l of a day's likes or super likes to new people get through.
  lemma {:induction false} ExactlyTheLimitGetsThrough(start: World, kind: Kind, limits: Limits, size: nat, n: nat)
    requires Fresh(start) && kind != Pass && n <= size && PlanLimit(limits, MeterOf(kind)).Some?
    requires forall r: Id | 1 <= r <= size :: IsActive(start, r)
    ensures var l := PlanLimit(limits, MeterOf(kind)).value;
            Got(start, Spree(kind, limits, size), n, 0, MeterOf(kind), start.now / DAY) == if n <= l then n else l
  {
    hide Run, Next, Fresh, IsActive, Counts, Got, Spree, MeterOf, PlanLimit;
    if n == 0 {
      GotNothing(start, Spree(kind, limits, size), 0, MeterOf(kind), start.now / DAY);
    } else {
      SpreeLength(kind, limits, size);
      ExactlyTheLimitGetsThrough(start, kind, limits, size, n - 1);
      SpreeTurn(start, kind, limits, size, n);
    }
  }

  lemma GotNothing(start: World, steps: seq<Step>, u: Id, m: Meter, day: nat)
    ensures Got(start, steps, 0, u, m, day) == 0
  {}

  lemma SpreeLength(kind: Kind, limits: Limits, n: nat)
    ensures |Spree(kind, limits, n)| == n
  {}
}
