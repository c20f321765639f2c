/** What a feed shows: everybody who may be shown, in rank order, and for how long. */
module FeedRules {
  import opened Wrappers
  import opened Relationship
  import opened RelationshipInvariants

  // How many of the first n ranked may be shown.
  function EligibleBefore(order: seq<Id>, pool: set<Id>, n: nat): nat
    requires n <= |order|
  {
    if n == 0 then 0 else EligibleBefore(order, pool, n - 1) + if order[n - 1] in pool then 1 else 0
  }

  // Everybody ranked who may be shown is shown, behind exactly those ranked earlier who may be.
  ghost predicate ShowsInOrder(order: seq<Id>, pool: set<Id>, shown: seq<Id>) {
    && |shown| == EligibleBefore(order, pool, |order|)
    && forall i | 0 <= i < |order| && order[i] in pool ::
         EligibleBefore(order, pool, i) < |shown| && shown[EligibleBefore(order, pool, i)] == order[i]
  }

  lemma {:induction false} SameBefore(order: seq<Id>, pool: set<Id>, n: nat, x: Id)
    requires n <= |order|
    ensures EligibleBefore(order + [x], pool, n) == EligibleBefore(order, pool, n)
  {
    if n > 0 { SameBefore(order, pool, n - 1, x); }
  }

  lemma ShownOneMore(order: seq<Id>, pool: set<Id>, shown: seq<Id>, x: Id)
    requires ShowsInOrder(order, pool, shown)
    ensures ShowsInOrder(order + [x], pool, if x in pool then shown + [x] else shown)
  {
    hide EligibleBefore;
    var after := if x in pool then shown + [x] else shown;
    forall i | 0 <= i <= |order| ensures EligibleBefore(order + [x], pool, i) == EligibleBefore(order, pool, i) {
      SameBefore(order, pool, i, x);
    }
    OneMoreEligible(order, pool, x);
    forall i | 0 <= i < |order + [x]| && (order + [x])[i] in pool
      ensures EligibleBefore(order + [x], pool, i) < |after|
              && after[EligibleBefore(order + [x], pool, i)] == (order + [x])[i]
    {
      if i < |order| { assert (order + [x])[i] == order[i]; }
    }
  }

  lemma OneMoreEligible(order: seq<Id>, pool: set<Id>, x: Id)
    ensures EligibleBefore(order + [x], pool, |order| + 1)
            == EligibleBefore(order, pool, |order|) + if x in pool then 1 else 0
  {
    SameBefore(order, pool, |order|, x);
  }

  lemma {:induction false} OnlyShowsInOrder(order: seq<Id>, pool: set<Id>)
    ensures ShowsInOrder(order, pool, Only(order, pool))
  {
    if order != [] {
      hide ShowsInOrder;
      var init, last := order[..|order| - 1], order[|order| - 1];
      OnlyShowsInOrder(init, pool);
      ShownOneMore(init, pool, Only(init, pool), last);
      assert order == init + [last];
      assert Only(order, pool) == if last in pool then Only(init, pool) + [last] else Only(init, pool);
    }
  }

  // The first `limit` of a list, or all of it.
  ghost predicate FirstOf(r: seq<Id>, ids: seq<Id>, limit: nat) {
    |r| <= limit && |r| <= |ids| && (|r| == limit || |r| == |ids|) && forall k | 0 <= k < |r| :: r[k] == ids[k]
  }

  // Whether a call has to build: on request, or when no list was stored in time, or an empty one.
  ghost predicate MustBuild(w: World, u: Id, refresh: bool) {
    refresh || u !in w.feeds || w.now >= w.feeds[u].until || w.feeds[u].ids == []
  }

  // A build stores everybody ranked who is dateable and not excluded, in rank order, and shows the first
  // of them; if there is nobody dateable left it stores nothing.
  lemma BuiltFeedShowsExactlyTheEligible(
    w: World, u: Id, limit: nat, refresh: bool, dateable: set<Id>, order: seq<Id>)
    requires MustBuild(w, u, refresh)
    ensures var built := DoBuildFeed(w, u, limit, refresh, dateable, order);
            if forall x | x in dateable :: x in ExcludedIds(w, u)
            then built == Outcome(w, Ok([]))
            else
              && built.result.Ok?
              && u in built.world.feeds
              && built.world == w.(feeds := w.feeds[u := Feed(built.world.feeds[u].ids, w.now + 180)])
              && FirstOf(built.result.value, built.world.feeds[u].ids, limit)
              && (forall x :: x in built.world.feeds[u].ids
                    <==> x in order && x in dateable && x !in ExcludedIds(w, u))
              && ShowsInOrder(order, dateable - ExcludedIds(w, u), built.world.feeds[u].ids)
  {
    hide ExcludedIds, ShowsInOrder, EligibleBefore;
    assert !(!refresh && ServesCached(w, u));
    var pool := dateable - ExcludedIds(w, u);
    if pool == {} {
      forall x | x in dateable ensures x in ExcludedIds(w, u) { assert x !in pool; }
    } else {
      var x :| x in pool;
      assert x in dateable && x !in ExcludedIds(w, u);
      OnlyShowsInOrder(order, pool);
      TakeIsFirst(Only(order, pool), limit);
    }
  }

  lemma TakeIsFirst(ids: seq<Id>, limit: nat)
    ensures FirstOf(Take(ids, limit), ids, limit)
  {}

  // Otherwise the stored list is served, and nothing changes.
  lemma StoredFeedIsServed(w: World, u: Id, limit: nat, dateable: set<Id>, order: seq<Id>)
    requires !MustBuild(w, u, false)
    ensures var served := DoBuildFeed(w, u, limit, false, dateable, order);
            served.world == w && served.result.Ok? && FirstOf(served.result.value, w.feeds[u].ids, limit)
  {}

  // ---- where a stored list comes from ----------------------------------------------------------------

  // Only a member's own build puts anything into that member's cache.
  lemma StepOnFeeds(w: World, s: Step, u: Id)
    ensures var v := Next(w, s);
            u in v.feeds ==>
              || (u in w.feeds && v.feeds[u] == w.feeds[u])
              || (s.FeedStep? && s.user == u && v.feeds[u].until == w.now + 180)
  {
    hide DoSwipe, DoRewind, DoOpenChat, DoSend, DoRead, ExcludedIds, EndedBetween, ClosedBetween, EndedOf, ClosedOf,
         Pruned, Archived, ClosedFor, Only, ServesCached, Today, SaysBlocked;
    match s
    case SwipeStep(a, b, kind, limits) => SwipeOnFeeds(w, a, b, kind, limits, u);
    case RewindStep(a, entitled, limits) => RewindOnFeeds(w, a, entitled, limits);
    case OpenChatStep(a, b) => ChatOnFeeds(w, a, b, Empty, true);
    case SendStep(a, k, body, withinPlan) => ChatOnFeeds(w, a, k, body, withinPlan);
    case ReadStep(a, k) => ChatOnFeeds(w, a, k, Empty, true);
    case _ =>
  }

  lemma SwipeOnFeeds(w: World, a: Id, b: Id, kind: Kind, limits: Limits, u: Id)
    ensures var v := DoSwipe(w, a, b, kind, limits).world;
            u in v.feeds ==> u in w.feeds && v.feeds[u] == w.feeds[u]
  {
    hide Asked, Sent, Matched, Today, MaySwipe, MaySay, SaysBlocked, Keen, MatchIdOf;
    var asked := Asked(w, a, b);
    TablesOnFeeds(w, a, b, kind);
    TablesOnFeeds(asked, a, b, kind);
    TablesOnFeeds(Sent(asked, a, b, kind), a, b, kind);
  }

  lemma TablesOnFeeds(w: World, a: Id, b: Id, kind: Kind)
    ensures Asked(w, a, b).feeds == w.feeds
    ensures Sent(w, a, b, kind).feeds == w.feeds - {a}
    ensures Matched(w, a, b).feeds == if Starts(w.matches, a, b) then w.feeds - {a, b} else w.feeds
  {
    hide Said, Today, Housed, WithMatch, MatchIdOf, Starts;
    assert {Key(a, b).0, Key(a, b).1} == {a, b};
  }

  lemma RewindOnFeeds(w: World, u: Id, entitled: bool, limits: Limits)
    ensures DoRewind(w, u, entitled, limits).world.feeds == w.feeds
  {
    hide Today, Within, AreMatched, Latest;
  }

  lemma ChatOnFeeds(w: World, u: Id, k: nat, body: Content, withinPlan: bool)
    ensures DoOpenChat(w, u, k).world.feeds == w.feeds
    ensures DoSend(w, u, k, body, withinPlan).world.feeds == w.feeds
    ensures DoRead(w, u, k).feeds == w.feeds
  {
    hide SaysBlocked, Between, Delivered, Opened;
  }

  // A list that is served from the cache was built for that member less than 180 seconds earlier.
  lemma {:induction false} ServedFeedIsRecent(start: World, steps: seq<Step>, n: nat, u: Id) returns (k: nat)
    requires Fresh(start) && n <= |steps| && u in Run(start, steps, n).feeds
    ensures k < n && steps[k].FeedStep? && steps[k].user == u
    ensures var built, w := Run(start, steps, k + 1), Run(start, steps, n);
            && u in built.feeds && built.feeds[u] == w.feeds[u]
            && w.feeds[u].until == Run(start, steps, k).now + 180
            && (!MustBuild(w, u, false) ==> w.now < Run(start, steps, k).now + 180)
  {
    hide Next;
    var before, s := Run(start, steps, n - 1), steps[n - 1];
    StepOnFeeds(before, s, u);
    if u in before.feeds && Run(start, steps, n).feeds[u] == before.feeds[u] {
      k := ServedFeedIsRecent(start, steps, n - 1, u);
    } else {
      k := n - 1;
    }
  }
}
