/** What a rewind undoes, and two surprises. */
module SwipeRules {
  import opened Wrappers
  import opened Relationship
  import opened RelationshipInvariants
  import opened RelationshipGuarantees

  // ---- rewind ------------------------------------------------------------------------------------

  predicate Stands(likes: Likes, u: Id, r: Id) { (u, r) in likes && !likes[(u, r)].rewound }

  // Every other standing row of u is older than the row to r.
  ghost predicate Newest(likes: Likes, u: Id, r: Id) {
    && Stands(likes, u, r)
    && forall x | Stands(likes, u, x) && x != r :: likes[(u, x)].stamp < likes[(u, r)].stamp
  }

  lemma LatestIsNewest(likes: Likes, stamp: nat, u: Id, r: Id)
    requires LikesOk(likes, stamp)
    ensures Latest(likes, u) == Some(r) <==> Newest(likes, u, r)
  {
    IsLatestIsNewest(likes, stamp, u, r);
    if Latest(likes, u).Some? {
      IsLatestIsNewest(likes, stamp, u, Latest(likes, u).value);
    }
  }

  lemma IsLatestIsNewest(likes: Likes, stamp: nat, u: Id, r: Id)
    requires LikesOk(likes, stamp)
    ensures IsLatest(likes, u, r) <==> Newest(likes, u, r)
  {
    if IsLatest(likes, u, r) {
      forall x | Stands(likes, u, x) && x != r ensures likes[(u, x)].stamp < likes[(u, r)].stamp {
        var p := (u, x);
        assert p in likes && p.0 == u && !likes[p].rewound;
      }
    }
    if Newest(likes, u, r) {
      forall p | p in likes && p.0 == u && !likes[p].rewound ensures likes[p].stamp <= likes[(u, r)].stamp {
        assert p == (u, p.1) && Stands(likes, u, p.1);
      }
    }
  }

  lemma {:induction false} NewestAmong(likes: Likes, u: Id, s: set<Id>) returns (r: Id)
    requires s != {} && forall x | x in s :: Stands(likes, u, x)
    ensures r in s && Stands(likes, u, r)
    ensures forall x | x in s :: Stands(likes, u, x) && likes[(u, x)].stamp <= likes[(u, r)].stamp
  {
    var x :| x in s;
    if s == {x} {
      r := x;
    } else {
      var q := NewestAmong(likes, u, s - {x});
      r := if likes[(u, q)].stamp <= likes[(u, x)].stamp then x else q;
      forall y | y in s ensures likes[(u, y)].stamp <= likes[(u, r)].stamp {
        assert y == x || y in s - {x};
      }
    }
  }

  // There is something to undo whenever a swipe stands.
  lemma StandingSwipeCanBeFound(likes: Likes, u: Id, r: Id)
    requires Stands(likes, u, r)
    ensures Latest(likes, u).Some?
  {
    var s := set p | p in likes && p.0 == u && !likes[p].rewound :: p.1;
    assert (u, r) in likes && r in s;
    var q := NewestAmong(likes, u, s);
    forall p | p in likes && p.0 == u && !likes[p].rewound ensures likes[p].stamp <= likes[(u, q)].stamp {
      assert p.1 in s && p == (u, p.1);
    }
    assert IsLatest(likes, u, q);
  }

  // When a rewind succeeds, and that it takes back exactly the newest standing row.
  lemma RewindUndoesTheNewest(w: World, u: Id, entitled: bool, limits: Limits)
    requires Coherent(w)
    ensures var done := DoRewind(w, u, entitled, limits);
            && (done.result.Ok? <==>
                  && entitled && Within(Today(w, u).rewinds, limits.rewinds)
                  && exists r: Id :: Newest(w.likes, u, r) && !AreMatched(w.matches, u, r))
            && (done.result == Err(NothingToUndo) <==>
                  entitled && Within(Today(w, u).rewinds, limits.rewinds) && forall r: Id :: !Stands(w.likes, u, r))
            && (done.result.Err? ==> done.world == w)
            && (done.result.Ok? ==>
                  var r := done.result.value;
                  && Newest(w.likes, u, r)
                  && !Stands(done.world.likes, u, r)
                  && forall p: (Id, Id) | p != (u, r) ::
                       (p in done.world.likes <==> p in w.likes)
                       && (p in w.likes ==> done.world.likes[p] == w.likes[p]))
  {
    LikesAreOk(w);
    WhatLatestFinds(w.likes, w.stamp, u);
    hide Coherent, AreMatched, Within, Today, Latest, Newest, LikesOk;
  }

  lemma WhatLatestFinds(likes: Likes, stamp: nat, u: Id)
    requires LikesOk(likes, stamp)
    ensures var last := Latest(likes, u);
            && (last.None? <==> forall r: Id :: !Stands(likes, u, r))
            && (last.Some? ==> Stands(likes, u, last.value))
            && forall r: Id :: Newest(likes, u, r) <==> last == Some(r)
  {
    forall r: Id ensures Newest(likes, u, r) <==> Latest(likes, u) == Some(r) {
      LatestIsNewest(likes, stamp, u, r);
    }
    if Latest(likes, u).None? {
      forall r: Id ensures !Stands(likes, u, r) {
        if Stands(likes, u, r) { StandingSwipeCanBeFound(likes, u, r); }
      }
    }
  }

  // "Undo the most recent swipe": true exactly when that swipe's row is also the newest row, as the
  // row of a first swipe always is.  An upgraded or repeated swipe keeps the age of its first row.
  lemma RewindUndoesTheLastSwipeIffNewest(w: World, a: Id, b: Id, kind: Kind, limits: Limits, later: Limits)
    requires Coherent(w) && DoSwipe(w, a, b, kind, limits).result == Ok(None)
    requires Within(Today(DoSwipe(w, a, b, kind, limits).world, a).rewinds, later.rewinds)
    ensures var v := DoSwipe(w, a, b, kind, limits).world;
            && (DoRewind(v, a, true, later).result == Ok(b) <==>
                  forall x | Stands(w.likes, a, x) && x != b :: w.likes[(a, x)].stamp < Said(w, a, b, kind).stamp)
            && ((a, b) !in w.likes ==> DoRewind(v, a, true, later).result == Ok(b))
  {
    hide DoSwipe, Coherent, Sent, Today, Within, Said, Newest, AreMatched, Latest, Keen;
    var v := DoSwipe(w, a, b, kind, limits).world;
    UnansweredIsSent(w, a, b, kind, limits);
    SwipingKeeps(w, a, b, kind, limits);
    LikesAreOk(w);
    LikesAreOk(v);
    NotMatched(v, a, b);
    LatestIsNewest(v.likes, v.stamp, a, b);
    NewestAfter(w, v.likes, a, b, kind);
  }

  lemma UnansweredIsSent(w: World, a: Id, b: Id, kind: Kind, limits: Limits)
    requires DoSwipe(w, a, b, kind, limits).result == Ok(None)
    ensures var v := DoSwipe(w, a, b, kind, limits).world;
            && v == Sent(Asked(w, a, b), a, b, kind)
            && v.matches == w.matches
            && v.likes == w.likes[(a, b) := Said(w, a, b, kind)]
            && !(Keen(v.likes, a, b) && Keen(v.likes, b, a)) && a != b
  {
    hide Today, MaySay, MaySwipe, SaysBlocked, MatchIdOf;
  }

  lemma NotMatched(w: World, a: Id, b: Id)
    requires Coherent(w) && a != b && !(Keen(w.likes, a, b) && Keen(w.likes, b, a))
    ensures !AreMatched(w.matches, a, b)
  {
    hide ConversationsOk, Threaded, FeedsOk, LikesOk, Answered;
  }

  lemma NewestAfter(w: World, likes: Likes, a: Id, b: Id, kind: Kind)
    requires LikesOk(w.likes, w.stamp) && likes == w.likes[(a, b) := Said(w, a, b, kind)]
    ensures Newest(likes, a, b) <==>
            forall x | Stands(w.likes, a, x) && x != b :: w.likes[(a, x)].stamp < Said(w, a, b, kind).stamp
    ensures (a, b) !in w.likes ==> Newest(likes, a, b)
  {
    forall x | x != b ensures Stands(likes, a, x) == Stands(w.likes, a, x) {}
  }

  // A first swipe taken back leaves its sender's exclusions as they were before.
  lemma RewindRestoresTheExclusions(w: World, a: Id, b: Id, kind: Kind, limits: Limits, later: Limits)
    requires Coherent(w) && DoSwipe(w, a, b, kind, limits).result == Ok(None) && (a, b) !in w.likes
    requires Within(Today(DoSwipe(w, a, b, kind, limits).world, a).rewinds, later.rewinds)
    ensures var undone := DoRewind(DoSwipe(w, a, b, kind, limits).world, a, true, later).world;
            ExcludedIds(undone, a) == ExcludedIds(w, a) && !Keen(undone.likes, a, b)
  {
    hide DoSwipe, Coherent, Sent, Today, Within, Said, AreMatched, Latest, PassedIds, MatchedIds, BlockedIds;
    var v := DoSwipe(w, a, b, kind, limits).world;
    UnansweredIsSent(w, a, b, kind, limits);
    SwipeTouches(w, a, b, kind, limits);
    RewindUndoesTheLastSwipeIffNewest(w, a, b, kind, limits, later);
    var undone := DoRewind(v, a, true, later).world;
    assert undone == Rewound(v, a, b);
    PassedIdsAfter(w.likes, undone.likes, a, b);
  }

  lemma PassedIdsAfter(likes: Likes, undone: Likes, a: Id, b: Id)
    requires (a, b) !in likes && (a, b) in undone && undone[(a, b)].rewound
    requires undone == likes[(a, b) := undone[(a, b)]]
    ensures PassedIds(undone, a) == PassedIds(likes, a)
  {
    forall x ensures x in PassedIds(undone, a) <==> x in PassedIds(likes, a) {
      PassedIdsAre(undone, a, x);
      PassedIdsAre(likes, a, x);
    }
  }

  // ---- two surprises -----------------------------------------------------------------------------

  const UNLIMITED := Limits(None, None, None)

  // Nobody has ever been blocked.
  predicate AtPeace(w: World) { w.blocks == {} && forall k | k in w.verdicts :: !w.verdicts[k].blocked }

  lemma PlainSwipe(w: World, a: Id, b: Id, kind: Kind)
    requires AtPeace(w) && a != b && IsActive(w, b) && MaySay(w.likes, a, b, kind)
    ensures var v, answered := DoSwipe(w, a, b, kind, UNLIMITED).world, kind != Pass && Keen(w.likes, b, a);
            && DoSwipe(w, a, b, kind, UNLIMITED).result.Ok?
            && AtPeace(v) && v.standing == w.standing
            && v.likes == w.likes[(a, b) := Said(w, a, b, kind)]
            && v.stamp == (if (a, b) in w.likes then w.stamp else w.stamp + 1)
            && v.matches == (if answered then WithMatch(w.matches, a, b) else w.matches)
            && v.conversations ==
               (if answered && Starts(w.matches, a, b)
                then Housed(w.conversations, MatchIdOf(w.matches, a, b), Key(a, b).0, Key(a, b).1)
                else w.conversations)
  {
    hide AtPeace, Asked, Sent, Matched, SaysBlocked, Today, Housed, MatchIdOf, WithMatch, Starts, MaySay, Keen, Said;
    PeacefulAsk(w, a, b);
    var asked := Asked(w, a, b);
    PeacefulSend(asked, a, b, kind);
    SameSaid(w, asked, a, b, kind);
    PeacefulMatch(Sent(asked, a, b, kind), a, b);
  }

  lemma PeacefulAsk(w: World, a: Id, b: Id)
    requires AtPeace(w)
    ensures var v := Asked(w, a, b);
            && !SaysBlocked(w, a, b) && AtPeace(v) && v.standing == w.standing
            && v.likes == w.likes && v.stamp == w.stamp
            && v.matches == w.matches && v.conversations == w.conversations
  {}

  lemma SameSaid(w: World, v: World, a: Id, b: Id, kind: Kind)
    requires v.likes == w.likes && v.stamp == w.stamp
    ensures Said(v, a, b, kind) == Said(w, a, b, kind)
  {}

  lemma PeacefulSend(w: World, a: Id, b: Id, kind: Kind)
    requires AtPeace(w)
    ensures var v := Sent(w, a, b, kind);
            && AtPeace(v) && v.standing == w.standing
            && v.likes == w.likes[(a, b) := Said(w, a, b, kind)]
            && v.stamp == (if (a, b) in w.likes then w.stamp else w.stamp + 1)
            && v.matches == w.matches && v.conversations == w.conversations
  {
    hide Said, Today;
  }

  lemma PeacefulMatch(w: World, a: Id, b: Id)
    requires AtPeace(w)
    ensures var v := Matched(w, a, b);
            && AtPeace(v) && v.standing == w.standing && v.likes == w.likes && v.stamp == w.stamp
            && v.matches == WithMatch(w.matches, a, b)
            && v.conversations ==
               (if Starts(w.matches, a, b)
                then Housed(w.conversations, MatchIdOf(w.matches, a, b), Key(a, b).0, Key(a, b).1)
                else w.conversations)
  {
    hide Housed, MatchIdOf;
    AlreadyLive(w.matches, a, b);
  }

  // Like 2, like 3, upgrade 2 to a super like: the rewind takes back the like of 3.
  lemma AnUpgradeIsNotWhatARewindUndoes(w0: World)
    requires Fresh(w0) && IsActive(w0, 2) && IsActive(w0, 3)
    ensures var w1 := DoSwipe(w0, 1, 2, Like, UNLIMITED).world;
            var w2 := DoSwipe(w1, 1, 3, Like, UNLIMITED).world;
            var last := DoSwipe(w2, 1, 2, SuperLike, UNLIMITED);
            last.result.Ok? && DoRewind(last.world, 1, true, UNLIMITED).result == Ok(3)
  {
    hide DoSwipe, Today, Latest, Housed, WithMatch, MatchIdOf, Starts, Newest, LikesOk, AreMatched;
    PlainSwipe(w0, 1, 2, Like);
    var w1 := DoSwipe(w0, 1, 2, Like, UNLIMITED).world;
    assert w1.likes == map[(1, 2) := Swipe(Like, false, 0)];
    PlainSwipe(w1, 1, 3, Like);
    var w2 := DoSwipe(w1, 1, 3, Like, UNLIMITED).world;
    assert w2.likes == map[(1, 2) := Swipe(Like, false, 0), (1, 3) := Swipe(Like, false, 1)];
    PlainSwipe(w2, 1, 2, SuperLike);
    var w3 := DoSwipe(w2, 1, 2, SuperLike, UNLIMITED).world;
    assert w3.likes == map[(1, 2) := Swipe(SuperLike, false, 0), (1, 3) := Swipe(Like, false, 1)];
    LaterRowIsLatest(w3.likes);
    NoRowsNoMatch(w3.matches);
  }

  lemma LaterRowIsLatest(likes: Likes)
    requires likes == map[(1, 2) := Swipe(SuperLike, false, 0), (1, 3) := Swipe(Like, false, 1)]
    ensures Latest(likes, 1) == Some(3)
  {
    LatestIsNewest(likes, 2, 1, 3);
  }

  lemma NoRowsNoMatch(ms: seq<Match>)
    ensures ms == [] ==> !AreMatched(ms, 1, 3)
  {}

  // Match, unmatch, super like again: the match is active and its conversation refuses every message.
  lemma ARevivedMatchIsSilent(w0: World, body: string)
    requires Fresh(w0) && IsActive(w0, 1) && IsActive(w0, 2)
    ensures var w1 := DoSwipe(w0, 1, 2, Like, UNLIMITED).world;
            var w2 := DoSwipe(w1, 2, 1, Like, UNLIMITED).world;
            var w3 := DoUnmatch(w2, 1, 0).world;
            var w4 := DoSwipe(w3, 1, 2, SuperLike, UNLIMITED).world;
            && AreMatched(w4.matches, 1, 2)
            && DoSend(w4, 1, 0, Passes(body), true).result == Err(Closed)
  {
    hide DoSwipe;
    PlainSwipe(w0, 1, 2, Like);
    var w1 := DoSwipe(w0, 1, 2, Like, UNLIMITED).world;
    assert w1.likes == map[(1, 2) := Swipe(Like, false, 0)];
    PlainSwipe(w1, 2, 1, Like);
    var w2 := DoSwipe(w1, 2, 1, Like, UNLIMITED).world;
    var m, c := Match(1, 2, Active, None), NewConversation(1, 2, Some(0));
    assert w2.matches == [m] && w2.conversations == [c];
    var w3 := DoUnmatch(w2, 1, 0).world;
    assert w3.matches == [Ended(m, Unmatched, 1)] && w3.conversations == [c.(open := false)];
    PlainSwipe(w3, 1, 2, SuperLike);
    var w4 := DoSwipe(w3, 1, 2, SuperLike, UNLIMITED).world;
    assert w4.matches == [m] && w4.conversations == [c.(open := false)];
    assert LiveBetween(w4.matches[0], 1, 2);
  }
}
