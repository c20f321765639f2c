/** The services over their tables.  Each public method is one call: it does to the tables exactly what
    the step of the same name says, and so keeps them coherent. */
module RelationshipPlatform {
  import opened Wrappers
  import opened Relationship
  import opened RelationshipInvariants
  import opened EventBus

  function OrElse(r: Result<World, ()>, w: World): World {
    match r case Ok(v) => v case Err(_) => w
  }

  class Platform {
    var handlers: Bus
    var now: nat
    var standing: map<Id, Standing>
    var likes: Likes
    var stamp: nat
    var quotas: map<Id, Quota>
    var matches: seq<Match>
    var conversations: seq<Conversation>
    var blocks: Relationship.Blocks
    var verdicts: map<(Id, Id), Verdict>
    var feeds: map<Id, Feed>

    function State(): World
      reads this
    {
      World(now, standing, likes, stamp, quotas, matches, conversations, blocks, verdicts, feeds)
    }

    ghost predicate Valid()
      reads this
    {
      Wired(handlers) && Coherent(State())
    }

    constructor (now: nat, standing: map<Id, Standing>)
      ensures Fresh(State()) && State().now == now && State().standing == standing && handlers == map[]
    {
      handlers, this.now, this.standing := map[], now, standing;
      likes, stamp, quotas, matches, conversations := map[], 0, map[], [], [];
      blocks, verdicts, feeds := {}, map[], map[];
    }

    // ---- the bus -------------------------------------------------------------------------------

    method Subscribe(name: EventName, h: Handler)
      modifies `handlers
      ensures handlers == Subscribed(old(handlers), name, h)
    {
      var hs := HandlersOf(handlers, name);
      if h !in hs {
        handlers := handlers[name := hs + [h]];
      }
    }

    method Publish(e: Event)
      requires Wired(handlers)
      modifies `likes, `matches, `conversations, `verdicts, `feeds
      ensures State() == Effect(e, old(State()))
      decreases Rank(e), |HandlersOf(handlers, Name(e))| + 1
    {
      hide Wired, Effect, Handle;
      ghost var w := State();
      var hs := HandlersOf(handlers, Name(e));
      var i := 0;
      while i < |hs|
        invariant 0 <= i <= |hs|
        invariant State() == Dispatch(handlers, e, i, w)
        decreases |hs| - i
      {
        RunHandler(hs[i], e);   // what it raises is logged and forgotten
        i := i + 1;
      }
      PublishIsItsEffect(handlers, e, w);
    }

    method RunHandler(h: Handler, e: Event)
      requires Wired(handlers)
      modifies `likes, `matches, `conversations, `verdicts, `feeds
      ensures State() == OrElse(Handle(handlers, h, e, old(State())), old(State()))
      decreases Rank(e), 0
    {
      hide Wired, Asked;
      match h {
        case DropSenderFeed => if e.SwipeSent? { feeds := feeds - {e.sender}; }
        case DropBothFeeds => if e.Created? { feeds := feeds - {e.a, e.b}; }
        case DropBlockerFeed => if e.Blocks? { feeds := feeds - {e.blocker, e.blocked}; }
        case OpenConversation => if e.Created? { GetOrCreateConversation(e.matchId, e.a, e.b); }
        case CloseConversation => if e.Ends? { CloseForMatch(e.matchId); }
        case CloseAllConversations => if e.Bans? || e.RequestsDeletion? { CloseAllOf(e.user); }
        case EndMatchOnBlock => if e.Blocks? { EndAllForPair(e.blocker, e.blocked); }
        case EndMatchesOnExit => if e.Bans? || e.Deactivates? { EndAllForUser(e.user); }
        case DropLikesBetween =>
          if e.Blocks? { likes := likes - {(e.blocker, e.blocked), (e.blocked, e.blocker)}; }
        case WarmBlockCache =>
          if e.Blocks? {
            verdicts := verdicts - {Key(e.blocker, e.blocked)};
            var _ := IsBlockedBetween(e.blocker, e.blocked);
          }
        case Unrelated(_, _) =>
      }
    }

    // ---- conversations ---------------------------------------------------------------------------

    method GetOrCreateConversation(m: nat, a: Id, b: Id)
      modifies `conversations
      ensures conversations == Housed(old(conversations), m, a, b)
    {
      if ThreadOf(conversations, m, |conversations|).Some? {
        return;
      }
      var existing := Between(conversations, a, b, |conversations|);
      if existing.Some? && conversations[existing.value].matchId.None? {
        var k := existing.value;
        conversations := conversations[k := conversations[k].(matchId := Some(m), open := true)];
        return;
      }
      conversations := conversations + [NewConversation(a, b, Some(m))];
    }

    method CloseForMatch(m: nat)
      modifies `conversations
      ensures conversations == ClosedFor(old(conversations), m)
    {
      ghost var was := conversations;
      var i := 0;
      while i < |conversations|
        invariant 0 <= i <= |conversations| == |was|
        invariant forall k | 0 <= k < |was| :: conversations[k] == if k < i then ClosedFor(was, m)[k] else was[k]
      {
        if BelongsTo(conversations[i], m) {
          conversations := conversations[i := conversations[i].(open := false)];
        }
        i := i + 1;
      }
    }

    method CloseAllOf(u: Id)
      modifies `conversations
      ensures conversations == ClosedOf(old(conversations), u)
    {
      ghost var was := conversations;
      var i := 0;
      while i < |conversations|
        invariant 0 <= i <= |conversations| == |was|
        invariant forall k | 0 <= k < |was| :: conversations[k] == if k < i then ClosedOf(was, u)[k] else was[k]
      {
        if IsMember(conversations[i], u) {
          conversations := conversations[i := conversations[i].(open := false)];
        }
        i := i + 1;
      }
    }

    method OpenChat(u: Id, other: Id) returns (r: Result<nat, Error>)
      requires Valid()
      modifies `verdicts, `conversations
      ensures Valid()
      ensures Outcome(State(), r) == DoOpenChat(old(State()), u, other)
    {
      hide Coherent, Wired, SaysBlocked, Asked;
      OpeningKeeps(State(), u, other);
      if u == other {
        return Err(Yourself);
      }
      if !IsActive(State(), other) {
        return Err(Gone);
      }
      var blocked := IsBlockedBetween(u, other);
      if blocked {
        return Err(Refused);
      }
      var existing := Between(conversations, u, other, |conversations|);
      if existing.Some? {
        return Ok(existing.value);
      }
      r := Ok(|conversations|);
      conversations := conversations + [NewConversation(u, other, None)];
    }

    method Send(u: Id, k: nat, body: Content, withinPlan: bool) returns (r: Result<(), Error>)
      requires Valid()
      modifies `verdicts, `conversations
      ensures Valid()
      ensures Outcome(State(), r) == DoSend(old(State()), u, k, body, withinPlan)
    {
      hide Coherent, Wired, SaysBlocked, Asked;
      MessagingKeeps(State(), u, k, body, withinPlan);
      if k >= |conversations| {
        return Err(NotFound);
      }
      if !IsMember(conversations[k], u) {
        return Err(NotYours);
      }
      if !conversations[k].open {
        return Err(Closed);
      }
      var blocked := IsBlockedBetween(u, OtherMember(conversations[k], u));
      if blocked {
        return Err(Refused);
      }
      if body.Empty? {
        return Err(NothingWritten);
      }
      if body.Withheld? {
        return Err(Moderated);
      }
      if !withinPlan {
        return Err(QuotaExceeded);
      }
      var c := conversations[k];
      c := c.(messages := c.messages + [Message(u, body.text, false)], count := c.count + 1);
      if u != c.low {
        c := c.(unreadLow := c.unreadLow + 1);
      }
      if u != c.high {
        c := c.(unreadHigh := c.unreadHigh + 1);
      }
      conversations := conversations[k := c];
      r := Ok(());
    }

    method MarkRead(u: Id, k: nat)
      requires Valid()
      modifies `conversations
      ensures Valid()
      ensures State() == DoRead(old(State()), u, k)
    {
      hide Coherent, Wired;
      ReadingKeeps(State(), u, k);
      if k >= |conversations| || !IsMember(conversations[k], u) {
        return;
      }
      var c := conversations[k];
      var read := c.messages;
      var i := 0;
      while i < |read|
        invariant 0 <= i <= |read| == |c.messages|
        invariant forall j | 0 <= j < |read| :: read[j] == if j < i then ReadBy(c.messages, u)[j] else c.messages[j]
      {
        if read[i].sender != u && !read[i].read {
          read := read[i := read[i].(read := true)];
        }
        i := i + 1;
      }
      assert read == ReadBy(c.messages, u);
      var after := c.(messages := read);
      if u == c.low {
        after := after.(unreadLow := 0);
      }
      if u == c.high {
        after := after.(unreadHigh := 0);
      }
      conversations := conversations[k := after];
    }

    // ---- blocks --------------------------------------------------------------------------------

    method IsBlockedBetween(a: Id, b: Id) returns (blocked: bool)
      modifies `verdicts
      ensures blocked == SaysBlocked(old(State()), a, b)
      ensures State() == Asked(old(State()), a, b)
    {
      var key := Key(a, b);
      if key in verdicts && now < verdicts[key].until {
        return verdicts[key].blocked;
      }
      blocked := (key.0, key.1) in blocks || (key.1, key.0) in blocks;
      verdicts := verdicts[key := Verdict(blocked, now + BLOCK_CACHE_SECONDS)];
    }

    method Block(a: Id, b: Id) returns (r: Result<(), Error>)
      requires Valid()
      modifies `blocks, `likes, `matches, `conversations, `verdicts, `feeds
      ensures Valid()
      ensures Outcome(State(), r) == DoBlock(old(State()), a, b)
    {
      hide Coherent, Wired, EndedBetween, ClosedBetween;
      ghost var w := State();
      BlockingKeeps(w, a, b);
      if a == b {
        return Err(Yourself);
      }
      if (a, b) !in blocks {
        blocks := blocks + {(a, b)};
        verdicts := verdicts - {Key(a, b)};
        Publish(Event.Blocks(a, b));
        assert State().verdicts == AfterBlock(w.(blocks := w.blocks + {(a, b)}), a, b).verdicts;
      }
      r := Ok(());
    }

    // A report with "also block".  When it fails later on, the transaction takes the rows back and
    // leaves the caches alone.
    method Report(a: Id, b: Id, fails: bool)
      requires Valid()
      modifies `blocks, `likes, `matches, `conversations, `verdicts, `feeds
      ensures Valid()
      ensures State() == if fails then FailedReport(old(State()), a, b) else DoBlock(old(State()), a, b).world
    {
      hide Coherent, Wired, DoBlock;
      FailedReportKeeps(State(), a, b);
      var savedBlocks, savedLikes, savedMatches, savedConversations := blocks, likes, matches, conversations;
      ghost var w := State();
      var _ := Block(a, b);
      if fails {
        BlockTouches(w, a, b);
        blocks, likes, matches, conversations := savedBlocks, savedLikes, savedMatches, savedConversations;
      }
    }

    method Unblock(a: Id, b: Id) returns (deleted: bool)
      requires Valid()
      modifies `blocks, `verdicts
      ensures Valid()
      ensures State() == DoUnblock(old(State()), a, b)
      ensures deleted <==> (a, b) in old(blocks)
    {
      hide Coherent, Wired;
      UnblockingKeeps(State(), a, b);
      deleted := (a, b) in blocks;
      blocks := blocks - {(a, b)};
      verdicts := verdicts - {Key(a, b)};
    }

    // ---- matches -------------------------------------------------------------------------------

    method EndAllForPair(a: Id, b: Id)
      requires Wired(handlers)
      modifies `likes, `matches, `conversations, `verdicts, `feeds
      ensures State() == EndPair(handlers, old(State()), a, b, old(matches), |old(matches)|)
      decreases 1, 0
    {
      hide Wired, AfterEnd;
      ghost var w := State();
      var read := matches;
      var i := 0;
      while i < |read|
        invariant 0 <= i <= |read| == |matches|
        invariant State() == EndPair(handlers, w, a, b, read, i)
        decreases |read| - i
      {
        if LiveBetween(read[i], a, b) {
          ghost var before := State();
          matches := matches[i := Ended(matches[i], Blocked, a)];
          EndingIsItsEffect(handlers, i, State());
          Publish(Ends(i));
        }
        i := i + 1;
      }
    }

    method EndAllForUser(u: Id)
      modifies `matches
      ensures matches == EndedOf(old(matches), u)
    {
      ghost var was := matches;
      var i := 0;
      while i < |matches|
        invariant 0 <= i <= |matches| == |was|
        invariant forall k | 0 <= k < |was| :: matches[k] == if k < i then EndedOf(was, u)[k] else was[k]
      {
        if Involves(matches[i], u) && matches[i].status == Active {
          matches := matches[i := Ended(matches[i], Unmatched, u)];
        }
        i := i + 1;
      }
    }

    method CreateMatch(a: Id, b: Id) returns (m: nat)
      requires Wired(handlers)
      modifies `likes, `matches, `conversations, `verdicts, `feeds
      ensures State() == Matched(old(State()), a, b)
      ensures m == MatchIdOf(old(matches), a, b)
    {
      hide Wired, AfterMatch;
      ghost var w := State();
      var found := FindMatch(matches, a, b, |matches|);
      var created := found.None?;
      if created {
        m := |matches|;
        matches := matches + [Match(Key(a, b).0, Key(a, b).1, Active, None)];
      } else {
        m := found.value;
        if matches[m].status != Active {
          matches := matches[m := matches[m].(status := Active, endedBy := None)];
          created := true;
        }
      }
      if created {
        Publish(Created(m, Key(a, b).0, Key(a, b).1));
      }
    }

    method Unmatch(u: Id, m: nat) returns (r: Result<(), Error>)
      requires Valid()
      modifies `likes, `matches, `conversations, `verdicts, `feeds
      ensures Valid()
      ensures Outcome(State(), r) == DoUnmatch(old(State()), u, m)
    {
      hide Coherent, Wired, AfterEnd;
      UnmatchingKeeps(State(), u, m);
      if m >= |matches| {
        return Err(NotFound);
      }
      if !Involves(matches[m], u) {
        return Err(NotYours);
      }
      matches := matches[m := Ended(matches[m], Unmatched, u)];
      Publish(Ends(m));
      r := Ok(());
    }

    // ---- likes ---------------------------------------------------------------------------------

    method Swipe(a: Id, b: Id, kind: Kind, limits: Limits) returns (r: Result<Option<nat>, Error>)
      requires Valid()
      modifies this
      ensures Valid() && handlers == old(handlers)
      ensures Outcome(State(), r) == DoSwipe(old(State()), a, b, kind, limits)
    {
      hide Coherent, Wired, SaysBlocked, Asked, Matched, MaySay, MatchIdOf;
      ghost var w := State();
      SwipingKeeps(w, a, b, kind, limits);
      if a == b {
        return Err(Yourself);
      }
      if !IsActive(State(), b) {
        return Err(Gone);
      }
      var blocked := IsBlockedBetween(a, b);
      AskingChangesVerdictsOnly(w, a, b);
      if blocked {
        return Err(Unavailable);
      }
      if !MaySay(likes, a, b, kind) {
        return Err(AlreadySwiped);
      }
      var quota := Today(State(), a);
      if !MaySwipe(quota, kind, limits) {
        return Err(QuotaExceeded);
      }
      ghost var asked := State();
      RecordSwipe(a, b, kind);
      Publish(SwipeSent(kind, a));
      assert State() == Sent(asked, a, b, kind);
      r := Ok(None);
      if kind != Pass && Keen(likes, b, a) {
        var m := CreateMatch(a, b);
        r := Ok(Some(m));
      }
    }

    method RecordSwipe(a: Id, b: Id, kind: Kind)
      modifies `likes, `stamp, `quotas
      ensures State() == Recorded(old(State()), a, b, kind)
    {
      quotas := quotas[a := Consumed(Today(State(), a), kind)];
      if (a, b) in likes {
        likes := likes[(a, b) := likes[(a, b)].(kind := kind, rewound := false)];
      } else {
        likes := likes[(a, b) := Relationship.Swipe(kind, false, stamp)];
        stamp := stamp + 1;
      }
    }

    // The receiver of the newest standing swipe.
    method FindLatest(u: Id) returns (last: Option<Id>)
      requires LikesOk(likes, stamp)
      ensures last == Latest(likes, u)
      ensures last.Some? ==> (u, last.value) in likes
    {
      var rows := likes.Keys;
      last := None;
      while rows != {}
        invariant rows <= likes.Keys
        invariant last.Some? ==> (u, last.value) in likes && !likes[(u, last.value)].rewound
        invariant forall p | p in likes && p !in rows && p.0 == u && !likes[p].rewound ::
                    last.Some? && likes[p].stamp <= likes[(u, last.value)].stamp
        decreases rows
      {
        var p :| p in rows;
        rows := rows - {p};
        if p.0 == u && !likes[p].rewound && (last.None? || likes[(u, last.value)].stamp < likes[p].stamp) {
          last := Some(p.1);
        }
      }
      LatestIs(likes, stamp, u, last);
    }

    method Rewind(u: Id, entitled: bool, limits: Limits) returns (r: Result<Id, Error>)
      requires Valid()
      modifies `likes, `quotas
      ensures Valid()
      ensures Outcome(State(), r) == DoRewind(old(State()), u, entitled, limits)
    {
      hide Coherent, Wired, Latest, LikesOk, AreMatched;
      RewindingKeeps(State(), u, entitled, limits);
      LikesAreOk(State());
      if !entitled {
        return Err(NotPremium);
      }
      var quota := Today(State(), u);
      if !Within(quota.rewinds, limits.rewinds) {
        return Err(QuotaExceeded);
      }
      var last := FindLatest(u);
      if last.None? {
        return Err(NothingToUndo);   // the quota of this transaction is rolled back
      }
      if AreMatched(matches, u, last.value) {
        return Err(BecameMatch);
      }
      quotas := quotas[u := quota.(rewinds := quota.rewinds + 1)];
      likes := likes[(u, last.value) := likes[(u, last.value)].(rewound := true)];
      r := Ok(last.value);
    }

    // ---- accounts ------------------------------------------------------------------------------

    method Ban(u: Id)
      requires Valid()
      modifies this
      ensures Valid() && handlers == old(handlers)
      ensures State() == Next(old(State()), BanStep(u))
    {
      hide Coherent, Wired, AfterBan;
      StepKeepsCoherent(State(), BanStep(u));
      standing := standing[u := Banned];
      Publish(Bans(u));
    }

    method Deactivate(u: Id)
      requires Valid()
      modifies this
      ensures Valid() && handlers == old(handlers)
      ensures State() == Next(old(State()), PauseStep(u))
    {
      hide Coherent, Wired, AfterPause;
      StepKeepsCoherent(State(), PauseStep(u));
      standing := standing[u := Paused];
      Publish(Deactivates(u));
    }

    method RequestDeletion(u: Id)
      requires Valid()
      modifies this
      ensures Valid() && handlers == old(handlers)
      ensures State() == Next(old(State()), RequestDeletionStep(u))
    {
      hide Coherent, Wired, AfterRequest;
      StepKeepsCoherent(State(), RequestDeletionStep(u));
      standing := standing[u := Paused];
      Publish(RequestsDeletion(u));
    }

    // ---- scheduled tasks -----------------------------------------------------------------------

    method PrunePasses(before: nat)
      requires Valid()
      modifies `likes
      ensures Valid()
      ensures State() == Next(old(State()), PruneStep(before))
    {
      hide Coherent, Wired;
      PruningKeeps(State(), before);
      var stale := set p | p in likes && likes[p].kind == Pass && likes[p].stamp < before;
      ghost var was := likes;
      likes := likes - stale;
      assert likes == Pruned(was, before);
    }

    method ArchiveStaleConversations(stale: set<nat>)
      requires Valid()
      modifies `conversations
      ensures Valid()
      ensures State() == Next(old(State()), ArchiveStep(stale))
    {
      hide Coherent, Wired;
      ArchivingKeeps(State(), stale);
      ghost var was := conversations;
      var i := 0;
      while i < |conversations|
        invariant 0 <= i <= |conversations| == |was|
        invariant forall k | 0 <= k < |was| :: conversations[k] == if k < i then Archived(was, stale)[k] else was[k]
      {
        if i in stale {
          conversations := conversations[i := conversations[i].(open := false)];
        }
        i := i + 1;
      }
      assert conversations == Archived(was, stale);
    }

    // ---- feeds ---------------------------------------------------------------------------------

    method MatchedUserIds(u: Id) returns (ids: seq<Id>)
      ensures (set x | x in ids) == MatchedIds(matches, u)
    {
      ids := [];
      for i := 0 to |matches|
        invariant forall x | x in ids :: x in MatchedIds(matches, u)
        invariant forall k | 0 <= k < i && Involves(matches[k], u) :: OtherUser(matches[k], u) in ids
      {
        if Involves(matches[i], u) {
          ids := ids + [OtherUser(matches[i], u)];
        }
      }
    }

    method ExcludedUserIds(u: Id) returns (excluded: set<Id>)
      ensures excluded == ExcludedIds(State(), u)
    {
      excluded := {u};
      excluded := excluded + PassedIds(likes, u);
      var matched := MatchedUserIds(u);
      excluded := excluded + set x | x in matched;
      excluded := excluded + BlockedIds(blocks, u);
    }

    method BuildFeed(u: Id, limit: nat, refresh: bool, dateable: set<Id>, order: seq<Id>)
      returns (cards: Result<seq<Id>, Error>)
      requires Valid()
      modifies `feeds
      ensures Valid()
      ensures Outcome(State(), cards) == DoBuildFeed(old(State()), u, limit, refresh, dateable, order)
    {
      hide Coherent, Wired, ExcludedIds;
      FeedingKeeps(State(), u, limit, refresh, dateable, order);
      if !refresh && ServesCached(State(), u) {
        return Ok(Take(feeds[u].ids, limit));
      }
      var excluded := ExcludedUserIds(u);
      var pool := dateable - excluded;
      if pool == {} {
        return Ok([]);
      }
      var kept := Only(order, pool);
      feeds := feeds[u := Feed(kept, now + FEED_CACHE_SECONDS)];
      cards := Ok(Take(kept, limit));
    }
  }

  lemma BlockTouches(w: World, a: Id, b: Id)
    ensures var v := DoBlock(w, a, b).world;
            v == w.(blocks := v.blocks, likes := v.likes, matches := v.matches, conversations := v.conversations,
                    verdicts := v.verdicts, feeds := v.feeds)
  {
    hide EndedBetween, ClosedBetween;
  }

  lemma AskingChangesVerdictsOnly(w: World, a: Id, b: Id)
    ensures Asked(w, a, b) == w.(verdicts := Asked(w, a, b).verdicts)
  {}

  lemma LatestIs(likes: Likes, stamp: nat, u: Id, last: Option<Id>)
    requires LikesOk(likes, stamp)
    requires last.Some? ==> IsLatest(likes, u, last.value)
    requires last.None? ==> forall r: Id :: (u, r) in likes ==> likes[(u, r)].rewound
    ensures last == Latest(likes, u)
  {
    if last.Some? {
      var other := Latest(likes, u);
      assert (u, other.value) in likes && (u, last.value) in likes;
    }
  }
}
