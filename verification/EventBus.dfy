/** The in-process event bus.  Modules subscribe handlers in whatever order they load; publishing runs
    them one after another and swallows what they raise.  Whatever the order, and whatever else is
    subscribed, an event comes to the same thing. */
module EventBus {
  import opened Wrappers
  import opened Relationship

  datatype EventName =
    | LikeSent | SuperLikeSent | PassSent | MatchCreated | MatchEnded
    | UserBlocked | UserBanned | UserDeactivated | UserDeleted

  // An event and the payload fields its handlers read.
  datatype Event =
    | SwipeSent(kind: Kind, sender: Id)
    | Created(matchId: nat, a: Id, b: Id)
    | Ends(matchId: nat)
    | Blocks(blocker: Id, blocked: Id)
    | Bans(user: Id)
    | Deactivates(user: Id)
    | RequestsDeletion(user: Id)   // deletion is scheduled; the purging handlers skip this

  function Name(e: Event): EventName {
    match e
    case SwipeSent(kind, _) => (match kind case Like => LikeSent case SuperLike => SuperLikeSent case Pass => PassSent)
    case Created(_, _, _) => MatchCreated
    case Ends(_) => MatchEnded
    case Blocks(_, _) => UserBlocked
    case Bans(_) => UserBanned
    case Deactivates(_) => UserDeactivated
    case RequestsDeletion(_) => UserDeleted
  }

  // The handlers that touch the tables of a World.  Any other works on tables of its own, and may raise.
  datatype Handler =
    | DropSenderFeed | DropBothFeeds | DropBlockerFeed
    | OpenConversation | CloseConversation | CloseAllConversations
    | EndMatchOnBlock | EndMatchesOnExit
    | DropLikesBetween | WarmBlockCache
    | Unrelated(name: string, raises: bool)

  type Bus = map<EventName, seq<Handler>>

  function HandlersOf(bus: Bus, name: EventName): seq<Handler> { if name in bus then bus[name] else [] }

  // What the modules subscribe.
  function Expected(name: EventName): set<Handler> {
    match name
    case LikeSent => {DropSenderFeed}
    case SuperLikeSent => {DropSenderFeed}
    case PassSent => {DropSenderFeed}
    case MatchCreated => {DropBothFeeds, OpenConversation}
    case MatchEnded => {CloseConversation}
    case UserBlocked => {DropLikesBetween, EndMatchOnBlock, WarmBlockCache, DropBlockerFeed}
    case UserBanned => {EndMatchesOnExit, CloseAllConversations}
    case UserDeactivated => {EndMatchesOnExit}
    case UserDeleted => {CloseAllConversations}
  }

  function Related(hs: seq<Handler>, n: nat): set<Handler>
    requires n <= |hs|
  {
    if n == 0 then {}
    else if hs[n - 1].Unrelated? then Related(hs, n - 1)
    else Related(hs, n - 1) + {hs[n - 1]}
  }

  // Every event has its own handlers, in some order, among any others.
  ghost predicate Wired(bus: Bus) {
    forall name :: Related(HandlersOf(bus, name), |HandlersOf(bus, name)|) == Expected(name)
  }

  // ---- subscribing -------------------------------------------------------------------------------

  function Subscribed(bus: Bus, name: EventName, h: Handler): Bus {
    if h in HandlersOf(bus, name) then bus else bus[name := HandlersOf(bus, name) + [h]]
  }

  // The bus after the first n subscriptions.
  function Loaded(calls: seq<(EventName, Handler)>, n: nat): Bus
    requires n <= |calls|
  {
    if n == 0 then map[] else Subscribed(Loaded(calls, n - 1), calls[n - 1].0, calls[n - 1].1)
  }

  lemma {:induction false} RelatedIs(hs: seq<Handler>, n: nat, h: Handler)
    requires n <= |hs|
    ensures h in Related(hs, n) <==> !h.Unrelated? && exists i | 0 <= i < n :: hs[i] == h
  {
    if n > 0 { RelatedIs(hs, n - 1, h); }
  }

  // Nobody is subscribed twice, and exactly those who asked are.
  lemma {:induction false} LoadedHolds(calls: seq<(EventName, Handler)>, n: nat, name: EventName, h: Handler)
    requires n <= |calls|
    ensures var hs := HandlersOf(Loaded(calls, n), name);
            && (h in hs <==> exists i | 0 <= i < n :: calls[i] == (name, h))
            && forall i, j | 0 <= i < j < |hs| :: hs[i] != hs[j]
  {
    if n > 0 { LoadedHolds(calls, n - 1, name, h); }
  }

  // The modules can load in any order.
  lemma AnyLoadOrderWires(calls: seq<(EventName, Handler)>)
    requires forall name, h: Handler | !h.Unrelated? :: (name, h) in calls <==> h in Expected(name)
    ensures Wired(Loaded(calls, |calls|))
  {
    hide Related, Loaded, Expected, HandlersOf;
    var bus := Loaded(calls, |calls|);
    forall name
      ensures Related(HandlersOf(bus, name), |HandlersOf(bus, name)|) == Expected(name)
    {
      forall h: Handler
        ensures h in Related(HandlersOf(bus, name), |HandlersOf(bus, name)|) <==> h in Expected(name)
      {
        SubscribersAre(calls, name, h);
        OnlyRelatedExpected(name, h);
      }
    }
  }

  lemma OnlyRelatedExpected(name: EventName, h: Handler)
    ensures h in Expected(name) ==> !h.Unrelated?
  {}

  lemma SubscribersAre(calls: seq<(EventName, Handler)>, name: EventName, h: Handler)
    ensures var hs := HandlersOf(Loaded(calls, |calls|), name);
            h in Related(hs, |hs|) <==> !h.Unrelated? && (name, h) in calls
  {
    hide Related, Loaded, HandlersOf;
    var hs := HandlersOf(Loaded(calls, |calls|), name);
    RelatedIs(hs, |hs|, h);
    LoadedHolds(calls, |calls|, name, h);
  }

  // ---- publishing --------------------------------------------------------------------------------

  function Rank(e: Event): nat { if e.Blocks? then 2 else 0 }

  // The world after the first n handlers of e have run.
  function Dispatch(bus: Bus, e: Event, n: nat, w: World): (r: World)
    requires n <= |HandlersOf(bus, Name(e))|
    ensures |r.matches| == |w.matches|
    decreases Rank(e), n
  {
    if n == 0 then w
    else
      var before := Dispatch(bus, e, n - 1, w);
      match Handle(bus, HandlersOf(bus, Name(e))[n - 1], e, before)
      case Ok(after) => after
      case Err(_) => before
  }

  function Publish(bus: Bus, e: Event, w: World): (r: World)
    ensures |r.matches| == |w.matches|
    decreases Rank(e), |HandlersOf(bus, Name(e))| + 1
  {
    Dispatch(bus, e, |HandlersOf(bus, Name(e))|, w)
  }

  // One handler.  It does nothing for an event whose payload lacks its fields.
  function Handle(bus: Bus, h: Handler, e: Event, w: World): (r: Result<World, ()>)
    ensures r.Ok? ==> |r.value.matches| == |w.matches|
    decreases Rank(e), 0
  {
    match h
    case DropSenderFeed => Ok(if e.SwipeSent? then AfterSwipe(w, e.sender) else w)
    case DropBothFeeds => Ok(if e.Created? then w.(feeds := w.feeds - {e.a, e.b}) else w)
    case DropBlockerFeed => Ok(if e.Blocks? then w.(feeds := w.feeds - {e.blocker, e.blocked}) else w)
    case OpenConversation =>
      Ok(if e.Created? then w.(conversations := Housed(w.conversations, e.matchId, e.a, e.b)) else w)
    case CloseConversation => Ok(if e.Ends? then AfterEnd(w, e.matchId) else w)
    case CloseAllConversations =>
      Ok(if e.Bans? || e.RequestsDeletion? then w.(conversations := ClosedOf(w.conversations, e.user)) else w)
    case EndMatchOnBlock =>
      Ok(if e.Blocks? then EndPair(bus, w, e.blocker, e.blocked, w.matches, |w.matches|) else w)
    case EndMatchesOnExit => Ok(if e.Bans? || e.Deactivates? then w.(matches := EndedOf(w.matches, e.user)) else w)
    case DropLikesBetween =>
      Ok(if e.Blocks? then w.(likes := w.likes - {(e.blocker, e.blocked), (e.blocked, e.blocker)}) else w)
    case WarmBlockCache => Ok(if e.Blocks? then Warmed(w, e.blocker, e.blocked) else w)
    case Unrelated(_, raises) => if raises then Err(()) else Ok(w)
  }

  // Forget the verdict and ask again.
  function Warmed(w: World, a: Id, b: Id): World { Asked(w.(verdicts := w.verdicts - {Key(a, b)}), a, b) }

  // End the pair's active matches among the first n rows read, announcing each.
  function EndPair(bus: Bus, w: World, a: Id, b: Id, read: seq<Match>, n: nat): (r: World)
    requires n <= |read| == |w.matches|
    ensures |r.matches| == |w.matches|
    decreases 1, n
  {
    if n == 0 then w
    else
      var before := EndPair(bus, w, a, b, read, n - 1);
      if LiveBetween(read[n - 1], a, b)
      then
        Publish(bus, Ends(n - 1), before.(matches := before.matches[n - 1 := Ended(before.matches[n - 1], Blocked, a)]))
      else before
  }

  // ---- what an event comes to ----------------------------------------------------------------------

  function Effect(e: Event, w: World): World {
    match e
    case SwipeSent(_, sender) => AfterSwipe(w, sender)
    case Created(m, a, b) => AfterMatch(w, m, a, b)
    case Ends(m) => AfterEnd(w, m)
    case Blocks(a, b) => AfterBlock(w, a, b)
    case Bans(u) => AfterBan(w, u)
    case Deactivates(u) => AfterPause(w, u)
    case RequestsDeletion(u) => AfterRequest(w, u)
  }

  // The part of it that the handlers in `done` account for.
  function Part(e: Event, w: World, done: set<Handler>): World {
    match e
    case SwipeSent(_, sender) => if DropSenderFeed in done then AfterSwipe(w, sender) else w
    case Created(m, a, b) =>
      w.(feeds := if DropBothFeeds in done then w.feeds - {a, b} else w.feeds,
         conversations := if OpenConversation in done then Housed(w.conversations, m, a, b) else w.conversations)
    case Ends(m) => if CloseConversation in done then AfterEnd(w, m) else w
    case Blocks(a, b) =>
      w.(likes := if DropLikesBetween in done then w.likes - {(a, b), (b, a)} else w.likes,
         matches := if EndMatchOnBlock in done then EndedBetween(w.matches, a, b) else w.matches,
         conversations :=
           if EndMatchOnBlock in done then ClosedBetween(w.conversations, w.matches, a, b) else w.conversations,
         verdicts := if WarmBlockCache in done
                     then w.verdicts[Key(a, b) := Verdict(BlockedEither(w.blocks, a, b), w.now + BLOCK_CACHE_SECONDS)]
                     else w.verdicts,
         feeds := if DropBlockerFeed in done then w.feeds - {a, b} else w.feeds)
    case Bans(u) =>
      w.(matches := if EndMatchesOnExit in done then EndedOf(w.matches, u) else w.matches,
         conversations := if CloseAllConversations in done then ClosedOf(w.conversations, u) else w.conversations)
    case Deactivates(u) => w.(matches := if EndMatchesOnExit in done then EndedOf(w.matches, u) else w.matches)
    case RequestsDeletion(u) =>
      w.(conversations := if CloseAllConversations in done then ClosedOf(w.conversations, u) else w.conversations)
  }

  lemma WholeIsEffect(e: Event, w: World)
    ensures Part(e, w, Expected(Name(e))) == Effect(e, w)
  {}

  lemma EmptyPart(e: Event, w: World)
    ensures Part(e, w, {}) == w
  {}

  // ---- one handler more ------------------------------------------------------------------------------

  lemma HousedTwice(cs: seq<Conversation>, m: nat, a: Id, b: Id)
    ensures Housed(Housed(cs, m, a, b), m, a, b) == Housed(cs, m, a, b)
  {
    var ds := Housed(cs, m, a, b);
    if ThreadOf(cs, m, |cs|).None? {
      var k := Between(cs, a, b, |cs|);
      var t := if k.Some? && cs[k.value].matchId.None? then k.value else |cs|;
      assert BelongsTo(ds[t], m);
    }
  }

  lemma ClosedTwice(cs: seq<Conversation>, m: nat)
    ensures ClosedFor(ClosedFor(cs, m), m) == ClosedFor(cs, m)
  {}

  lemma DroppedTwice<K, V>(m: map<K, V>, gone: set<K>)
    ensures (m - gone) - gone == m - gone
  {}

  lemma CreatedHandlerDoesItsPart(bus: Bus, h: Handler, e: Event, w: World, done: set<Handler>)
    requires e.Created? && h in {DropBothFeeds, OpenConversation}
    ensures Handle(bus, h, e, Part(e, w, done)) == Ok(Part(e, w, done + {h}))
  {
    hide Housed;
    HousedTwice(w.conversations, e.matchId, e.a, e.b);
    DroppedTwice(w.feeds, {e.a, e.b});
  }

  lemma BlockHandlerDoesItsPart(bus: Bus, h: Handler, e: Event, w: World, done: set<Handler>)
    requires e.Blocks? && h in {DropLikesBetween, WarmBlockCache, DropBlockerFeed}
    ensures Handle(bus, h, e, Part(e, w, done)) == Ok(Part(e, w, done + {h}))
  {
    hide EndedBetween, ClosedBetween, EndPair, Warmed;
    var a, b := e.blocker, e.blocked;
    DroppedTwice(w.likes, {(a, b), (b, a)});
    DroppedTwice(w.feeds, {a, b});
    WarmingForgets(w, Part(e, w, done), a, b);
  }

  // Warming sets the verdict from the block table, whatever was cached.
  lemma WarmingForgets(w: World, v: World, a: Id, b: Id)
    requires v.now == w.now && v.blocks == w.blocks
    requires forall k | k != Key(a, b) ::
               && (k in v.verdicts <==> k in w.verdicts)
               && (k in w.verdicts ==> v.verdicts[k] == w.verdicts[k])
    ensures Warmed(v, a, b)
            == v.(verdicts := w.verdicts[Key(a, b) :=
                                Verdict(BlockedEither(w.blocks, a, b), w.now + BLOCK_CACHE_SECONDS)])
  {
    assert Warmed(v, a, b).verdicts
        == w.verdicts[Key(a, b) := Verdict(BlockedEither(w.blocks, a, b), w.now + BLOCK_CACHE_SECONDS)];
  }

  lemma LeavingHandlerDoesItsPart(bus: Bus, h: Handler, e: Event, w: World, done: set<Handler>)
    requires (e.Bans? || e.Deactivates? || e.RequestsDeletion?) && h in Expected(Name(e))
    ensures Handle(bus, h, e, Part(e, w, done)) == Ok(Part(e, w, done + {h}))
  {
    var u := e.user;
    assert EndedOf(EndedOf(w.matches, u), u) == EndedOf(w.matches, u);
    assert ClosedOf(ClosedOf(w.conversations, u), u) == ClosedOf(w.conversations, u);
  }

  lemma PlainHandlerDoesItsPart(bus: Bus, h: Handler, e: Event, w: World, done: set<Handler>)
    requires (e.SwipeSent? || e.Ends?) && h in Expected(Name(e))
    ensures Handle(bus, h, e, Part(e, w, done)) == Ok(Part(e, w, done + {h}))
  {
    match e
    case SwipeSent(_, sender) => DroppedTwice(w.feeds, {sender});
    case Ends(m) => ClosedTwice(w.conversations, m);
  }

  // Handlers that publish nothing: each does its part, once or again.
  lemma HandlerDoesItsPart(bus: Bus, h: Handler, e: Event, w: World, done: set<Handler>)
    requires h in Expected(Name(e)) && h != EndMatchOnBlock
    ensures Handle(bus, h, e, Part(e, w, done)) == Ok(Part(e, w, done + {h}))
  {
    hide Part, Handle;
    match e
    case Created(_, _, _) => CreatedHandlerDoesItsPart(bus, h, e, w, done);
    case Blocks(_, _) => BlockHandlerDoesItsPart(bus, h, e, w, done);
    case Bans(_) => LeavingHandlerDoesItsPart(bus, h, e, w, done);
    case Deactivates(_) => LeavingHandlerDoesItsPart(bus, h, e, w, done);
    case RequestsDeletion(_) => LeavingHandlerDoesItsPart(bus, h, e, w, done);
    case _ => PlainHandlerDoesItsPart(bus, h, e, w, done);
  }

  // ---- ending a pair's matches ----------------------------------------------------------------------

  function EndedUpTo(ms: seq<Match>, a: Id, b: Id, n: nat): seq<Match> {
    seq(|ms|, i requires 0 <= i < |ms| => if i < n && LiveBetween(ms[i], a, b) then Ended(ms[i], Blocked, a) else ms[i])
  }

  function ClosedUpTo(cs: seq<Conversation>, ms: seq<Match>, a: Id, b: Id, n: nat): seq<Conversation> {
    seq(|cs|, i requires 0 <= i < |cs| =>
      ClosedIf(cs[i], CutOff(cs[i], ms, a, b) && cs[i].matchId.value < n))
  }

  lemma {:induction false} EndPairIs(bus: Bus, w: World, a: Id, b: Id, n: nat)
    requires Wired(bus) && n <= |w.matches|
    ensures EndPair(bus, w, a, b, w.matches, n)
            == w.(matches := EndedUpTo(w.matches, a, b, n),
                  conversations := ClosedUpTo(w.conversations, w.matches, a, b, n))
  {
    if n == 0 {
      assert EndedUpTo(w.matches, a, b, 0) == w.matches;
      assert ClosedUpTo(w.conversations, w.matches, a, b, 0) == w.conversations;
    } else {
      EndPairIs(bus, w, a, b, n - 1);
      var ms, cs := EndedUpTo(w.matches, a, b, n - 1), ClosedUpTo(w.conversations, w.matches, a, b, n - 1);
      if LiveBetween(w.matches[n - 1], a, b) {
        assert EndedUpTo(w.matches, a, b, n) == ms[n - 1 := Ended(ms[n - 1], Blocked, a)];
        assert ClosedUpTo(w.conversations, w.matches, a, b, n) == ClosedFor(cs, n - 1);
        EndingIsItsEffect(bus, n - 1, w.(matches := ms[n - 1 := Ended(ms[n - 1], Blocked, a)], conversations := cs));
      } else {
        assert EndedUpTo(w.matches, a, b, n) == ms;
        assert ClosedUpTo(w.conversations, w.matches, a, b, n) == cs;
      }
    }
  }

  lemma {:induction false} EndingIsItsPart(bus: Bus, m: nat, w: World, n: nat)
    requires Wired(bus) && n <= |HandlersOf(bus, MatchEnded)|
    ensures Dispatch(bus, Ends(m), n, w) == Part(Ends(m), w, Related(HandlersOf(bus, MatchEnded), n))
  {
    if n > 0 {
      EndingIsItsPart(bus, m, w, n - 1);
      var hs := HandlersOf(bus, MatchEnded);
      RelatedGrows(hs, n, |hs|);
      if !hs[n - 1].Unrelated? {
        RelatedIs(hs, n, hs[n - 1]);
        HandlerDoesItsPart(bus, hs[n - 1], Ends(m), w, Related(hs, n - 1));
      }
    }
  }

  lemma {:induction false} RelatedGrows(hs: seq<Handler>, n: nat, m: nat)
    requires n <= m <= |hs|
    ensures Related(hs, n) <= Related(hs, m)
  {
    if n < m { RelatedGrows(hs, n, m - 1); }
  }

  lemma EndingIsItsEffect(bus: Bus, m: nat, w: World)
    requires Wired(bus)
    ensures Publish(bus, Ends(m), w) == AfterEnd(w, m)
  {
    var hs := HandlersOf(bus, MatchEnded);
    EndingIsItsPart(bus, m, w, |hs|);
    WholeIsEffect(Ends(m), w);
  }

  lemma EndMatchDoesItsPart(bus: Bus, a: Id, b: Id, w: World, done: set<Handler>)
    requires Wired(bus)
    ensures Handle(bus, EndMatchOnBlock, Blocks(a, b), Part(Blocks(a, b), w, done))
            == Ok(Part(Blocks(a, b), w, done + {EndMatchOnBlock}))
  {
    hide Wired, EndPair, Asked;
    var v := Part(Blocks(a, b), w, done);
    EndPairIs(bus, v, a, b, |v.matches|);
    assert EndedUpTo(v.matches, a, b, |v.matches|) == EndedBetween(w.matches, a, b);
    assert ClosedUpTo(v.conversations, v.matches, a, b, |v.matches|) == ClosedBetween(w.conversations, w.matches, a, b);
  }

  // ---- the theorem -----------------------------------------------------------------------------------

  lemma {:induction false} DispatchIsPart(bus: Bus, e: Event, n: nat, w: World)
    requires Wired(bus) && n <= |HandlersOf(bus, Name(e))|
    ensures Dispatch(bus, e, n, w) == Part(e, w, Related(HandlersOf(bus, Name(e)), n))
  {
    if n > 0 {
      DispatchIsPart(bus, e, n - 1, w);
      hide Part, Expected;
      var hs := HandlersOf(bus, Name(e));
      RelatedGrows(hs, n, |hs|);
      RelatedIs(hs, n, hs[n - 1]);
      if hs[n - 1] == EndMatchOnBlock {
        OnlyBlocksEndOnBlock(e);
        EndMatchDoesItsPart(bus, e.blocker, e.blocked, w, Related(hs, n - 1));
      } else if !hs[n - 1].Unrelated? {
        HandlerDoesItsPart(bus, hs[n - 1], e, w, Related(hs, n - 1));
      }
    } else {
      EmptyPart(e, w);
    }
  }

  lemma OnlyBlocksEndOnBlock(e: Event)
    ensures EndMatchOnBlock in Expected(Name(e)) ==> e.Blocks?
  {}

  // Whatever the order of its handlers, whichever others stand between them and whichever of those
  // raise, an event has the same effect.
  lemma PublishIsItsEffect(bus: Bus, e: Event, w: World)
    requires Wired(bus)
    ensures Publish(bus, e, w) == Effect(e, w)
  {
    var hs := HandlersOf(bus, Name(e));
    DispatchIsPart(bus, e, |hs|, w);
    WholeIsEffect(e, w);
  }
}
