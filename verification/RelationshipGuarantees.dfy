/** What members can rely on, over every run of swipes, rewinds, unmatches, blocks, bans, chats and feeds. */
module RelationshipGuarantees {
  import opened Wrappers
  import opened Relationship
  import opened RelationshipInvariants

  // ---- feeds -------------------------------------------------------------------------------------

  // A cached feed never holds anyone its owner must not see, however long ago it was built.
  lemma CachedFeedsHideTheExcluded(w: World, u: Id)
    requires Reachable(w)
    ensures u in w.feeds ==> forall x | x in w.feeds[u].ids :: x !in ExcludedIds(w, u)
  {
    hide Reachable, ExcludedIds, Hidden;
    ReachableIsCoherent(w);
    if u in w.feeds {
      forall x | x in w.feeds[u].ids ensures x !in ExcludedIds(w, u) {
        ExcludedIsHidden(w, u, x);
      }
    }
  }

  // Nor does any list that is handed out, cached or new.
  lemma NobodyExcludedIsServed(w: World, u: Id, limit: nat, refresh: bool, dateable: set<Id>, order: seq<Id>)
    requires Reachable(w)
    ensures var served := DoBuildFeed(w, u, limit, refresh, dateable, order);
            && served.result.Ok?
            && |served.result.value| <= limit
            && forall x | x in served.result.value :: x !in ExcludedIds(w, u) && x !in ExcludedIds(served.world, u)
  {
    hide Reachable, ExcludedIds;
    CachedFeedsHideTheExcluded(w, u);
    SameExclusions(w, DoBuildFeed(w, u, limit, refresh, dateable, order).world, u);
  }

  lemma SameExclusions(w: World, v: World, u: Id)
    requires w.likes == v.likes && w.matches == v.matches && w.blocks == v.blocks
    ensures ExcludedIds(w, u) == ExcludedIds(v, u)
  {}

  // ---- matches -----------------------------------------------------------------------------------

  // An active match is mutual and unblocked; two standing likes have exactly one match row.
  lemma MatchesAreMutual(w: World, a: Id, b: Id)
    requires Reachable(w)
    ensures AreMatched(w.matches, a, b) ==>
              Keen(w.likes, a, b) && Keen(w.likes, b, a) && !BlockedEither(w.blocks, a, b)
    ensures Keen(w.likes, a, b) && Keen(w.likes, b, a) ==> HasMatch(w.matches, a, b)
    ensures forall i, j | 0 <= i < |w.matches| && 0 <= j < |w.matches| ::
              Joins(w.matches[i], a, b) && Joins(w.matches[j], a, b) ==> i == j
  {
    hide Reachable, ConversationsOk, Threaded, FeedsOk, LikesOk;
    ReachableIsCoherent(w);
  }

  // A swipe that reports a match leaves that match active; it does so exactly when the other side's
  // like already stands.
  lemma SwipeMatchesExactlyWhenAnswered(w: World, a: Id, b: Id, kind: Kind, limits: Limits)
    requires Coherent(w)
    ensures var done := DoSwipe(w, a, b, kind, limits);
            && (done.result.Ok? ==>
                  && (done.result.value.Some? <==> kind != Pass && Keen(w.likes, b, a))
                  && (kind != Pass <==> Keen(done.world.likes, a, b))
                  && (kind == Pass <==> PassedOn(done.world.likes, a, b))
                  && (done.result.value.Some? ==>
                        var m := done.result.value.value;
                        m < |done.world.matches| && LiveBetween(done.world.matches[m], a, b)))
            && (done.result.Err? ==>
                  done.world == w || done.world == Asked(w, a, b))
  {
    hide Coherent, Housed, WithMatch, MatchIdOf, ConversationsOk, Threaded, FeedsOk, Answered, Earned;
    var done := DoSwipe(w, a, b, kind, limits);
    if done.result.Ok? {
      SentIntent(Asked(w, a, b), a, b, kind);
      RecordingChangesOneIntent(Asked(w, a, b), a, b, kind, a, b);
      MatchesStayOk(w);
      MatchingIsExact(w.matches, a, b);
      AlreadyLive(w.matches, a, b);
    }
  }

  lemma MatchesStayOk(w: World)
    requires Coherent(w)
    ensures MatchesOk(w.matches)
  {}

  lemma AlreadyLive(ms: seq<Match>, a: Id, b: Id)
    ensures !Starts(ms, a, b) ==> WithMatch(ms, a, b) == ms
  {}

  // ---- conversations -----------------------------------------------------------------------------

  lemma OneConversationPerPair(w: World, a: Id, b: Id)
    requires Reachable(w)
    ensures forall i, j | 0 <= i < |w.conversations| && 0 <= j < |w.conversations| ::
              Shares(w.conversations[i], a, b) && Shares(w.conversations[j], a, b) ==> i == j
  {
    hide Reachable, Threaded, FeedsOk, LikesOk, MatchesOk;
    ReachableIsCoherent(w);
  }

  // The stored counters are the number of messages, and of those each member has not read.
  lemma CountersAreTrue(w: World, k: nat)
    requires Reachable(w) && k < |w.conversations|
    ensures var c := w.conversations[k];
            && c.count == |c.messages|
            && c.unreadLow == Unread(c.messages, c.low)
            && c.unreadHigh == Unread(c.messages, c.high)
  {
    hide Reachable, Threaded, FeedsOk, LikesOk, MatchesOk;
    ReachableIsCoherent(w);
  }

  // A match takes over the thread its pair already has: same conversation, same messages, same counters.
  lemma MatchAdoptsTheThread(w: World, a: Id, b: Id, k: nat)
    requires Coherent(w) && a != b && k < |w.conversations| && Shares(w.conversations[k], a, b)
    ensures var before, after := w.conversations[k], Matched(w, a, b).conversations;
            && |after| == |w.conversations|
            && after[k] == before.(matchId := Some(MatchIdOf(w.matches, a, b)), open := after[k].open)
            && forall i | 0 <= i < |after| && i != k :: after[i] == w.conversations[i]
  {
    hide Coherent, MatchIdOf, Housed, Starts, WithMatch, HasMatch, Threaded;
    var cs, ms, m := w.conversations, w.matches, MatchIdOf(w.matches, a, b);
    TablesOf(w);
    MatchIdIs(ms, a, b);
    assert Between(cs, a, b, |cs|) == Some(k);
    if m < |ms| {
      ThreadOfAPair(cs, ms, m, a, b);
      HousedAlready(cs, ms, a, b, m);
    } else {
      NoActiveWithoutRow(ms, a, b);
      FirstMatchAdopts(cs, ms, a, b, k);
    }
  }

  lemma NoActiveWithoutRow(ms: seq<Match>, a: Id, b: Id)
    requires !HasMatch(ms, a, b)
    ensures Starts(ms, a, b)
  {}

  // Whether the pair can talk after a match starts.  A first match always opens a conversation.  A
  // revived one leaves its conversation as it was: closed, if ending the match had closed it.
  lemma RevivalOpensNothing(w: World, a: Id, b: Id)
    requires Coherent(w) && a != b && Starts(w.matches, a, b)
    ensures var cs := Matched(w, a, b).conversations;
            var k := Between(cs, a, b, |cs|);
            && k.Some?
            && (cs[k.value].open <==>
                  HasMatch(w.matches, a, b) ==> k.value < |w.conversations| && w.conversations[k.value].open)
  {
    hide Coherent, MatchIdOf, Housed, Starts, WithMatch, HasMatch, MatchesOk, ConversationsOk, Threaded;
    var cs, ms, m := w.conversations, w.matches, MatchIdOf(w.matches, a, b);
    var k := Between(cs, a, b, |cs|);
    TablesOf(w);
    MatchIdIs(ms, a, b);
    if m < |ms| {
      ThreadOfAPair(cs, ms, m, a, b);
      HousedAlready(cs, ms, a, b, m);
    } else if k.Some? {
      FirstMatchAdopts(cs, ms, a, b, k.value);
      StillBetween(cs, Housed(cs, m, Key(a, b).0, Key(a, b).1), a, b);
    } else {
      FirstMatchOpens(cs, ms, a, b);
      LastBetween(cs, NewConversation(a, b, Some(m)), a, b);
    }
  }

  lemma TablesOf(w: World)
    requires Coherent(w)
    ensures ConversationsOk(w.conversations) && MatchesOk(w.matches) && Threaded(w.conversations, w.matches)
  {}

  lemma MatchIdIs(ms: seq<Match>, a: Id, b: Id)
    ensures var m := MatchIdOf(ms, a, b);
            && (m < |ms| ==> Joins(ms[m], a, b) && HasMatch(ms, a, b))
            && (m >= |ms| ==> m == |ms| && !HasMatch(ms, a, b))
  {}

  lemma FirstMatchAdopts(cs: seq<Conversation>, ms: seq<Match>, a: Id, b: Id, k: nat)
    requires Threaded(cs, ms) && !HasMatch(ms, a, b) && Between(cs, a, b, |cs|) == Some(k)
    ensures Housed(cs, |ms|, Key(a, b).0, Key(a, b).1) == cs[k := cs[k].(matchId := Some(|ms|), open := true)]
  {
    BetweenKey(cs, a, b, |cs|);
    NoMatchNoThread(cs, ms, a, b, k);
    assert ThreadOf(cs, |ms|, |cs|).None?;
  }

  lemma FirstMatchOpens(cs: seq<Conversation>, ms: seq<Match>, a: Id, b: Id)
    requires Threaded(cs, ms) && Between(cs, a, b, |cs|).None?
    ensures Housed(cs, |ms|, Key(a, b).0, Key(a, b).1) == cs + [NewConversation(a, b, Some(|ms|))]
  {
    BetweenKey(cs, a, b, |cs|);
    assert ThreadOf(cs, |ms|, |cs|).None?;
  }

  lemma {:induction false} SameBetween(cs: seq<Conversation>, ds: seq<Conversation>, a: Id, b: Id, n: nat)
    requires n <= |cs| && n <= |ds|
    requires forall i | 0 <= i < n :: cs[i].low == ds[i].low && cs[i].high == ds[i].high
    ensures Between(cs, a, b, n) == Between(ds, a, b, n)
  {
    if n > 0 { SameBetween(cs, ds, a, b, n - 1); }
  }

  lemma StillBetween(cs: seq<Conversation>, ds: seq<Conversation>, a: Id, b: Id)
    requires |cs| == |ds| && forall i | 0 <= i < |cs| :: cs[i].low == ds[i].low && cs[i].high == ds[i].high
    ensures Between(cs, a, b, |cs|) == Between(ds, a, b, |ds|)
  {
    SameBetween(cs, ds, a, b, |cs|);
  }

  lemma LastBetween(cs: seq<Conversation>, c: Conversation, a: Id, b: Id)
    requires Shares(c, a, b)
    ensures Between(cs + [c], a, b, |cs| + 1) == Some(|cs|)
  {}

  // ---- blocks ------------------------------------------------------------------------------------

  // A new block cuts everything between the two at once.
  lemma BlockCutsEverything(w: World, a: Id, b: Id)
    requires Coherent(w) && a != b && (a, b) !in w.blocks
    ensures var v := DoBlock(w, a, b).world;
            && BlockedEither(v.blocks, a, b) && SaysBlocked(v, a, b) && SaysBlocked(v, b, a)
            && (a, b) !in v.likes && (b, a) !in v.likes
            && !AreMatched(v.matches, a, b)
            && a !in v.feeds && b !in v.feeds
            && (AreMatched(w.matches, a, b) ==>
                  exists k ::
                    0 <= k < |v.conversations| && Shares(v.conversations[k], a, b) && !v.conversations[k].open)
  {
    hide Earned, FeedsOk, Answered, LikesOk;
    NoneLiveBetween(w.matches, a, b);
    if AreMatched(w.matches, a, b) {
      var m :| 0 <= m < |w.matches| && LiveBetween(w.matches[m], a, b);
      ThreadOfAPair(w.conversations, w.matches, m, a, b);
      var k := ThreadOf(w.conversations, m, |w.conversations|).value;
      assert CutOff(w.conversations[k], w.matches, a, b);
      var closed := ClosedBetween(w.conversations, w.matches, a, b);
      assert Shares(closed[k], a, b) && !closed[k].open;
    }
  }

  // Messages the two have exchanged.
  function Exchanged(cs: seq<Conversation>, a: Id, b: Id): nat {
    match Between(cs, a, b, |cs|) case Some(k) => |cs[k].messages| case None => 0
  }

  // No like row, no active match.
  predicate Apart(w: World, a: Id, b: Id) {
    (a, b) !in w.likes && (b, a) !in w.likes && !AreMatched(w.matches, a, b)
  }

  lemma BlockedAreApart(w: World, a: Id, b: Id)
    requires Coherent(w) && BlockedEither(w.blocks, a, b)
    ensures Apart(w, a, b) && SaysBlocked(w, a, b) && SaysBlocked(w, b, a)
  {
    hide ConversationsOk, Threaded, FeedsOk, Answered, LikesOk;
  }

  // From cs to ds nothing was said between a and b, and no conversation of theirs was opened.
  ghost predicate Quiet(cs: seq<Conversation>, ds: seq<Conversation>, a: Id, b: Id) {
    && |cs| <= |ds|
    && (forall i | 0 <= i < |cs| :: cs[i].low == ds[i].low && cs[i].high == ds[i].high)
    && (forall i | 0 <= i < |cs| && Shares(cs[i], a, b) :: |cs[i].messages| == |ds[i].messages|)
    && forall i | |cs| <= i < |ds| :: !Shares(ds[i], a, b)
  }

  lemma QuietKeepsExchanged(cs: seq<Conversation>, ds: seq<Conversation>, a: Id, b: Id)
    requires Quiet(cs, ds, a, b)
    ensures Exchanged(cs, a, b) == Exchanged(ds, a, b)
  {
    SameBetween(cs, ds, a, b, |cs|);
    TailBetween(ds, a, b, |cs|, |ds|);
  }

  lemma {:induction false} TailBetween(ds: seq<Conversation>, a: Id, b: Id, lo: nat, hi: nat)
    requires lo <= hi <= |ds| && forall i | lo <= i < hi :: !Shares(ds[i], a, b)
    ensures Between(ds, a, b, hi) == Between(ds, a, b, lo)
  {
    if lo < hi { TailBetween(ds, a, b, lo, hi - 1); }
  }

  lemma ClosingIsQuiet(cs: seq<Conversation>, ds: seq<Conversation>, a: Id, b: Id)
    requires OnlyCloses(cs, ds)
    ensures Quiet(cs, ds, a, b)
  {}

  lemma HousingIsQuiet(cs: seq<Conversation>, m: nat, x: Id, y: Id, a: Id, b: Id)
    requires Key(x, y) != Key(a, b)
    ensures Quiet(cs, Housed(cs, m, Key(x, y).0, Key(x, y).1), a, b)
  {}

  // All that a swipe can do to quotas, blocks, verdicts and conversations.
  lemma SwipeTouches(w: World, x: Id, y: Id, kind: Kind, limits: Limits)
    ensures var v := DoSwipe(w, x, y, kind, limits).world;
            && v.now == w.now
            && v.quotas == (if DoSwipe(w, x, y, kind, limits).result.Ok?
                            then w.quotas[x := Consumed(Today(w, x), kind)] else w.quotas)
            && v.blocks == w.blocks && (v.verdicts == w.verdicts || v.verdicts == Asked(w, x, y).verdicts)
            && (v.conversations == w.conversations
                || (x != y && !SaysBlocked(w, x, y)
                    && v.conversations
                       == Housed(w.conversations, MatchIdOf(w.matches, x, y), Key(x, y).0, Key(x, y).1)))
  {
    hide Sent, Matched, Asked, SaysBlocked, Housed, MatchIdOf, Today, MaySwipe, MaySay, Keen, Consumed;
    AskedTouches(w, x, y);
    SentTouches(Asked(w, x, y), x, y, kind);
    MatchedTouches(Sent(Asked(w, x, y), x, y, kind), x, y);
  }

  lemma SentTouches(w: World, x: Id, y: Id, kind: Kind)
    ensures var v := Sent(w, x, y, kind);
            && v.now == w.now && v.quotas == w.quotas[x := Consumed(Today(w, x), kind)]
            && v.blocks == w.blocks && v.verdicts == w.verdicts
            && v.matches == w.matches && v.conversations == w.conversations
  {}

  lemma AskedTouches(w: World, x: Id, y: Id)
    ensures var v := Asked(w, x, y);
            && v.now == w.now && v.quotas == w.quotas && (forall u :: Today(v, u) == Today(w, u))
            && v.blocks == w.blocks && v.matches == w.matches && v.conversations == w.conversations
  {}

  lemma MatchedTouches(w: World, x: Id, y: Id)
    ensures var v := Matched(w, x, y);
            && v.now == w.now && v.quotas == w.quotas
            && v.blocks == w.blocks && v.verdicts == w.verdicts
            && (v.conversations == w.conversations
                || v.conversations == Housed(w.conversations, MatchIdOf(w.matches, x, y), Key(x, y).0, Key(x, y).1))
  {
    hide Housed, MatchIdOf, WithMatch, Starts;
  }

  lemma SwipingIsQuiet(w: World, x: Id, y: Id, kind: Kind, limits: Limits, a: Id, b: Id)
    requires a != b && SaysBlocked(w, a, b) && SaysBlocked(w, b, a)
    ensures Quiet(w.conversations, DoSwipe(w, x, y, kind, limits).world.conversations, a, b)
  {
    hide Housed, MatchIdOf, DoSwipe, SaysBlocked;
    SwipeTouches(w, x, y, kind, limits);
    if Key(x, y) == Key(a, b) {
      assert x != y ==> (x, y) == (a, b) || (x, y) == (b, a);
    } else {
      HousingIsQuiet(w.conversations, MatchIdOf(w.matches, x, y), x, y, a, b);
    }
  }

  lemma OpeningIsQuiet(w: World, x: Id, y: Id, a: Id, b: Id)
    requires a != b && SaysBlocked(w, a, b) && SaysBlocked(w, b, a)
    ensures Quiet(w.conversations, DoOpenChat(w, x, y).world.conversations, a, b)
  {
    if Key(x, y) == Key(a, b) {
      assert (x, y) == (a, b) || (x, y) == (b, a);
    }
  }

  lemma SendingIsQuiet(w: World, u: Id, k: nat, body: Content, withinPlan: bool, a: Id, b: Id)
    requires a != b && SaysBlocked(w, a, b) && SaysBlocked(w, b, a)
    ensures Quiet(w.conversations, DoSend(w, u, k, body, withinPlan).world.conversations, a, b)
  {
    if k < |w.conversations| && IsMember(w.conversations[k], u) && Shares(w.conversations[k], a, b) {
      var other := OtherMember(w.conversations[k], u);
      assert (u, other) == (a, b) || (u, other) == (b, a);
    }
  }

  lemma StepIsQuiet(w: World, s: Step, a: Id, b: Id)
    requires a != b && SaysBlocked(w, a, b) && SaysBlocked(w, b, a)
    ensures Quiet(w.conversations, Next(w, s).conversations, a, b)
  {
    hide Quiet, SaysBlocked, DoSwipe, DoOpenChat, DoSend, DoRead, OnlyCloses;
    var cs, ds := w.conversations, Next(w, s).conversations;
    match s
    case SwipeStep(x, y, kind, limits) => SwipingIsQuiet(w, x, y, kind, limits, a, b);
    case OpenChatStep(x, y) => OpeningIsQuiet(w, x, y, a, b);
    case SendStep(u, k, body, withinPlan) => SendingIsQuiet(w, u, k, body, withinPlan, a, b);
    case ReadStep(u, k) => ReadingIsQuiet(w, u, k, a, b);
    case _ =>
      hide Next;
      OtherStepsOnlyClose(w, s);
      ClosingIsQuiet(cs, ds, a, b);
  }

  lemma OtherStepsOnlyClose(w: World, s: Step)
    requires !s.SwipeStep? && !s.OpenChatStep? && !s.SendStep? && !s.ReadStep?
    ensures OnlyCloses(w.conversations, Next(w, s).conversations)
  {
    hide OnlyCloses, ClosedFor, ClosedBetween, ClosedOf, Archived, ExcludedIds, Latest, AreMatched, Today, EndedBetween,
         EndedOf, SaysBlocked, DoSwipe, DoOpenChat, DoSend, DoRead;
    NoChangeOnlyCloses(w.conversations);
    match s
    case UnmatchStep(_, m) => PartingOnlyCloses(w, m, 0, 0);
    case BlockStep(x, y) => PartingOnlyCloses(w, 0, x, y);
    case BanStep(u) => PartingOnlyCloses(w, 0, u, 0);
    case RequestDeletionStep(u) => PartingOnlyCloses(w, 0, u, 0);
    case ArchiveStep(stale) => ArchivingOnlyCloses(w.conversations, stale);
    case _ =>
  }

  lemma NoChangeOnlyCloses(cs: seq<Conversation>)
    ensures OnlyCloses(cs, cs)
  {}

  lemma ArchivingOnlyCloses(cs: seq<Conversation>, stale: set<nat>)
    ensures OnlyCloses(cs, Archived(cs, stale))
  {}

  lemma PartingOnlyCloses(w: World, m: nat, x: Id, y: Id)
    ensures OnlyCloses(w.conversations, ClosedFor(w.conversations, m))
    ensures OnlyCloses(w.conversations, ClosedBetween(w.conversations, w.matches, x, y))
    ensures OnlyCloses(w.conversations, ClosedOf(w.conversations, x))
  {}

  lemma ReadingIsQuiet(w: World, u: Id, k: nat, a: Id, b: Id)
    ensures Quiet(w.conversations, DoRead(w, u, k).conversations, a, b)
  {}

  // What each step does to the block table.
  lemma StepOnBlocks(w: World, s: Step)
    ensures Next(w, s).blocks ==
            match s
            case BlockStep(a, b) => if a == b then w.blocks else w.blocks + {(a, b)}
            case UnblockStep(a, b) => w.blocks - {(a, b)}
            case _ => w.blocks
  {
    hide DoSwipe, ExcludedIds, Latest, SaysBlocked, Today;
    if s.SwipeStep? {
      SwipeTouches(w, s.sender, s.receiver, s.kind, s.limits);
    }
  }

  // Only the one who blocked can lift the block.
  lemma OnlyUnblockingLifts(w: World, s: Step, a: Id, b: Id)
    requires (a, b) in w.blocks && (a, b) !in Next(w, s).blocks
    ensures s == UnblockStep(a, b)
  {
    hide Next;
    StepOnBlocks(w, s);
  }

  // While a block stands, no step brings the two together: not a like, not a match, not a message.
  lemma NothingCrossesABlock(w: World, s: Step, a: Id, b: Id)
    requires Coherent(w) && a != b && BlockedEither(w.blocks, a, b)
    ensures Apart(Next(w, s), a, b)
    ensures Exchanged(Next(w, s).conversations, a, b) == Exchanged(w.conversations, a, b)
  {
    hide Coherent, Next, SaysBlocked, Quiet, Exchanged, Apart;
    BlockedAreApart(w, a, b);
    StepIsQuiet(w, s, a, b);
    QuietKeepsExchanged(w.conversations, Next(w, s).conversations, a, b);
    if BlockedEither(Next(w, s).blocks, a, b) {
      StepKeepsCoherent(w, s);
      BlockedAreApart(Next(w, s), a, b);
    } else if (a, b) in w.blocks {
      OnlyUnblockingLifts(w, s, a, b);
      UnblockingConnectsNothing(w, a, b, a, b);
    } else {
      OnlyUnblockingLifts(w, s, b, a);
      UnblockingConnectsNothing(w, b, a, a, b);
    }
  }

  lemma UnblockingConnectsNothing(w: World, x: Id, y: Id, a: Id, b: Id)
    requires Apart(w, a, b)
    ensures Apart(Next(w, UnblockStep(x, y)), a, b)
  {}

  // For as long as a block stands in a run, the two stay apart and nothing is said.
  lemma {:induction false} SilentWhileBlocked(start: World, steps: seq<Step>, i: nat, j: nat, a: Id, b: Id)
    requires Fresh(start) && i <= j <= |steps| && a != b
    requires forall k | i <= k < j :: BlockedEither(Run(start, steps, k).blocks, a, b)
    ensures i < j ==> Apart(Run(start, steps, j), a, b)
    ensures Exchanged(Run(start, steps, j).conversations, a, b) == Exchanged(Run(start, steps, i).conversations, a, b)
  {
    hide Run, Coherent, Next, Exchanged, Apart, Fresh;
    if i < j {
      SilentWhileBlocked(start, steps, i, j - 1, a, b);
      EveryRunIsCoherent(start, steps, j - 1);
      RunEnds(start, steps, j);
      NothingCrossesABlock(Run(start, steps, j - 1), steps[j - 1], a, b);
    }
  }

  lemma RunEnds(start: World, steps: seq<Step>, n: nat)
    requires 0 < n <= |steps|
    ensures Run(start, steps, n) == Next(Run(start, steps, n - 1), steps[n - 1])
  {}

  // ---- the verdict cache -------------------------------------------------------------------------

  ghost predicate Exact(w: World) {
    forall a, b | Key(a, b) in w.verdicts :: w.verdicts[Key(a, b)].blocked == BlockedEither(w.blocks, a, b)
  }

  // What each step does to the cached verdicts, blocking and failed reports apart.
  lemma StepOnVerdicts(w: World, s: Step)
    requires !s.BlockStep? && !s.UnblockStep? && !s.FailedReportStep?
    ensures var verdicts := Next(w, s).verdicts;
            verdicts == w.verdicts || exists a, b :: verdicts == Asked(w, a, b).verdicts
  {
    hide DoSwipe, ExcludedIds, Latest, SaysBlocked, Today;
    if s.SwipeStep? {
      SwipeTouches(w, s.sender, s.receiver, s.kind, s.limits);
    }
  }

  lemma BlockingKeepsExact(w: World, a: Id, b: Id)
    requires Exact(w)
    ensures Exact(Next(w, BlockStep(a, b))) && Exact(Next(w, UnblockStep(a, b)))
  {}

  lemma SameTablesStayExact(w: World, v: World)
    requires Exact(w) && v.blocks == w.blocks
    requires v.verdicts == w.verdicts || exists a, b :: v.verdicts == Asked(w, a, b).verdicts
    ensures Exact(v)
  {}

  lemma StepKeepsExact(w: World, s: Step)
    requires Exact(w) && !s.FailedReportStep?
    ensures Exact(Next(w, s))
  {
    hide Next, Exact, Asked;
    match s
    case BlockStep(a, b) => BlockingKeepsExact(w, a, b);
    case UnblockStep(a, b) => BlockingKeepsExact(w, a, b);
    case _ =>
      StepOnBlocks(w, s);
      StepOnVerdicts(w, s);
      SameTablesStayExact(w, Next(w, s));
  }

  // Without a failed report, the cached verdict is the block table.
  lemma {:induction false} VerdictIsTheBlockTable(start: World, steps: seq<Step>, n: nat)
    requires Fresh(start) && n <= |steps|
    requires forall k | 0 <= k < n :: !steps[k].FailedReportStep?
    ensures Exact(Run(start, steps, n))
    ensures forall a, b :: SaysBlocked(Run(start, steps, n), a, b) == BlockedEither(Run(start, steps, n).blocks, a, b)
  {
    if n > 0 {
      VerdictIsTheBlockTable(start, steps, n - 1);
      hide Exact, Next;
      StepKeepsExact(Run(start, steps, n - 1), steps[n - 1]);
    }
    ExactSays(Run(start, steps, n));
  }

  lemma ExactSays(w: World)
    requires Exact(w)
    ensures forall a, b :: SaysBlocked(w, a, b) == BlockedEither(w.blocks, a, b)
  {}

  // A report that fails after blocking leaves no block but a verdict that says so, for exactly as long
  // as the cache keeps it.
  lemma FailedReportRefusesFor300Seconds(w: World, a: Id, b: Id, seconds: nat)
    requires a != b && !BlockedEither(w.blocks, a, b)
    ensures var later := Next(FailedReport(w, a, b), TickStep(seconds));
            && !BlockedEither(later.blocks, a, b)
            && (SaysBlocked(later, a, b) <==> seconds < BLOCK_CACHE_SECONDS)
  {}
}
