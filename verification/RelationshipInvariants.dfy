/** Every step keeps the five modules coherent: table by table, then step by step, then over all runs. */
module RelationshipInvariants {
  import opened Wrappers
  import opened Relationship

  // ---- the verdict cache -------------------------------------------------------------------------

  lemma AskingKeepsSafe(w: World, a: Id, b: Id)
    requires Safe(w.verdicts, w.blocks)
    ensures Safe(Asked(w, a, b).verdicts, w.blocks)
    ensures SaysBlocked(Asked(w, a, b), a, b) == SaysBlocked(w, a, b)
    ensures BlockedEither(w.blocks, a, b) ==> SaysBlocked(w, a, b)
  {}

  // ---- likes -------------------------------------------------------------------------------------

  lemma RecordingKeepsLikes(w: World, a: Id, b: Id, kind: Kind)
    requires a != b && LikesOk(w.likes, w.stamp)
    ensures LikesOk(Recorded(w, a, b, kind).likes, Recorded(w, a, b, kind).stamp)
  {}

  // Only an intent that may be said is recorded, so no earned match loses a side.
  lemma RecordingKeepsEarned(w: World, a: Id, b: Id, kind: Kind, ms: seq<Match>)
    requires Earned(ms, w.likes, w.blocks) && MaySay(w.likes, a, b, kind)
    ensures Earned(ms, Recorded(w, a, b, kind).likes, w.blocks)
  {}

  lemma RecordingChangesOneIntent(w: World, a: Id, b: Id, kind: Kind, x: Id, y: Id)
    ensures Keen(Recorded(w, a, b, kind).likes, x, y)
            == if (x, y) == (a, b) then kind != Pass else Keen(w.likes, x, y)
    ensures PassedOn(Recorded(w, a, b, kind).likes, x, y)
            == if (x, y) == (a, b) then kind == Pass else PassedOn(w.likes, x, y)
  {}

  lemma RecordingKeepsAnswered(w: World, a: Id, b: Id, kind: Kind, ms: seq<Match>)
    requires Answered(w.likes, ms)
    requires kind != Pass && Keen(w.likes, b, a) ==> HasMatch(ms, a, b) && HasMatch(ms, b, a)
    requires a != b
    ensures Answered(Recorded(w, a, b, kind).likes, ms)
  {
    var likes := Recorded(w, a, b, kind).likes;
    forall x, y | Keen(likes, x, y) && Keen(likes, y, x) ensures HasMatch(ms, x, y) {
      RecordingChangesOneIntent(w, a, b, kind, x, y);
      RecordingChangesOneIntent(w, a, b, kind, y, x);
    }
  }

  lemma RewindingKeepsLikes(w: World, u: Id, r: Id)
    requires (u, r) in w.likes && LikesOk(w.likes, w.stamp)
    ensures LikesOk(Rewound(w, u, r).likes, w.stamp)
  {}

  // ---- matches -----------------------------------------------------------------------------------

  ghost predicate SamePairs(ms: seq<Match>, ns: seq<Match>) {
    |ms| == |ns| && forall i | 0 <= i < |ms| :: ms[i].low == ns[i].low && ms[i].high == ns[i].high
  }

  // Rows that are not active now were ended by somebody; the others are as they were.
  ghost predicate OnlyEnds(ms: seq<Match>, ns: seq<Match>) {
    && SamePairs(ms, ns)
    && forall i | 0 <= i < |ms| :: ns[i] == ms[i] || (ns[i].status != Active && ns[i].endedBy.Some?)
  }

  lemma EndingKeepsMatches(ms: seq<Match>, ns: seq<Match>, likes: Likes, blocks: Blocks)
    requires OnlyEnds(ms, ns)
    ensures MatchesOk(ms) ==> MatchesOk(ns)
    ensures Earned(ms, likes, blocks) ==> Earned(ns, likes, blocks)
  {}

  lemma SamePairsSameMatches(ms: seq<Match>, ns: seq<Match>, a: Id, b: Id)
    requires SamePairs(ms, ns)
    ensures HasMatch(ms, a, b) == HasMatch(ns, a, b)
  {
    if HasMatch(ms, a, b) {
      var i :| 0 <= i < |ms| && Joins(ms[i], a, b);
      assert Joins(ns[i], a, b);
    }
    if HasMatch(ns, a, b) {
      var i :| 0 <= i < |ns| && Joins(ns[i], a, b);
      assert Joins(ms[i], a, b);
    }
  }

  lemma SamePairsKeepAnswered(ms: seq<Match>, ns: seq<Match>, likes: Likes)
    requires SamePairs(ms, ns) && Answered(likes, ms)
    ensures Answered(likes, ns)
  {
    forall a, b | Keen(likes, a, b) && Keen(likes, b, a) ensures HasMatch(ns, a, b) {
      SamePairsSameMatches(ms, ns, a, b);
    }
  }

  lemma SamePairsKeepFeeds(ms: seq<Match>, ns: seq<Match>, feeds: map<Id, Feed>, likes: Likes, blocks: Blocks)
    requires SamePairs(ms, ns) && FeedsOk(feeds, likes, ms, blocks)
    ensures FeedsOk(feeds, likes, ns, blocks)
  {
    forall u, x | u in feeds && x in feeds[u].ids ensures !Hidden(likes, ns, blocks, u, x) {
      SamePairsSameMatches(ms, ns, u, x);
    }
  }

  lemma SamePairsKeepThreaded(ms: seq<Match>, ns: seq<Match>, cs: seq<Conversation>)
    requires SamePairs(ms, ns) && Threaded(cs, ms)
    ensures Threaded(cs, ns)
  {}

  // Creating or reviving adds at most the row of the pair, which is active afterwards.
  lemma MatchingIsExact(ms: seq<Match>, a: Id, b: Id)
    requires a != b && MatchesOk(ms)
    ensures var ns, m := WithMatch(ms, a, b), MatchIdOf(ms, a, b);
            && MatchesOk(ns)
            && m < |ns| && Joins(ns[m], a, b) && ns[m].status == Active
            && |ms| <= |ns| <= |ms| + 1
            && (|ns| == |ms| + 1 ==> m == |ms|)
            && (forall i | 0 <= i < |ms| && i != m :: ns[i] == ms[i])
            && (forall i | 0 <= i < |ms| :: (ns[i].low, ns[i].high) == (ms[i].low, ms[i].high))
            && MatchIdOf(ns, a, b) == m
  {
    var ns, m := WithMatch(ms, a, b), MatchIdOf(ms, a, b);
    assert FindMatch(ns, a, b, |ns|).Some? by { assert Joins(ns[m], a, b); }
  }

  lemma MatchingKeepsEarned(ms: seq<Match>, a: Id, b: Id, likes: Likes, blocks: Blocks)
    requires a != b && MatchesOk(ms) && Earned(ms, likes, blocks)
    requires Keen(likes, a, b) && Keen(likes, b, a) && !BlockedEither(blocks, a, b)
    ensures Earned(WithMatch(ms, a, b), likes, blocks)
  {
    MatchingIsExact(ms, a, b);
  }

  lemma MatchingAddsOnePair(ms: seq<Match>, a: Id, b: Id, x: Id, y: Id)
    requires a != b && MatchesOk(ms)
    ensures HasMatch(WithMatch(ms, a, b), x, y) <==> HasMatch(ms, x, y) || Key(x, y) == Key(a, b)
  {
    hide WithMatch, MatchIdOf;
    MatchingIsExact(ms, a, b);
    var ns, m := WithMatch(ms, a, b), MatchIdOf(ms, a, b);
    if HasMatch(ns, x, y) {
      var i :| 0 <= i < |ns| && Joins(ns[i], x, y);
      assert i < |ms| ==> Joins(ms[i], x, y);
    }
    if HasMatch(ms, x, y) {
      var i :| 0 <= i < |ms| && Joins(ms[i], x, y);
      assert Joins(ns[i], x, y);
    }
    if Key(x, y) == Key(a, b) {
      assert Joins(ns[m], x, y);
    }
  }

  // ---- conversations -----------------------------------------------------------------------------

  // At most closed: nothing else about a conversation changes.
  ghost predicate OnlyCloses(cs: seq<Conversation>, ds: seq<Conversation>) {
    |cs| == |ds| && forall i | 0 <= i < |cs| :: ds[i] == cs[i] || ds[i] == cs[i].(open := false)
  }

  lemma ClosingKeepsConversations(cs: seq<Conversation>, ds: seq<Conversation>, ms: seq<Match>)
    requires OnlyCloses(cs, ds)
    ensures ConversationsOk(cs) ==> ConversationsOk(ds)
    ensures Threaded(cs, ms) ==> Threaded(ds, ms)
  {
    if Threaded(cs, ms) {
      forall m | 0 <= m < |ms| ensures HasThread(ds, m) {
        assert HasThread(cs, m);
        var i :| 0 <= i < |cs| && BelongsTo(cs[i], m);
        assert BelongsTo(ds[i], m);
      }
    }
  }

  lemma NewConversationIsCounted(a: Id, b: Id, m: Option<nat>)
    requires a != b
    ensures Counted(NewConversation(a, b, m)) && Shares(NewConversation(a, b, m), a, b)
  {}

  lemma OpeningKeepsConversations(cs: seq<Conversation>, ms: seq<Match>, a: Id, b: Id, m: Option<nat>)
    requires a != b && ConversationsOk(cs)
    requires forall i | 0 <= i < |cs| :: !Shares(cs[i], a, b)
    ensures ConversationsOk(cs + [NewConversation(a, b, m)])
  {
    NewConversationIsCounted(a, b, m);
  }

  lemma MoreThreads(cs: seq<Conversation>, c: Conversation, m: nat)
    ensures HasThread(cs, m) ==> HasThread(cs + [c], m)
    ensures BelongsTo(c, m) ==> HasThread(cs + [c], m)
  {
    var ds := cs + [c];
    assert ds[|cs|] == c;
    if HasThread(cs, m) {
      var i :| 0 <= i < |cs| && BelongsTo(cs[i], m);
      assert BelongsTo(ds[i], m);
    }
  }

  lemma OpeningKeepsThreaded(cs: seq<Conversation>, ms: seq<Match>, a: Id, b: Id)
    requires Threaded(cs, ms)
    ensures Threaded(cs + [NewConversation(a, b, None)], ms)
  {
    forall m | 0 <= m < |ms| ensures HasThread(cs + [NewConversation(a, b, None)], m) {
      assert HasThread(cs, m);
      MoreThreads(cs, NewConversation(a, b, None), m);
    }
  }

  // The thread of a match already in the table is the conversation of its pair.
  lemma ThreadOfAPair(cs: seq<Conversation>, ms: seq<Match>, m: nat, a: Id, b: Id)
    requires a != b && ConversationsOk(cs) && MatchesOk(ms) && Threaded(cs, ms)
    requires m < |ms| && Joins(ms[m], a, b)
    ensures ThreadOf(cs, m, |cs|).Some? && Shares(cs[ThreadOf(cs, m, |cs|).value], a, b)
    ensures Between(cs, a, b, |cs|) == ThreadOf(cs, m, |cs|)
  {
    assert HasThread(cs, m);
    var t, k := ThreadOf(cs, m, |cs|), Between(cs, a, b, |cs|);
    assert Shares(cs[t.value], a, b);
    assert k.Some?;
  }

  // A pair without a match has at most a direct conversation.
  lemma NoMatchNoThread(cs: seq<Conversation>, ms: seq<Match>, a: Id, b: Id, k: nat)
    requires Threaded(cs, ms) && !HasMatch(ms, a, b)
    requires k < |cs| && Shares(cs[k], a, b)
    ensures cs[k].matchId.None?
  {
    if cs[k].matchId.Some? {
      assert Joins(ms[cs[k].matchId.value], a, b);
    }
  }

  // Housing a match: its pair's conversation is kept, adopted or opened, and stays the only one.
  lemma HousingKeepsConversations(cs: seq<Conversation>, ms: seq<Match>, a: Id, b: Id)
    requires a != b && ConversationsOk(cs) && MatchesOk(ms) && Threaded(cs, ms)
    ensures var ns, m := WithMatch(ms, a, b), MatchIdOf(ms, a, b);
            var ds := Housed(cs, m, Key(a, b).0, Key(a, b).1);
            ConversationsOk(ds) && Threaded(ds, ns)
  {
    MatchingIsExact(ms, a, b);
    var ns, m := WithMatch(ms, a, b), MatchIdOf(ms, a, b);
    if m < |ms| {
      HousedAlready(cs, ms, a, b, m);
      SamePairsKeepThreaded(ms, ns, cs);
    } else {
      assert !HasMatch(ms, a, b);
      HousingTheFirst(cs, ms, ns, a, b);
    }
  }

  lemma HousedAlready(cs: seq<Conversation>, ms: seq<Match>, a: Id, b: Id, m: nat)
    requires a != b && ConversationsOk(cs) && MatchesOk(ms) && Threaded(cs, ms)
    requires m < |ms| && Joins(ms[m], a, b)
    ensures Housed(cs, m, Key(a, b).0, Key(a, b).1) == cs
  {
    ThreadOfAPair(cs, ms, m, a, b);
  }

  lemma HousingTheFirst(cs: seq<Conversation>, ms: seq<Match>, ns: seq<Match>, a: Id, b: Id)
    requires a != b && ConversationsOk(cs) && MatchesOk(ms) && Threaded(cs, ms) && !HasMatch(ms, a, b)
    requires |ns| == |ms| + 1 && Joins(ns[|ms|], a, b)
    requires forall i | 0 <= i < |ms| :: (ns[i].low, ns[i].high) == (ms[i].low, ms[i].high)
    ensures var ds := Housed(cs, |ms|, Key(a, b).0, Key(a, b).1);
            ConversationsOk(ds) && Threaded(ds, ns)
  {
    var m, k := |ms|, Between(cs, a, b, |cs|);
    assert k == Between(cs, Key(a, b).0, Key(a, b).1, |cs|) by { BetweenKey(cs, a, b, |cs|); }
    assert ThreadOf(cs, m, |cs|).None?;
    var ds := Housed(cs, m, Key(a, b).0, Key(a, b).1);
    if k.Some? {
      NoMatchNoThread(cs, ms, a, b, k.value);
      assert ds == cs[k.value := cs[k.value].(matchId := Some(m), open := true)];
      forall i | 0 <= i < |ns| ensures HasThread(ds, i) {
        if i == m {
          assert BelongsTo(ds[k.value], m);
        } else {
          assert HasThread(cs, i);
          var t :| 0 <= t < |cs| && BelongsTo(cs[t], i);
          assert BelongsTo(ds[t], i);
        }
      }
    } else {
      OpeningKeepsConversations(cs, ms, a, b, Some(m));
      assert ds == cs + [NewConversation(a, b, Some(m))];
      forall i | 0 <= i < |ns| ensures HasThread(ds, i) {
        assert i < m ==> HasThread(cs, i);
        MoreThreads(cs, NewConversation(a, b, Some(m)), i);
      }
    }
  }

  lemma {:induction false} BetweenKey(cs: seq<Conversation>, a: Id, b: Id, n: nat)
    requires n <= |cs|
    ensures Between(cs, Key(a, b).0, Key(a, b).1, n) == Between(cs, a, b, n)
  {
    if n > 0 { BetweenKey(cs, a, b, n - 1); }
  }

  // ---- unread counters ---------------------------------------------------------------------------

  lemma OneMoreUnread(ms: seq<Message>, m: Message, u: Id)
    ensures Unread(ms + [m], u) == Unread(ms, u) + if m.sender != u && !m.read then 1 else 0
  {
    assert (ms + [m])[..|ms|] == ms;
  }

  lemma DeliveringKeepsCounted(c: Conversation, u: Id, body: string)
    requires Counted(c) && IsMember(c, u)
    ensures Counted(Delivered(c, u, body))
  {
    OneMoreUnread(c.messages, Message(u, body, false), c.low);
    OneMoreUnread(c.messages, Message(u, body, false), c.high);
  }

  // Reading clears the reader's messages and nobody else's.
  lemma {:induction false} ReadingIsOnesOwn(ms: seq<Message>, u: Id, other: Id)
    requires forall i | 0 <= i < |ms| :: ms[i].sender == u || ms[i].sender == other
    ensures Unread(ReadBy(ms, u), u) == 0
    ensures u != other ==> Unread(ReadBy(ms, u), other) == Unread(ms, other)
  {
    if ms != [] {
      var init := ms[..|ms| - 1];
      ReadingIsOnesOwn(init, u, other);
      assert ReadBy(ms, u)[..|ms| - 1] == ReadBy(init, u);
    }
  }

  lemma ReadingKeepsCounted(c: Conversation, u: Id)
    requires Counted(c) && IsMember(c, u)
    ensures Counted(Opened(c, u))
  {
    ReadingIsOnesOwn(c.messages, u, OtherMember(c, u));
  }

  // Replacing a conversation by one of the same pair and match keeps the table coherent.
  lemma ReplacingKeepsConversations(cs: seq<Conversation>, ms: seq<Match>, k: nat, c: Conversation)
    requires k < |cs| && ConversationsOk(cs) && Threaded(cs, ms) && Counted(c)
    requires c.low == cs[k].low && c.high == cs[k].high && c.matchId == cs[k].matchId
    ensures ConversationsOk(cs[k := c]) && Threaded(cs[k := c], ms)
  {
    var ds := cs[k := c];
    forall m | 0 <= m < |ms| ensures HasThread(ds, m) {
      assert HasThread(cs, m);
      var i :| 0 <= i < |cs| && BelongsTo(cs[i], m);
      assert BelongsTo(ds[i], m);
    }
  }

  // ---- steps -------------------------------------------------------------------------------------

  lemma AskingKeeps(w: World, a: Id, b: Id)
    requires Coherent(w)
    ensures Coherent(Asked(w, a, b))
  {
    AskingKeepsSafe(w, a, b);
  }

  // Two standing likes imply a match row, except perhaps between a and b.
  ghost predicate AnsweredBut(likes: Likes, ms: seq<Match>, a: Id, b: Id) {
    forall x, y | Keen(likes, x, y) && Keen(likes, y, x) :: HasMatch(ms, x, y) || Key(x, y) == Key(a, b)
  }

  ghost predicate CoherentBut(w: World, a: Id, b: Id) {
    && LikesOk(w.likes, w.stamp)
    && MatchesOk(w.matches)
    && Earned(w.matches, w.likes, w.blocks)
    && AnsweredBut(w.likes, w.matches, a, b)
    && Severed(w.blocks, w.likes)
    && ConversationsOk(w.conversations)
    && Threaded(w.conversations, w.matches)
    && Safe(w.verdicts, w.blocks)
    && FeedsOk(w.feeds, w.likes, w.matches, w.blocks)
  }

  lemma StartingKeepsFeeds(w: World, a: Id, b: Id)
    requires a != b && MatchesOk(w.matches) && FeedsOk(w.feeds, w.likes, w.matches, w.blocks)
    ensures FeedsOk(w.feeds - {a, b}, w.likes, WithMatch(w.matches, a, b), w.blocks)
  {
    hide WithMatch, HasMatch;
    var feeds := w.feeds - {a, b};
    forall u, x | u in feeds && x in feeds[u].ids
      ensures !Hidden(w.likes, WithMatch(w.matches, a, b), w.blocks, u, x)
    {
      assert x in w.feeds[u].ids;
      MatchingAddsOnePair(w.matches, a, b, u, x);
    }
  }

  lemma AlreadyStarted(w: World, a: Id, b: Id)
    requires CoherentBut(w, a, b) && !Starts(w.matches, a, b)
    ensures Coherent(w)
  {
    var i := FindMatch(w.matches, a, b, |w.matches|).value;
    forall x, y | Keen(w.likes, x, y) && Keen(w.likes, y, x) ensures HasMatch(w.matches, x, y) {
      assert Key(x, y) == Key(a, b) ==> Joins(w.matches[i], x, y);
    }
  }

  lemma MatchingKeeps(w: World, a: Id, b: Id)
    requires a != b && CoherentBut(w, a, b)
    requires Keen(w.likes, a, b) && Keen(w.likes, b, a) && !BlockedEither(w.blocks, a, b)
    ensures Coherent(Matched(w, a, b))
  {
    if Starts(w.matches, a, b) {
      hide WithMatch, MatchIdOf, Housed, HasMatch, ConversationsOk, Threaded;
      var ns := WithMatch(w.matches, a, b);
      MatchingIsExact(w.matches, a, b);
      MatchingKeepsEarned(w.matches, a, b, w.likes, w.blocks);
      HousingKeepsConversations(w.conversations, w.matches, a, b);
      StartingKeepsFeeds(w, a, b);
      forall x, y | Keen(w.likes, x, y) && Keen(w.likes, y, x) ensures HasMatch(ns, x, y) {
        MatchingAddsOnePair(w.matches, a, b, x, y);
      }
      assert {Key(a, b).0, Key(a, b).1} == {a, b};
    } else {
      AlreadyStarted(w, a, b);
    }
  }

  // The sender's own feed is gone, and nobody else's view changed.
  lemma RecordingKeepsFeeds(w: World, a: Id, b: Id, kind: Kind)
    requires FeedsOk(w.feeds, w.likes, w.matches, w.blocks)
    ensures FeedsOk(w.feeds - {a}, Recorded(w, a, b, kind).likes, w.matches, w.blocks)
  {
    hide HasMatch, PassedOn, Recorded;
    var likes, feeds := Recorded(w, a, b, kind).likes, w.feeds - {a};
    forall u, x | u in feeds && x in feeds[u].ids ensures !Hidden(likes, w.matches, w.blocks, u, x) {
      assert x in w.feeds[u].ids;
      RecordingChangesOneIntent(w, a, b, kind, u, x);
    }
  }

  lemma RecordingAlmostKeepsAnswered(w: World, a: Id, b: Id, kind: Kind)
    requires Answered(w.likes, w.matches)
    ensures AnsweredBut(Recorded(w, a, b, kind).likes, w.matches, a, b)
  {
    hide HasMatch, Recorded, Keen;
    var likes := Recorded(w, a, b, kind).likes;
    forall x, y | Keen(likes, x, y) && Keen(likes, y, x)
      ensures HasMatch(w.matches, x, y) || Key(x, y) == Key(a, b)
    {
      RecordingChangesOneIntent(w, a, b, kind, x, y);
      RecordingChangesOneIntent(w, a, b, kind, y, x);
    }
  }

  lemma SendingKeeps(w: World, a: Id, b: Id, kind: Kind)
    requires a != b && Coherent(w) && MaySay(w.likes, a, b, kind) && !BlockedEither(w.blocks, a, b)
    ensures CoherentBut(Sent(w, a, b, kind), a, b)
    ensures kind == Pass || !Keen(w.likes, b, a) ==> Coherent(Sent(w, a, b, kind))
  {
    hide HasMatch, MatchesOk, Earned, Answered, AnsweredBut, FeedsOk, LikesOk, ConversationsOk, Threaded, Safe;
    RecordingKeepsLikes(w, a, b, kind);
    RecordingKeepsEarned(w, a, b, kind, w.matches);
    RecordingKeepsFeeds(w, a, b, kind);
    RecordingAlmostKeepsAnswered(w, a, b, kind);
    if kind == Pass || !Keen(w.likes, b, a) {
      RecordingKeepsAnswered(w, a, b, kind, w.matches);
    }
  }

  lemma SwipingKeeps(w: World, a: Id, b: Id, kind: Kind, limits: Limits)
    requires Coherent(w)
    ensures Coherent(DoSwipe(w, a, b, kind, limits).world)
  {
    hide Coherent, CoherentBut, Sent, Matched;
    if a != b && IsActive(w, b) {
      var asked := Asked(w, a, b);
      AskingKeeps(w, a, b);
      if !SaysBlocked(w, a, b) && MaySay(w.likes, a, b, kind) && MaySwipe(Today(w, a), kind, limits) {
        NotSaidNotBlocked(w, a, b);
        SendingKeeps(asked, a, b, kind);
        if kind != Pass && Keen(w.likes, b, a) {
          var sent := Sent(asked, a, b, kind);
          SentIntent(asked, a, b, kind);
          MatchingKeeps(sent, a, b);
        }
      }
    }
  }

  lemma NotSaidNotBlocked(w: World, a: Id, b: Id)
    requires Coherent(w)
    ensures BlockedEither(w.blocks, a, b) ==> SaysBlocked(w, a, b)
  {}

  lemma SentIntent(w: World, a: Id, b: Id, kind: Kind)
    requires a != b
    ensures kind != Pass ==> Keen(Sent(w, a, b, kind).likes, a, b)
    ensures Keen(w.likes, b, a) ==> Keen(Sent(w, a, b, kind).likes, b, a)
    ensures Sent(w, a, b, kind).blocks == w.blocks && Sent(w, a, b, kind).matches == w.matches
  {}

  lemma RewindingKeeps(w: World, u: Id, entitled: bool, limits: Limits)
    requires Coherent(w)
    ensures Coherent(DoRewind(w, u, entitled, limits).world)
  {
    var last := Latest(w.likes, u);
    if last.Some? && !AreMatched(w.matches, u, last.value) {
      UndoingKeeps(w, u, last.value);
    }
  }

  lemma UndoingKeepsEarned(ms: seq<Match>, likes: Likes, blocks: Blocks, u: Id, r: Id)
    requires (u, r) in likes && Earned(ms, likes, blocks) && !AreMatched(ms, u, r) && MatchesOk(ms)
    ensures Earned(ms, likes[(u, r) := likes[(u, r)].(rewound := true)], blocks)
  {
    forall i | 0 <= i < |ms| && ms[i].status == Active
      ensures (ms[i].low, ms[i].high) != (u, r) && (ms[i].high, ms[i].low) != (u, r)
    {
      assert !Joins(ms[i], u, r);
    }
  }

  lemma UndoingKeepsAnswered(ms: seq<Match>, likes: Likes, u: Id, r: Id)
    requires (u, r) in likes && Answered(likes, ms)
    ensures Answered(likes[(u, r) := likes[(u, r)].(rewound := true)], ms)
  {
    hide HasMatch;
    var undone := likes[(u, r) := likes[(u, r)].(rewound := true)];
    forall a, b | Keen(undone, a, b) && Keen(undone, b, a) ensures HasMatch(ms, a, b) {
      assert Keen(likes, a, b) && Keen(likes, b, a);
    }
  }

  lemma UndoingKeepsFeeds(w: World, u: Id, r: Id)
    requires (u, r) in w.likes && FeedsOk(w.feeds, w.likes, w.matches, w.blocks)
    ensures FeedsOk(w.feeds, w.likes[(u, r) := w.likes[(u, r)].(rewound := true)], w.matches, w.blocks)
  {
    hide HasMatch;
    var undone := w.likes[(u, r) := w.likes[(u, r)].(rewound := true)];
    forall x, y | x in w.feeds && y in w.feeds[x].ids ensures !Hidden(undone, w.matches, w.blocks, x, y) {
      assert !Hidden(w.likes, w.matches, w.blocks, x, y);
    }
  }

  lemma UndoingKeeps(w: World, u: Id, r: Id)
    requires Coherent(w) && (u, r) in w.likes && !AreMatched(w.matches, u, r)
    ensures Coherent(Rewound(w, u, r))
  {
    hide HasMatch, ConversationsOk, Threaded, MatchesOk, Earned, Answered, FeedsOk, LikesOk;
    RewindingKeepsLikes(w, u, r);
    UndoingKeepsEarned(w.matches, w.likes, w.blocks, u, r);
    UndoingKeepsAnswered(w.matches, w.likes, u, r);
    UndoingKeepsFeeds(w, u, r);
  }

  // Ending matches and closing conversations, whatever the cause.
  lemma PartingKeeps(w: World, ms: seq<Match>, cs: seq<Conversation>)
    requires Coherent(w) && OnlyEnds(w.matches, ms) && OnlyCloses(w.conversations, cs)
    ensures Coherent(w.(matches := ms, conversations := cs))
  {
    hide HasMatch, ConversationsOk, Threaded, MatchesOk, Earned, Answered, FeedsOk, OnlyCloses;
    assert SamePairs(w.matches, ms);
    EndingKeepsMatches(w.matches, ms, w.likes, w.blocks);
    SamePairsKeepAnswered(w.matches, ms, w.likes);
    SamePairsKeepFeeds(w.matches, ms, w.feeds, w.likes, w.blocks);
    SamePairsKeepThreaded(w.matches, ms, w.conversations);
    ClosingKeepsConversations(w.conversations, cs, ms);
  }

  lemma UnmatchingKeeps(w: World, u: Id, m: nat)
    requires Coherent(w)
    ensures Coherent(DoUnmatch(w, u, m).world)
  {
    if m < |w.matches| && Involves(w.matches[m], u) {
      PartingKeeps(w, w.matches[m := Ended(w.matches[m], Unmatched, u)], ClosedFor(w.conversations, m));
    }
  }

  lemma LeavingKeeps(w: World, u: Id)
    requires Coherent(w)
    ensures Coherent(AfterBan(w, u)) && Coherent(AfterPause(w, u)) && Coherent(AfterRequest(w, u))
  {
    PartingKeeps(w, EndedOf(w.matches, u), ClosedOf(w.conversations, u));
    PartingKeeps(w, EndedOf(w.matches, u), w.conversations);
    PartingKeeps(w, w.matches, ClosedOf(w.conversations, u));
  }

  // Dropping a pair's likes, once no match of theirs is active.
  lemma DroppingKeepsEarned(ms: seq<Match>, likes: Likes, blocks: Blocks, a: Id, b: Id)
    requires MatchesOk(ms) && Earned(ms, likes, blocks) && !AreMatched(ms, a, b) && a != b
    ensures Earned(ms, likes - {(a, b), (b, a)}, blocks + {(a, b)})
  {
    forall i | 0 <= i < |ms| && ms[i].status == Active
      ensures Keen(likes - {(a, b), (b, a)}, ms[i].low, ms[i].high)
      ensures Keen(likes - {(a, b), (b, a)}, ms[i].high, ms[i].low)
      ensures !BlockedEither(blocks + {(a, b)}, ms[i].low, ms[i].high)
    {
      assert !Joins(ms[i], a, b);
    }
  }

  lemma DroppingKeepsAnswered(ms: seq<Match>, likes: Likes, gone: set<(Id, Id)>)
    requires Answered(likes, ms)
    ensures Answered(likes - gone, ms)
  {
    hide HasMatch;
    forall x, y | Keen(likes - gone, x, y) && Keen(likes - gone, y, x) ensures HasMatch(ms, x, y) {
      assert Keen(likes, x, y) && Keen(likes, y, x);
    }
  }

  lemma SeveringKeepsFeeds(w: World, a: Id, b: Id)
    requires FeedsOk(w.feeds, w.likes, w.matches, w.blocks)
    ensures FeedsOk(w.feeds - {a, b}, w.likes - {(a, b), (b, a)}, w.matches, w.blocks + {(a, b)})
  {
    hide HasMatch;
    var blocks, likes, feeds := w.blocks + {(a, b)}, w.likes - {(a, b), (b, a)}, w.feeds - {a, b};
    forall u, x | u in feeds && x in feeds[u].ids ensures !Hidden(likes, w.matches, blocks, u, x) {
      assert !Hidden(w.likes, w.matches, w.blocks, u, x);
    }
  }

  // A new block, with its rows and caches cleared on both sides.
  lemma SeveringKeeps(w: World, a: Id, b: Id)
    requires Coherent(w) && a != b && !AreMatched(w.matches, a, b)
    ensures var blocks := w.blocks + {(a, b)};
            Coherent(w.(blocks := blocks, likes := w.likes - {(a, b), (b, a)}, feeds := w.feeds - {a, b},
                        verdicts := w.verdicts[Key(a, b) := Verdict(true, w.now + BLOCK_CACHE_SECONDS)]))
  {
    hide MatchesOk, Earned, Answered, FeedsOk, ConversationsOk, Threaded;
    DroppingKeepsEarned(w.matches, w.likes, w.blocks, a, b);
    DroppingKeepsAnswered(w.matches, w.likes, {(a, b), (b, a)});
    SeveringKeepsFeeds(w, a, b);
  }

  lemma BlockingKeeps(w: World, a: Id, b: Id)
    requires Coherent(w)
    ensures Coherent(DoBlock(w, a, b).world)
  {
    if a != b && (a, b) !in w.blocks {
      var parted := w.(matches := EndedBetween(w.matches, a, b),
                       conversations := ClosedBetween(w.conversations, w.matches, a, b));
      PartingKeeps(w, parted.matches, parted.conversations);
      hide Coherent, EndedBetween, ClosedBetween;
      NoneLiveBetween(w.matches, a, b);
      SeveringKeeps(parted, a, b);
    }
  }

  lemma NoneLiveBetween(ms: seq<Match>, a: Id, b: Id)
    ensures !AreMatched(EndedBetween(ms, a, b), a, b)
  {}

  // The rows come back; the verdict left behind errs on the side of refusing.
  lemma FailedReportKeeps(w: World, a: Id, b: Id)
    requires Coherent(w)
    ensures Coherent(FailedReport(w, a, b))
  {}

  lemma UnblockingKeeps(w: World, a: Id, b: Id)
    requires Coherent(w)
    ensures Coherent(DoUnblock(w, a, b))
  {
    hide HasMatch, ConversationsOk, Threaded, LikesOk, Answered;
    var after := DoUnblock(w, a, b);
    forall u, x | u in w.feeds && x in w.feeds[u].ids ensures !Hidden(w.likes, w.matches, after.blocks, u, x) {
      assert !Hidden(w.likes, w.matches, w.blocks, u, x);
    }
  }

  lemma OpeningKeeps(w: World, u: Id, other: Id)
    requires Coherent(w)
    ensures Coherent(DoOpenChat(w, u, other).world)
  {
    AskingKeeps(w, u, other);
    if u != other && Between(w.conversations, u, other, |w.conversations|).None? {
      hide ConversationsOk, Threaded, LikesOk, Answered, FeedsOk;
      OpeningKeepsConversations(w.conversations, w.matches, u, other, None);
      OpeningKeepsThreaded(w.conversations, w.matches, u, other);
    }
  }

  lemma MessagingKeeps(w: World, u: Id, k: nat, body: Content, withinPlan: bool)
    requires Coherent(w)
    ensures Coherent(DoSend(w, u, k, body, withinPlan).world)
  {
    if k < |w.conversations| && IsMember(w.conversations[k], u) {
      var c := w.conversations[k];
      AskingKeeps(w, u, OtherMember(c, u));
      if body.Passes? {
        DeliveringKeepsCounted(c, u, body.text);
        hide LikesOk, Answered, FeedsOk, Earned;
        ReplacingKeepsConversations(w.conversations, w.matches, k, Delivered(c, u, body.text));
      }
    }
  }

  lemma ReadingKeeps(w: World, u: Id, k: nat)
    requires Coherent(w)
    ensures Coherent(DoRead(w, u, k))
  {
    if k < |w.conversations| && IsMember(w.conversations[k], u) {
      var c := w.conversations[k];
      ReadingKeepsCounted(c, u);
      hide LikesOk, Answered, FeedsOk, Earned;
      ReplacingKeepsConversations(w.conversations, w.matches, k, Opened(c, u));
    }
  }

  lemma FeedingKeeps(w: World, u: Id, limit: nat, refresh: bool, dateable: set<Id>, order: seq<Id>)
    requires Coherent(w)
    ensures Coherent(DoBuildFeed(w, u, limit, refresh, dateable, order).world)
  {
    var after := DoBuildFeed(w, u, limit, refresh, dateable, order).world;
    hide ExcludedIds, Hidden, LikesOk, Answered, Earned, ConversationsOk, Threaded;
    forall v, x | v in after.feeds && x in after.feeds[v].ids
      ensures !Hidden(w.likes, w.matches, w.blocks, v, x)
    {
      ExcludedIsHidden(w, v, x);
    }
  }

  // Only passes go, so nobody's match or like is touched and only fewer members are hidden.
  lemma PruningKeeps(w: World, before: nat)
    requires Coherent(w)
    ensures Coherent(w.(likes := Pruned(w.likes, before)))
  {
    hide HasMatch, ConversationsOk, Threaded, MatchesOk;
    var likes := Pruned(w.likes, before);
    forall a, b | Keen(likes, a, b) && Keen(likes, b, a) ensures HasMatch(w.matches, a, b) {
      assert Keen(w.likes, a, b) && Keen(w.likes, b, a);
    }
    forall u, x | u in w.feeds && x in w.feeds[u].ids ensures !Hidden(likes, w.matches, w.blocks, u, x) {
      assert !Hidden(w.likes, w.matches, w.blocks, u, x);
    }
  }

  lemma ArchivingKeeps(w: World, stale: set<nat>)
    requires Coherent(w)
    ensures Coherent(w.(conversations := Archived(w.conversations, stale)))
  {
    PartingKeeps(w, w.matches, Archived(w.conversations, stale));
  }

  lemma ResettingKeeps(w: World)
    requires Coherent(w)
    ensures Coherent(ResetQuotas(w))
  {}

  lemma LikesAreOk(w: World)
    requires Coherent(w)
    ensures LikesOk(w.likes, w.stamp)
  {}

  lemma StepKeepsCoherent(w: World, s: Step)
    requires Coherent(w)
    ensures Coherent(Next(w, s))
  {
    hide Coherent, DoSwipe, DoRewind, DoUnmatch, DoBlock, DoUnblock, Asked, FailedReport, DoOpenChat, DoSend, DoRead,
         DoBuildFeed, AfterBan, AfterPause, AfterRequest, Pruned, Archived, ResetQuotas;
    match s
    case SwipeStep(a, b, kind, limits) => SwipingKeeps(w, a, b, kind, limits);
    case RewindStep(u, entitled, limits) => RewindingKeeps(w, u, entitled, limits);
    case UnmatchStep(u, m) => UnmatchingKeeps(w, u, m);
    case BlockStep(a, b) => BlockingKeeps(w, a, b);
    case UnblockStep(a, b) => UnblockingKeeps(w, a, b);
    case AskStep(a, b) => AskingKeeps(w, a, b);
    case FailedReportStep(a, b) => FailedReportKeeps(w, a, b);
    case BanStep(u) => ExitKeeps(w, u, Banned);
    case PauseStep(u) => ExitKeeps(w, u, Paused);
    case RequestDeletionStep(u) => ExitKeeps(w, u, Paused);
    case ActivateStep(u) =>
      OtherFieldsDoNotMatter(w, w.standing[u := Member], w.now);
      assert w.(standing := w.standing[u := Member], now := w.now) == w.(standing := w.standing[u := Member]);
    case OpenChatStep(u, other) => OpeningKeeps(w, u, other);
    case SendStep(u, k, body, withinPlan) => MessagingKeeps(w, u, k, body, withinPlan);
    case ReadStep(u, k) => ReadingKeeps(w, u, k);
    case FeedStep(u, limit, refresh, dateable, order) => FeedingKeeps(w, u, limit, refresh, dateable, order);
    case PruneStep(before) => PruningKeeps(w, before);
    case ArchiveStep(stale) => ArchivingKeeps(w, stale);
    case ResetQuotasStep => ResettingKeeps(w);
    case TickStep(seconds) =>
      OtherFieldsDoNotMatter(w, w.standing, w.now + seconds);
      assert w.(standing := w.standing, now := w.now + seconds) == w.(now := w.now + seconds);
  }

  lemma ExitKeeps(w: World, u: Id, standing: Standing)
    requires Coherent(w)
    ensures Coherent(AfterBan(w.(standing := w.standing[u := standing]), u))
    ensures Coherent(AfterPause(w.(standing := w.standing[u := standing]), u))
    ensures Coherent(AfterRequest(w.(standing := w.standing[u := standing]), u))
  {
    hide Coherent, AfterBan, AfterPause, AfterRequest;
    OtherFieldsDoNotMatter(w, w.standing[u := standing], w.now);
    assert w.(standing := w.standing[u := standing], now := w.now) == w.(standing := w.standing[u := standing]);
    LeavingKeeps(w.(standing := w.standing[u := standing]), u);
  }

  lemma OtherFieldsDoNotMatter(w: World, standing: map<Id, Standing>, now: nat)
    requires Coherent(w)
    ensures Coherent(w.(standing := standing, now := now))
  {}

  // In every reachable state the five modules agree.
  lemma {:induction false} EveryRunIsCoherent(start: World, steps: seq<Step>, n: nat)
    requires Fresh(start) && n <= |steps|
    ensures Coherent(Run(start, steps, n))
  {
    if n > 0 {
      EveryRunIsCoherent(start, steps, n - 1);
      hide Coherent, Next;
      StepKeepsCoherent(Run(start, steps, n - 1), steps[n - 1]);
    }
  }

  ghost predicate Reachable(w: World) {
    exists start, steps :: Fresh(start) && w == Run(start, steps, |steps|)
  }

  lemma ReachableIsCoherent(w: World)
    requires Reachable(w)
    ensures Coherent(w)
  {
    hide Run, Coherent, Fresh;
    var start, steps :| Fresh(start) && w == Run(start, steps, |steps|);
    EveryRunIsCoherent(start, steps, |steps|);
  }
}
