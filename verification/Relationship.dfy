/** Likes, matches, blocks, conversations and cached feeds: five modules with their own tables, kept
    consistent by the events they publish.  A World is all their rows and caches; each service call is
    one step.  A call that raises restores the rows but not the caches. */
module Relationship {
  import opened Wrappers

  type Id = nat

  // ---- rows --------------------------------------------------------------------------------------

  datatype Kind = Like | SuperLike | Pass

  // One row per (sender, receiver); `stamp` orders the rows by creation.
  datatype Swipe = Swipe(kind: Kind, rewound: bool, stamp: nat)

  datatype Quota = Quota(likes: nat, superLikes: nat, rewinds: nat, day: nat)

  // What the sender's plan allows in a day; None is unlimited.
  datatype Limits = Limits(likes: Option<nat>, superLikes: Option<nat>, rewinds: Option<nat>)

  datatype MatchStatus = Active | Unmatched | Blocked

  datatype Match = Match(low: Id, high: Id, status: MatchStatus, endedBy: Option<Id>)

  datatype Message = Message(sender: Id, body: string, read: bool)

  // A conversation of two members, each with an unread counter.
  datatype Conversation = Conversation(
    low: Id, high: Id, matchId: Option<nat>, open: bool,
    messages: seq<Message>, count: nat, unreadLow: nat, unreadHigh: nat)

  // What is left of a message's body after trimming and screening.  Kinds other than text always pass.
  datatype Content = Empty | Withheld | Passes(text: string)

  datatype Verdict = Verdict(blocked: bool, until: nat)

  datatype Feed = Feed(ids: seq<Id>, until: nat)

  datatype Standing = Member | Paused | Banned

  type Likes = map<(Id, Id), Swipe>
  type Blocks = set<(Id, Id)>

  datatype World = World(
    now: nat,
    standing: map<Id, Standing>,
    likes: Likes, stamp: nat, quotas: map<Id, Quota>,
    matches: seq<Match>,
    conversations: seq<Conversation>,
    blocks: Blocks, verdicts: map<(Id, Id), Verdict>,
    feeds: map<Id, Feed>)

  datatype Error =
      Yourself | Gone | Unavailable | AlreadySwiped | QuotaExceeded | NotPremium | NothingToUndo | BecameMatch
    | NotFound | NotYours | Closed | Refused | NothingWritten | Moderated

  // What a call leaves behind and what it answers.
  datatype Outcome<+T> = Outcome(world: World, result: Result<T, Error>)

  const DAY := 86400
  const BLOCK_CACHE_SECONDS := 300
  const FEED_CACHE_SECONDS := 180

  // ---- reads -------------------------------------------------------------------------------------

  // The canonical order of a pair, so (a, b) and (b, a) name the same row.
  function Key(a: Id, b: Id): (Id, Id) { if a < b then (a, b) else (b, a) }

  predicate Positive(s: Swipe) { !s.rewound && s.kind != Pass }

  predicate Keen(likes: Likes, a: Id, b: Id) { (a, b) in likes && Positive(likes[(a, b)]) }

  predicate PassedOn(likes: Likes, a: Id, b: Id) {
    (a, b) in likes && !likes[(a, b)].rewound && likes[(a, b)].kind == Pass
  }

  predicate BlockedEither(blocks: Blocks, a: Id, b: Id) { (a, b) in blocks || (b, a) in blocks }

  predicate Joins(m: Match, a: Id, b: Id) { (m.low, m.high) == Key(a, b) }

  predicate Involves(m: Match, u: Id) { u == m.low || u == m.high }

  function OtherUser(m: Match, u: Id): Id { if m.low == u then m.high else m.low }

  predicate Shares(c: Conversation, a: Id, b: Id) { (c.low, c.high) == Key(a, b) }

  predicate IsMember(c: Conversation, u: Id) { u == c.low || u == c.high }

  function OtherMember(c: Conversation, u: Id): Id { if c.low == u then c.high else c.low }

  predicate IsActive(w: World, u: Id) { u in w.standing && w.standing[u] == Member }

  // The match of a pair among the first n rows.
  function FindMatch(ms: seq<Match>, a: Id, b: Id, n: nat): (r: Option<nat>)
    requires n <= |ms|
    ensures r.None? ==> forall i | 0 <= i < n :: !Joins(ms[i], a, b)
    ensures r.Some? ==> r.value < n && Joins(ms[r.value], a, b)
  {
    if n == 0 then None
    else if Joins(ms[n - 1], a, b) then Some(n - 1)
    else FindMatch(ms, a, b, n - 1)
  }

  predicate AreMatched(ms: seq<Match>, a: Id, b: Id) {
    exists i | 0 <= i < |ms| :: Joins(ms[i], a, b) && ms[i].status == Active
  }

  // The one conversation a pair shares, match-born or direct.
  function Between(cs: seq<Conversation>, a: Id, b: Id, n: nat): (r: Option<nat>)
    requires n <= |cs|
    ensures r.None? ==> forall i | 0 <= i < n :: !Shares(cs[i], a, b)
    ensures r.Some? ==> r.value < n && Shares(cs[r.value], a, b)
  {
    if n == 0 then None
    else if Shares(cs[n - 1], a, b) then Some(n - 1)
    else Between(cs, a, b, n - 1)
  }

  predicate BelongsTo(c: Conversation, m: nat) { c.matchId == Some(m) }

  // The conversation that carries a match's id.
  function ThreadOf(cs: seq<Conversation>, m: nat, n: nat): (r: Option<nat>)
    requires n <= |cs|
    ensures r.None? ==> forall i | 0 <= i < n :: !BelongsTo(cs[i], m)
    ensures r.Some? ==> r.value < n && BelongsTo(cs[r.value], m)
  {
    if n == 0 then None
    else if BelongsTo(cs[n - 1], m) then Some(n - 1)
    else ThreadOf(cs, m, n - 1)
  }

  // ---- who must never appear -----------------------------------------------------------------------

  function PassedIds(likes: Likes, u: Id): set<Id> {
    set p | p in likes && p.0 == u && PassedOn(likes, p.0, p.1) :: p.1
  }

  function MatchedIds(ms: seq<Match>, u: Id): set<Id> {
    set i | 0 <= i < |ms| && Involves(ms[i], u) :: OtherUser(ms[i], u)
  }

  function BlockedIds(blocks: Blocks, u: Id): set<Id> {
    (set p | p in blocks && p.0 == u :: p.1) + (set p | p in blocks && p.1 == u :: p.0)
  }

  // Self, passed on, ever matched, blocked either way.
  function ExcludedIds(w: World, u: Id): set<Id> {
    {u} + PassedIds(w.likes, u) + MatchedIds(w.matches, u) + BlockedIds(w.blocks, u)
  }

  predicate HasMatch(ms: seq<Match>, a: Id, b: Id) { exists i | 0 <= i < |ms| :: Joins(ms[i], a, b) }

  // The same set, one candidate at a time.
  predicate Hidden(likes: Likes, ms: seq<Match>, blocks: Blocks, u: Id, x: Id) {
    x == u || PassedOn(likes, u, x) || HasMatch(ms, u, x) || BlockedEither(blocks, u, x)
  }

  lemma ExcludedIsHidden(w: World, u: Id, x: Id)
    requires MatchesOk(w.matches)
    ensures x in ExcludedIds(w, u) <==> Hidden(w.likes, w.matches, w.blocks, u, x)
  {
    PassedIdsAre(w.likes, u, x);
    MatchedIdsAre(w.matches, u, x);
    BlockedIdsAre(w.blocks, u, x);
  }

  lemma PassedIdsAre(likes: Likes, u: Id, x: Id)
    ensures x in PassedIds(likes, u) <==> PassedOn(likes, u, x)
  {
    if PassedOn(likes, u, x) {
      var p := (u, x);
      assert p in likes && p.0 == u && PassedOn(likes, p.0, p.1);
    }
  }

  lemma MatchedIdsAre(ms: seq<Match>, u: Id, x: Id)
    requires MatchesOk(ms)
    ensures x in MatchedIds(ms, u) <==> HasMatch(ms, u, x)
  {
    if HasMatch(ms, u, x) {
      var i :| 0 <= i < |ms| && Joins(ms[i], u, x);
      assert Involves(ms[i], u) && OtherUser(ms[i], u) == x;
    }
  }

  lemma BlockedIdsAre(blocks: Blocks, u: Id, x: Id)
    ensures x in BlockedIds(blocks, u) <==> BlockedEither(blocks, u, x)
  {
    if (u, x) in blocks {
      var p := (u, x);
      assert p in blocks && p.0 == u;
    }
    if (x, u) in blocks {
      var p := (x, u);
      assert p in blocks && p.1 == u;
    }
  }

  // ---- the cached block verdict ----------------------------------------------------------------------

  predicate IsCached(w: World, a: Id, b: Id) {
    Key(a, b) in w.verdicts && w.now < w.verdicts[Key(a, b)].until
  }

  predicate SaysBlocked(w: World, a: Id, b: Id) {
    if IsCached(w, a, b) then w.verdicts[Key(a, b)].blocked else BlockedEither(w.blocks, a, b)
  }

  // The world after asking: a miss stores the answer.
  function Asked(w: World, a: Id, b: Id): World {
    if IsCached(w, a, b) then w
    else
      w.(verdicts := w.verdicts[Key(a, b) :=
                       Verdict(BlockedEither(w.blocks, a, b), w.now + BLOCK_CACHE_SECONDS)])
  }

  // ---- the effect of each event ------------------------------------------------------------------------

  // A like, super like or pass was sent.
  function AfterSwipe(w: World, sender: Id): World { w.(feeds := w.feeds - {sender}) }

  function Housed(cs: seq<Conversation>, m: nat, a: Id, b: Id): seq<Conversation> {
    if ThreadOf(cs, m, |cs|).Some? then cs
    else
      match Between(cs, a, b, |cs|)
      case Some(k) =>
        if cs[k].matchId.None? then cs[k := cs[k].(matchId := Some(m), open := true)]
        else cs + [NewConversation(a, b, Some(m))]
      case None => cs + [NewConversation(a, b, Some(m))]
  }

  function NewConversation(a: Id, b: Id, m: Option<nat>): Conversation {
    Conversation(Key(a, b).0, Key(a, b).1, m, true, [], 0, 0, 0)
  }

  function AfterMatch(w: World, m: nat, a: Id, b: Id): World {
    w.(feeds := w.feeds - {a, b}, conversations := Housed(w.conversations, m, a, b))
  }

  function ClosedIf(c: Conversation, hit: bool): Conversation { if hit then c.(open := false) else c }

  function ClosedFor(cs: seq<Conversation>, m: nat): seq<Conversation> {
    seq(|cs|, i requires 0 <= i < |cs| => ClosedIf(cs[i], BelongsTo(cs[i], m)))
  }

  function AfterEnd(w: World, m: nat): World { w.(conversations := ClosedFor(w.conversations, m)) }

  function Ended(m: Match, status: MatchStatus, ender: Id): Match {
    m.(status := status, endedBy := Some(ender))
  }

  predicate LiveBetween(m: Match, a: Id, b: Id) { Joins(m, a, b) && m.status == Active }

  function EndedBetween(ms: seq<Match>, a: Id, b: Id): seq<Match> {
    seq(|ms|, i requires 0 <= i < |ms| => if LiveBetween(ms[i], a, b) then Ended(ms[i], Blocked, a) else ms[i])
  }

  // The conversation of a match that the block ends.
  predicate CutOff(c: Conversation, ms: seq<Match>, a: Id, b: Id) {
    c.matchId.Some? && c.matchId.value < |ms| && LiveBetween(ms[c.matchId.value], a, b)
  }

  function ClosedBetween(cs: seq<Conversation>, ms: seq<Match>, a: Id, b: Id): seq<Conversation> {
    seq(|cs|, i requires 0 <= i < |cs| => ClosedIf(cs[i], CutOff(cs[i], ms, a, b)))
  }

  // A block: no likes either way, the match ended and its conversation closed, the verdict true,
  // neither feed kept.
  function AfterBlock(w: World, a: Id, b: Id): World {
    w.(likes := w.likes - {(a, b), (b, a)},
       matches := EndedBetween(w.matches, a, b),
       conversations := ClosedBetween(w.conversations, w.matches, a, b),
       verdicts := w.verdicts[Key(a, b) := Verdict(BlockedEither(w.blocks, a, b), w.now + BLOCK_CACHE_SECONDS)],
       feeds := w.feeds - {a, b})
  }

  function EndedOf(ms: seq<Match>, u: Id): seq<Match> {
    seq(|ms|, i requires 0 <= i < |ms| =>
      if Involves(ms[i], u) && ms[i].status == Active then Ended(ms[i], Unmatched, u) else ms[i])
  }

  function ClosedOf(cs: seq<Conversation>, u: Id): seq<Conversation> {
    seq(|cs|, i requires 0 <= i < |cs| => ClosedIf(cs[i], IsMember(cs[i], u)))
  }

  function AfterPause(w: World, u: Id): World { w.(matches := EndedOf(w.matches, u)) }

  function AfterBan(w: World, u: Id): World {
    w.(matches := EndedOf(w.matches, u), conversations := ClosedOf(w.conversations, u))
  }

  // The account is to be deleted later: its conversations close, its matches stay.
  function AfterRequest(w: World, u: Id): World { w.(conversations := ClosedOf(w.conversations, u)) }

  // ---- upkeep ------------------------------------------------------------------------------------------

  // Old passes are dropped, rewound ones included.
  function Pruned(likes: Likes, before: nat): Likes {
    map p | p in likes && !(likes[p].kind == Pass && likes[p].stamp < before) :: likes[p]
  }

  function Archived(cs: seq<Conversation>, stale: set<nat>): seq<Conversation> {
    seq(|cs|, i requires 0 <= i < |cs| => ClosedIf(cs[i], i in stale))
  }

  function ResetQuotas(w: World): World { w.(quotas := map u | u in w.quotas :: Today(w, u)) }

  // ---- likes -------------------------------------------------------------------------------------------

  // Today's counters: a row left from an earlier day starts again.
  function Today(w: World, u: Id): Quota {
    if u in w.quotas && w.quotas[u].day >= w.now / DAY then w.quotas[u] else Quota(0, 0, 0, w.now / DAY)
  }

  predicate Within(used: nat, limit: Option<nat>) { limit.None? || used < limit.value }

  predicate MaySwipe(q: Quota, kind: Kind, limits: Limits) {
    match kind
    case Like => Within(q.likes, limits.likes)
    case SuperLike => Within(q.superLikes, limits.superLikes)
    case Pass => true
  }

  function Consumed(q: Quota, kind: Kind): Quota {
    match kind
    case Like => q.(likes := q.likes + 1)
    case SuperLike => q.(superLikes := q.superLikes + 1)
    case Pass => q
  }

  // A standing swipe can only be upgraded from like to super like.
  predicate MaySay(likes: Likes, sender: Id, receiver: Id, kind: Kind) {
    (sender, receiver) in likes && !likes[(sender, receiver)].rewound ==>
      likes[(sender, receiver)].kind == Like && kind == SuperLike
  }

  function Said(w: World, sender: Id, receiver: Id, kind: Kind): Swipe {
    if (sender, receiver) in w.likes then w.likes[(sender, receiver)].(kind := kind, rewound := false)
    else Swipe(kind, false, w.stamp)
  }

  function Recorded(w: World, sender: Id, receiver: Id, kind: Kind): World {
    w.(likes := w.likes[(sender, receiver) := Said(w, sender, receiver, kind)],
       stamp := if (sender, receiver) in w.likes then w.stamp else w.stamp + 1,
       quotas := w.quotas[sender := Consumed(Today(w, sender), kind)])
  }

  // What a swipe that passes every check does, up to the question of a match.
  function Sent(w: World, sender: Id, receiver: Id, kind: Kind): World {
    AfterSwipe(Recorded(w, sender, receiver, kind), sender)
  }

  function DoSwipe(w: World, sender: Id, receiver: Id, kind: Kind, limits: Limits): Outcome<Option<nat>> {
    if sender == receiver then Outcome(w, Err(Yourself))
    else if !IsActive(w, receiver) then Outcome(w, Err(Gone))
    else
      var asked := Asked(w, sender, receiver);
      if SaysBlocked(w, sender, receiver) then Outcome(asked, Err(Unavailable))
      else if !MaySay(w.likes, sender, receiver, kind) then Outcome(asked, Err(AlreadySwiped))
      else if !MaySwipe(Today(w, sender), kind, limits) then Outcome(asked, Err(QuotaExceeded))
      else
        var sent := Sent(asked, sender, receiver, kind);
        if kind != Pass && Keen(w.likes, receiver, sender)
        then Outcome(Matched(sent, sender, receiver), Ok(Some(MatchIdOf(sent.matches, sender, receiver))))
        else Outcome(sent, Ok(None))
  }

  // r is the receiver of u's latest-created row that still stands.
  predicate IsLatest(likes: Likes, u: Id, r: Id) {
    && (u, r) in likes && !likes[(u, r)].rewound
    && forall p | p in likes && p.0 == u && !likes[p].rewound :: likes[p].stamp <= likes[(u, r)].stamp
  }

  ghost function Latest(likes: Likes, u: Id): Option<Id> {
    if exists r :: IsLatest(likes, u, r) then var r :| IsLatest(likes, u, r); Some(r) else None
  }

  ghost function DoRewind(w: World, u: Id, entitled: bool, limits: Limits): Outcome<Id> {
    if !entitled then Outcome(w, Err(NotPremium))
    else if !Within(Today(w, u).rewinds, limits.rewinds) then Outcome(w, Err(QuotaExceeded))
    else
      match Latest(w.likes, u)
      case None => Outcome(w, Err(NothingToUndo))
      case Some(r) =>
        if AreMatched(w.matches, u, r) then Outcome(w, Err(BecameMatch))
        else Outcome(Rewound(w, u, r), Ok(r))
  }

  function Rewound(w: World, u: Id, r: Id): World
    requires (u, r) in w.likes
  {
    w.(likes := w.likes[(u, r) := w.likes[(u, r)].(rewound := true)],
       quotas := w.quotas[u := Today(w, u).(rewinds := Today(w, u).rewinds + 1)])
  }

  // ---- matches -----------------------------------------------------------------------------------------

  function MatchIdOf(ms: seq<Match>, a: Id, b: Id): nat {
    match FindMatch(ms, a, b, |ms|) case Some(i) => i case None => |ms|
  }

  // A new row, or the ended one revived.
  function WithMatch(ms: seq<Match>, a: Id, b: Id): seq<Match> {
    match FindMatch(ms, a, b, |ms|)
    case None => ms + [Match(Key(a, b).0, Key(a, b).1, Active, None)]
    case Some(i) => if ms[i].status == Active then ms else ms[i := ms[i].(status := Active, endedBy := None)]
  }

  // Is there anything to announce?
  predicate Starts(ms: seq<Match>, a: Id, b: Id) {
    match FindMatch(ms, a, b, |ms|) case None => true case Some(i) => ms[i].status != Active
  }

  function Matched(w: World, a: Id, b: Id): World {
    if !Starts(w.matches, a, b) then w
    else AfterMatch(w.(matches := WithMatch(w.matches, a, b)), MatchIdOf(w.matches, a, b), Key(a, b).0, Key(a, b).1)
  }

  function DoUnmatch(w: World, u: Id, m: nat): Outcome<()> {
    if m >= |w.matches| then Outcome(w, Err(NotFound))
    else if !Involves(w.matches[m], u) then Outcome(w, Err(NotYours))
    else Outcome(AfterEnd(w.(matches := w.matches[m := Ended(w.matches[m], Unmatched, u)]), m), Ok(()))
  }

  // ---- blocks ------------------------------------------------------------------------------------------

  function DoBlock(w: World, a: Id, b: Id): Outcome<()> {
    if a == b then Outcome(w, Err(Yourself))
    else if (a, b) in w.blocks then Outcome(w, Ok(()))
    else Outcome(AfterBlock(w.(blocks := w.blocks + {(a, b)}), a, b), Ok(()))
  }

  // A report blocks too.  If it fails after that, the rows come back but the caches do not.
  function FailedReport(w: World, a: Id, b: Id): World {
    var blocked := DoBlock(w, a, b).world;
    w.(verdicts := blocked.verdicts, feeds := blocked.feeds)
  }

  function DoUnblock(w: World, a: Id, b: Id): World {
    w.(blocks := w.blocks - {(a, b)}, verdicts := w.verdicts - {Key(a, b)})
  }

  // ---- conversations -----------------------------------------------------------------------------------

  function DoOpenChat(w: World, u: Id, other: Id): Outcome<nat> {
    if u == other then Outcome(w, Err(Yourself))
    else if !IsActive(w, other) then Outcome(w, Err(Gone))
    else
      var asked := Asked(w, u, other);
      if SaysBlocked(w, u, other) then Outcome(asked, Err(Refused))
      else
        match Between(w.conversations, u, other, |w.conversations|)
        case Some(k) => Outcome(asked, Ok(k))
        case None =>
          Outcome(asked.(conversations := w.conversations + [NewConversation(u, other, None)]),
                  Ok(|w.conversations|))
  }

  function Delivered(c: Conversation, u: Id, body: string): Conversation {
    c.(messages := c.messages + [Message(u, body, false)],
       count := c.count + 1,
       unreadLow := if u == c.low then c.unreadLow else c.unreadLow + 1,
       unreadHigh := if u == c.high then c.unreadHigh else c.unreadHigh + 1)
  }

  // `withinPlan` is whether the plan's message limit lets one more through.
  function DoSend(w: World, u: Id, k: nat, body: Content, withinPlan: bool): Outcome<()> {
    if k >= |w.conversations| then Outcome(w, Err(NotFound))
    else if !IsMember(w.conversations[k], u) then Outcome(w, Err(NotYours))
    else if !w.conversations[k].open then Outcome(w, Err(Closed))
    else
      var other := OtherMember(w.conversations[k], u);
      var asked := Asked(w, u, other);
      if SaysBlocked(w, u, other) then Outcome(asked, Err(Refused))
      else if body.Empty? then Outcome(asked, Err(NothingWritten))
      else if body.Withheld? then Outcome(asked, Err(Moderated))
      else if !withinPlan then Outcome(asked, Err(QuotaExceeded))
      else
        Outcome(asked.(conversations := w.conversations[k := Delivered(w.conversations[k], u, body.text)]), Ok(()))
  }

  function ReadBy(ms: seq<Message>, u: Id): seq<Message> {
    seq(|ms|, i requires 0 <= i < |ms| => if ms[i].sender != u then ms[i].(read := true) else ms[i])
  }

  function Opened(c: Conversation, u: Id): Conversation {
    c.(messages := ReadBy(c.messages, u),
       unreadLow := if u == c.low then 0 else c.unreadLow,
       unreadHigh := if u == c.high then 0 else c.unreadHigh)
  }

  function DoRead(w: World, u: Id, k: nat): World {
    if k < |w.conversations| && IsMember(w.conversations[k], u)
    then w.(conversations := w.conversations[k := Opened(w.conversations[k], u)])
    else w
  }

  // ---- feeds -------------------------------------------------------------------------------------------

  function Only(ids: seq<Id>, pool: set<Id>): (r: seq<Id>)
    ensures forall x :: x in r <==> x in ids && x in pool
  {
    if ids == [] then []
    else Only(ids[..|ids| - 1], pool) + if ids[|ids| - 1] in pool then [ids[|ids| - 1]] else []
  }

  function Take(ids: seq<Id>, limit: nat): (r: seq<Id>)
    ensures forall x | x in r :: x in ids
  {
    if |ids| <= limit then ids else ids[..limit]
  }

  predicate ServesCached(w: World, u: Id) { u in w.feeds && w.now < w.feeds[u].until && w.feeds[u].ids != [] }

  // `dateable` is what the accounts module offers and `order` how matching ranks it.
  function DoBuildFeed(w: World, u: Id, limit: nat, refresh: bool, dateable: set<Id>, order: seq<Id>)
    : Outcome<seq<Id>>
  {
    if !refresh && ServesCached(w, u) then Outcome(w, Ok(Take(w.feeds[u].ids, limit)))
    else
      var pool := dateable - ExcludedIds(w, u);
      if pool == {} then Outcome(w, Ok([]))
      else
        var cards := Only(order, pool);
        Outcome(w.(feeds := w.feeds[u := Feed(cards, w.now + FEED_CACHE_SECONDS)]), Ok(Take(cards, limit)))
  }

  // ---- steps and runs ----------------------------------------------------------------------------------

  datatype Step =
    | SwipeStep(sender: Id, receiver: Id, kind: Kind, limits: Limits)
    | RewindStep(user: Id, entitled: bool, limits: Limits)
    | UnmatchStep(user: Id, matchId: nat)
    | BlockStep(blocker: Id, blocked: Id)
    | UnblockStep(blocker: Id, blocked: Id)
    | AskStep(a: Id, b: Id)
    | FailedReportStep(reporter: Id, reported: Id)
    | BanStep(user: Id)
    | PauseStep(user: Id)
    | RequestDeletionStep(user: Id)
    | ActivateStep(user: Id)
    | OpenChatStep(user: Id, other: Id)
    | SendStep(user: Id, conversation: nat, body: Content, withinPlan: bool)
    | ReadStep(user: Id, conversation: nat)
    | FeedStep(user: Id, limit: nat, refresh: bool, dateable: set<Id>, order: seq<Id>)
    | PruneStep(before: nat)
    | ArchiveStep(stale: set<nat>)
    | ResetQuotasStep
    | TickStep(seconds: nat)

  ghost function Next(w: World, s: Step): World {
    match s
    case SwipeStep(a, b, kind, limits) => DoSwipe(w, a, b, kind, limits).world
    case RewindStep(u, entitled, limits) => DoRewind(w, u, entitled, limits).world
    case UnmatchStep(u, m) => DoUnmatch(w, u, m).world
    case BlockStep(a, b) => DoBlock(w, a, b).world
    case UnblockStep(a, b) => DoUnblock(w, a, b)
    case AskStep(a, b) => Asked(w, a, b)
    case FailedReportStep(a, b) => FailedReport(w, a, b)
    case BanStep(u) => AfterBan(w.(standing := w.standing[u := Banned]), u)
    case PauseStep(u) => AfterPause(w.(standing := w.standing[u := Paused]), u)
    case RequestDeletionStep(u) => AfterRequest(w.(standing := w.standing[u := Paused]), u)
    case ActivateStep(u) => w.(standing := w.standing[u := Member])
    case OpenChatStep(u, other) => DoOpenChat(w, u, other).world
    case SendStep(u, k, body, withinPlan) => DoSend(w, u, k, body, withinPlan).world
    case ReadStep(u, k) => DoRead(w, u, k)
    case FeedStep(u, limit, refresh, dateable, order) => DoBuildFeed(w, u, limit, refresh, dateable, order).world
    case PruneStep(before) => w.(likes := Pruned(w.likes, before))
    case ArchiveStep(stale) => w.(conversations := Archived(w.conversations, stale))
    case ResetQuotasStep => ResetQuotas(w)
    case TickStep(seconds) => w.(now := w.now + seconds)
  }

  ghost function Run(w: World, steps: seq<Step>, n: nat): World
    requires n <= |steps|
  {
    if n == 0 then w else Next(Run(w, steps, n - 1), steps[n - 1])
  }

  // Empty tables and caches; any accounts, any time.
  predicate Fresh(w: World) {
    && w.likes == map[] && w.stamp == 0 && w.quotas == map[] && w.matches == [] && w.conversations == []
    && w.blocks == {} && w.verdicts == map[] && w.feeds == map[]
  }

  // ---- what always holds -------------------------------------------------------------------------------

  ghost predicate LikesOk(likes: Likes, stamp: nat) {
    && (forall p | p in likes :: p.0 != p.1 && likes[p].stamp < stamp)
    && forall p, q | p in likes && q in likes && p != q :: likes[p].stamp != likes[q].stamp
  }

  // One row per pair, in canonical order.
  ghost predicate MatchesOk(ms: seq<Match>) {
    && (forall i | 0 <= i < |ms| :: ms[i].low < ms[i].high && (ms[i].status == Active <==> ms[i].endedBy.None?))
    && forall i, j | 0 <= i < j < |ms| :: (ms[i].low, ms[i].high) != (ms[j].low, ms[j].high)
  }

  // An active match is earned by both sides and not blocked.
  ghost predicate Earned(ms: seq<Match>, likes: Likes, blocks: Blocks) {
    forall i | 0 <= i < |ms| && ms[i].status == Active ::
      && Keen(likes, ms[i].low, ms[i].high) && Keen(likes, ms[i].high, ms[i].low)
      && !BlockedEither(blocks, ms[i].low, ms[i].high)
  }

  ghost predicate Answered(likes: Likes, ms: seq<Match>) {
    forall a, b | Keen(likes, a, b) && Keen(likes, b, a) :: HasMatch(ms, a, b)
  }

  ghost predicate Severed(blocks: Blocks, likes: Likes) {
    forall p | p in likes :: !BlockedEither(blocks, p.0, p.1)
  }

  // Messages in ms that u has not read.
  function Unread(ms: seq<Message>, u: Id): nat {
    if ms == [] then 0
    else Unread(ms[..|ms| - 1], u) + if ms[|ms| - 1].sender != u && !ms[|ms| - 1].read then 1 else 0
  }

  ghost predicate Counted(c: Conversation) {
    && c.low < c.high
    && c.count == |c.messages|
    && c.unreadLow == Unread(c.messages, c.low)
    && c.unreadHigh == Unread(c.messages, c.high)
    && forall i | 0 <= i < |c.messages| :: IsMember(c, c.messages[i].sender)
  }

  // One conversation per pair, with true counters.
  ghost predicate ConversationsOk(cs: seq<Conversation>) {
    && (forall i | 0 <= i < |cs| :: Counted(cs[i]))
    && forall i, j | 0 <= i < j < |cs| :: (cs[i].low, cs[i].high) != (cs[j].low, cs[j].high)
  }

  predicate HasThread(cs: seq<Conversation>, m: nat) { exists i | 0 <= i < |cs| :: BelongsTo(cs[i], m) }

  // A conversation's match id names the match of exactly its members, and every match has one.
  ghost predicate Threaded(cs: seq<Conversation>, ms: seq<Match>) {
    && (forall i | 0 <= i < |cs| && cs[i].matchId.Some? ::
          cs[i].matchId.value < |ms| && Joins(ms[cs[i].matchId.value], cs[i].low, cs[i].high))
    && forall m | 0 <= m < |ms| :: HasThread(cs, m)
  }

  // A verdict of "not blocked" is never wrong.
  ghost predicate Safe(verdicts: map<(Id, Id), Verdict>, blocks: Blocks) {
    forall a, b | Key(a, b) in verdicts && BlockedEither(blocks, a, b) :: verdicts[Key(a, b)].blocked
  }

  ghost predicate FeedsOk(feeds: map<Id, Feed>, likes: Likes, ms: seq<Match>, blocks: Blocks) {
    forall u, x | u in feeds && x in feeds[u].ids :: !Hidden(likes, ms, blocks, u, x)
  }

  ghost predicate Coherent(w: World) {
    && LikesOk(w.likes, w.stamp)
    && MatchesOk(w.matches)
    && Earned(w.matches, w.likes, w.blocks)
    && Answered(w.likes, w.matches)
    && Severed(w.blocks, w.likes)
    && ConversationsOk(w.conversations)
    && Threaded(w.conversations, w.matches)
    && Safe(w.verdicts, w.blocks)
    && FeedsOk(w.feeds, w.likes, w.matches, w.blocks)
  }
}
