/** Which answer each call gives, and what it leaves behind: swiping, chatting, reading, parting, blocking,
    leaving the service, and the housekeeping. */
module CallRules {
  import opened Wrappers
  import opened Relationship

  // Everything but the verdicts is as it was, and those too unless w's rows were asked for this pair.
  ghost predicate OnlyAsked(w: World, v: World, a: Id, b: Id) {
    v == w.(verdicts := v.verdicts) && Remembered(w, v, a, b)
  }

  function Pair(a: Id, b: Id): (Id, Id) { if a <= b then (a, b) else (b, a) }

  // A stored answer holds until its time; without one the table answers.
  predicate Barred(w: World, a: Id, b: Id) {
    var key := Pair(a, b);
    if key in w.verdicts && w.verdicts[key].until > w.now then w.verdicts[key].blocked
    else (a, b) in w.blocks || (b, a) in w.blocks
  }

  // An answer is stored: the one that still held, or the table's, for three hundred seconds.
  ghost predicate Remembered(w: World, v: World, a: Id, b: Id) {
    var key := Pair(a, b);
    && key in v.verdicts && v.verdicts[key].blocked == Barred(w, a, b) && v.verdicts[key].until > w.now
    && (if key in w.verdicts && w.verdicts[key].until > w.now then v.verdicts == w.verdicts
        else v.verdicts == w.verdicts[key := v.verdicts[key]] && v.verdicts[key].until == w.now + 300)
  }

  lemma AskingRemembers(w: World, a: Id, b: Id)
    ensures OnlyAsked(w, Asked(w, a, b), a, b)
    ensures SaysBlocked(w, a, b) == Barred(w, a, b)
  {
    if a == b { assert Key(a, b) == Pair(a, b); }
  }

  predicate Offers(w: World, u: Id) { u in w.standing && w.standing[u].Member? }

  // Asking leaves nothing else behind; and neither does a report that blocks and then fails, but for the
  // verdict and the two feeds that the block has taken.
  lemma AskingAndFailingAreExact(w: World, a: Id, b: Id)
    ensures OnlyAsked(w, Next(w, AskStep(a, b)), a, b)
    ensures Next(w, FailedReportStep(a, b)) ==
              if a == b || (a, b) in w.blocks then w
              else w.(verdicts := w.verdicts[Pair(a, b) := Verdict(true, w.now + 300)], feeds := w.feeds - {a, b})
  {
    hide DoSwipe, DoRewind, DoSend, DoOpenChat, DoBuildFeed, DoUnmatch, DoRead, Asked, OnlyAsked;
    AskingRemembers(w, a, b);
  }

  // ---- swiping -----------------------------------------------------------------------------------------

  predicate Repeats(w: World, a: Id, b: Id, kind: Kind) {
    && (a, b) in w.likes && !w.likes[(a, b)].rewound
    && (w.likes[(a, b)].kind != Like || kind != SuperLike)
  }

  // The receiver likes the sender.
  predicate LikedBack(w: World, a: Id, b: Id, kind: Kind) {
    kind != Pass && (b, a) in w.likes && !w.likes[(b, a)].rewound && w.likes[(b, a)].kind != Pass
  }

  // Who is refused, in the order of the checks.  The daily limit is the only other refusal.
  lemma SwipeAnswers(w: World, a: Id, b: Id, kind: Kind, limits: Limits)
    ensures var done := DoSwipe(w, a, b, kind, limits);
            && (done.result == Err(Yourself) <==> a == b)
            && (done.result == Err(Gone) <==> a != b && !Offers(w, b))
            && (done.result == Err(Unavailable) <==> a != b && Offers(w, b) && Barred(w, a, b))
            && (done.result == Err(AlreadySwiped) <==>
                  a != b && Offers(w, b) && !Barred(w, a, b) && Repeats(w, a, b, kind))
            && (done.result.Err? ==> done.result.error in {Yourself, Gone, Unavailable, AlreadySwiped, QuotaExceeded})
            && (done.result.Ok? ==> (done.result.value.Some? <==> LikedBack(w, a, b, kind)))
            && (done.result.Err? ==> done.world == w || OnlyAsked(w, done.world, a, b))
  {
    hide Matched, Sent, MaySwipe, OnlyAsked, Barred, Asked;
    AskingRemembers(w, a, b);
  }

  // The row says what was said, in the place of the pair's former one; nobody else's row changes.
  ghost predicate Wrote(w: World, v: World, a: Id, b: Id, kind: Kind) {
    && (a, b) in v.likes && v.likes == w.likes[(a, b) := v.likes[(a, b)]]
    && v.likes[(a, b)].kind == kind && !v.likes[(a, b)].rewound
    && v.likes[(a, b)].stamp == (if (a, b) in w.likes then w.likes[(a, b)].stamp else w.stamp)
    && (if (a, b) in w.likes then v.stamp == w.stamp else v.stamp > w.stamp)
  }

  // No row of any other pair changed, and the pair has exactly one active row at i, at the end if new.
  ghost predicate Connected(ms: seq<Match>, after: seq<Match>, a: Id, b: Id, i: nat) {
    && i < |after| && after[i] == Match(Pair(a, b).0, Pair(a, b).1, Active, None)
    && (if i < |ms| then after == ms[i := after[i]] && (ms[i].low, ms[i].high) == Pair(a, b)
        else
          && i == |ms| && after == ms + [after[i]]
          && forall j | 0 <= j < |ms| :: (ms[j].low, ms[j].high) != Pair(a, b))
  }

  // A swipe that gets through writes its row and no other.
  lemma SwipeWrites(w: World, a: Id, b: Id, kind: Kind, limits: Limits)
    ensures var done := DoSwipe(w, a, b, kind, limits);
            var v := done.world;
            done.result.Ok? ==>
              && Wrote(w, v, a, b, kind) && v.now == w.now && v.standing == w.standing && v.blocks == w.blocks
              && Remembered(w, v, a, b)
  {
    hide MaySwipe, Today, Consumed, Remembered, Asked, SaysBlocked, Matched, MatchIdOf, Keen, MaySay;
    AskingStores(w, a, b);
    MatchingSparesRows(Sent(Asked(w, a, b), a, b, kind), a, b);
  }

  lemma MatchingSparesRows(w: World, a: Id, b: Id)
    ensures Matched(w, a, b) == w.(matches := Matched(w, a, b).matches, feeds := Matched(w, a, b).feeds,
                                   conversations := Matched(w, a, b).conversations)
  {}

  // Where the like is returned the two have an active match, and neither feed is kept; if not, no match
  // and no conversation changes, and only the sender's feed goes.
  lemma SwipeConnects(w: World, a: Id, b: Id, kind: Kind, limits: Limits)
    requires Coherent(w)
    ensures var done := DoSwipe(w, a, b, kind, limits);
            var v := done.world;
            done.result.Ok? ==>
              match done.result.value
              case None => v.matches == w.matches && v.conversations == w.conversations && v.feeds == w.feeds - {a}
              case Some(i) =>
                && Connected(w.matches, v.matches, a, b, i)
                && v.feeds == w.feeds - (if v.matches == w.matches then {a} else {a, b})
                && (v.matches == w.matches ==> v.conversations == w.conversations)
  {
    hide Coherent, MaySwipe, Today, Consumed, Housed, Asked, Connected, MaySay, Said, Remembered, SaysBlocked;
    hide WithMatch, Starts, MatchIdOf;
    AskingStores(w, a, b);
    if a != b { MatchingConnects(w, a, b); }
  }

  // A swipe that gets through has the answer stored that it asked for.
  lemma AskingStores(w: World, a: Id, b: Id)
    ensures OnlyAsked(w, Asked(w, a, b), a, b)
    ensures Asked(w, a, b) == w.(verdicts := Asked(w, a, b).verdicts)
    ensures forall v: World | v.verdicts == Asked(w, a, b).verdicts :: Remembered(w, v, a, b)
  {
    AskingRemembers(w, a, b);
  }

  lemma MatchingConnects(w: World, a: Id, b: Id)
    requires Coherent(w) && a != b
    ensures Connected(w.matches, if Starts(w.matches, a, b) then WithMatch(w.matches, a, b) else w.matches, a, b,
                      MatchIdOf(w.matches, a, b))
    ensures Starts(w.matches, a, b) ==> WithMatch(w.matches, a, b) != w.matches
  {
    hide Earned, Answered, Severed, ConversationsOk, Threaded, Safe, FeedsOk, LikesOk;
  }

  // ---- chatting ----------------------------------------------------------------------------------------

  predicate IsOneOf(c: Conversation, u: Id) { u in {c.low, c.high} }

  function Partner(c: Conversation, u: Id): Id { if u == c.low then c.high else c.low }

  // Who may write, in the order of the checks; and what is written.
  lemma SendingIsExact(w: World, u: Id, k: nat, body: Content, withinPlan: bool)
    ensures var done := DoSend(w, u, k, body, withinPlan);
            if k >= |w.conversations| then done == Outcome(w, Err(NotFound))
            else
              var c := w.conversations[k];
              var other := Partner(c, u);
              if !IsOneOf(c, u) then done == Outcome(w, Err(NotYours))
              else if !c.open then done == Outcome(w, Err(Closed))
              else if Barred(w, u, other) then done.result == Err(Refused) && OnlyAsked(w, done.world, u, other)
              else
                match body
                case Empty => done.result == Err(NothingWritten) && OnlyAsked(w, done.world, u, other)
                case Withheld => done.result == Err(Moderated) && OnlyAsked(w, done.world, u, other)
                case Passes(text) =>
                  if !withinPlan then done.result == Err(QuotaExceeded) && OnlyAsked(w, done.world, u, other)
                  else
                    && done.result == Ok(()) && Written(w, done.world, k, u, text)
                    && Remembered(w, done.world, u, other)
  {
    hide Asked, SaysBlocked, OnlyAsked, Remembered, Barred;
    if k < |w.conversations| && IsMember(w.conversations[k], u) {
      var other := OtherMember(w.conversations[k], u);
      AskingRemembers(w, u, other);
      AskingStores(w, u, other);
    }
  }

  // One unread message by u with this text stands at the end, and counts for the other member.
  ghost predicate Written(w: World, v: World, k: nat, u: Id, text: string) {
    && k < |w.conversations| && k < |v.conversations|
    && var c, d := w.conversations[k], v.conversations[k];
       && v == w.(conversations := w.conversations[k := d], verdicts := v.verdicts)
       && d == c.(messages := c.messages + [Message(u, text, false)], count := d.count,
                  unreadLow := d.unreadLow, unreadHigh := d.unreadHigh)
       && d.count == c.count + 1
       && (u == c.low != c.high ==> d.unreadHigh == c.unreadHigh + 1 && d.unreadLow == c.unreadLow)
       && (u == c.high != c.low ==> d.unreadLow == c.unreadLow + 1 && d.unreadHigh == c.unreadHigh)
  }

  // A member opens a chat with an active, unblocked other: the conversation they have, or a new one.
  lemma OpeningIsExact(w: World, u: Id, other: Id)
    requires Coherent(w)
    ensures var done := DoOpenChat(w, u, other);
            if u == other then done == Outcome(w, Err(Yourself))
            else if !Offers(w, other) then done == Outcome(w, Err(Gone))
            else if Barred(w, u, other) then done.result == Err(Refused) && OnlyAsked(w, done.world, u, other)
            else
              && done.result.Ok? && Remembered(w, done.world, u, other)
              && var k, v := done.result.value, done.world;
                 && k < |v.conversations| && (v.conversations[k].low, v.conversations[k].high) == Pair(u, other)
                 && (if k < |w.conversations| then v == w.(verdicts := v.verdicts)
                     else
                       && k == |w.conversations|
                       && v == w.(conversations := w.conversations + [v.conversations[k]], verdicts := v.verdicts)
                       && v.conversations[k].(low := 0, high := 0) == Conversation(0, 0, None, true, [], 0, 0, 0)
                       && forall i | 0 <= i < k ::
                            (w.conversations[i].low, w.conversations[i].high) != Pair(u, other))
  {
    hide Coherent, Asked, SaysBlocked, OnlyAsked, Remembered, Barred;
    AskingRemembers(w, u, other);
    AskingStores(w, u, other);
  }

  // Reading marks the others' messages, and clears the reader's counter and no other.
  lemma ReadingIsExact(w: World, u: Id, k: nat)
    ensures var v := Next(w, ReadStep(u, k));
            if k >= |w.conversations| || !IsOneOf(w.conversations[k], u) then v == w
            else
              var c, d := w.conversations[k], v.conversations[k];
              && v == w.(conversations := w.conversations[k := d]) && |d.messages| == |c.messages|
              && (forall i | 0 <= i < |c.messages| ::
                    d.messages[i] == c.messages[i].(read := c.messages[i].read || c.messages[i].sender != u))
              && d == c.(messages := d.messages, unreadLow := d.unreadLow, unreadHigh := d.unreadHigh)
              && d.unreadLow == (if c.low == u then 0 else c.unreadLow)
              && d.unreadHigh == (if c.high == u then 0 else c.unreadHigh)
  {}

  // ---- parting -----------------------------------------------------------------------------------------

  // Either member may end a match, once or again; its conversation closes, and nothing else changes.
  lemma UnmatchingIsExact(w: World, u: Id, m: nat)
    ensures var done := DoUnmatch(w, u, m);
            var v := done.world;
            if m >= |w.matches| then done == Outcome(w, Err(NotFound))
            else if u !in {w.matches[m].low, w.matches[m].high} then done == Outcome(w, Err(NotYours))
            else
              && done.result == Ok(())
              && v == w.(matches := w.matches[m := w.matches[m].(status := Unmatched, endedBy := Some(u))],
                         conversations := v.conversations)
              && OnlyClosed(w.conversations, v.conversations,
                            set k | 0 <= k < |w.conversations| && w.conversations[k].matchId == Some(m))
  {}

  // The conversations at these places are closed; that is all.
  ghost predicate OnlyClosed(cs: seq<Conversation>, ds: seq<Conversation>, closed: set<nat>) {
    && |ds| == |cs|
    && forall k: nat | k < |cs| :: ds[k] == if k in closed then cs[k].(open := false) else cs[k]
  }

  // Each active match of u is ended by u; that is all.
  ghost predicate OnlyEnded(ms: seq<Match>, after: seq<Match>, u: Id) {
    && |after| == |ms|
    && forall i | 0 <= i < |ms| ::
         after[i] == if (ms[i].low == u || ms[i].high == u) && ms[i].status == Active
                     then ms[i].(status := Unmatched, endedBy := Some(u)) else ms[i]
  }

  function Mine(cs: seq<Conversation>, u: Id): set<nat> {
    set k: nat | k < |cs| && (cs[k].low == u || cs[k].high == u)
  }

  // A ban ends the member's matches and closes the conversations; a pause does the first, a request for
  // deletion the second; and coming back restores neither.
  lemma LeavingIsExact(w: World, u: Id)
    ensures var v := Next(w, BanStep(u));
            && v == w.(standing := w.standing[u := Banned], matches := v.matches, conversations := v.conversations)
            && OnlyEnded(w.matches, v.matches, u)
            && OnlyClosed(w.conversations, v.conversations, Mine(w.conversations, u))
    ensures var v := Next(w, PauseStep(u));
            && v == w.(standing := w.standing[u := Paused], matches := v.matches)
            && OnlyEnded(w.matches, v.matches, u)
    ensures var v := Next(w, RequestDeletionStep(u));
            && v == w.(standing := w.standing[u := Paused], conversations := v.conversations)
            && OnlyClosed(w.conversations, v.conversations, Mine(w.conversations, u))
    ensures Next(w, ActivateStep(u)) == w.(standing := w.standing[u := Member])
  {
    hide DoSwipe, DoRewind, DoSend, DoOpenChat, DoBuildFeed, DoBlock, DoUnmatch, FailedReport, Asked, DoRead;
  }

  // ---- blocking ----------------------------------------------------------------------------------------

  // A block takes the rows of this pair and of nobody else; repeated it changes nothing.
  lemma BlockingIsExact(w: World, a: Id, b: Id)
    ensures var done := DoBlock(w, a, b);
            var v := done.world;
            if a == b then done == Outcome(w, Err(Yourself))
            else if (a, b) in w.blocks then done == Outcome(w, Ok(()))
            else
              && done.result == Ok(()) && v.blocks == w.blocks + {(a, b)}
              && v == w.(blocks := v.blocks, likes := w.likes - {(a, b), (b, a)}, matches := v.matches,
                         conversations := v.conversations, verdicts := v.verdicts, feeds := w.feeds - {a, b})
              && v.verdicts == w.verdicts[Pair(a, b) := Verdict(true, w.now + 300)]
              && |v.matches| == |w.matches|
              && (forall i | 0 <= i < |w.matches| ::
                    v.matches[i] ==
                      if (w.matches[i].low, w.matches[i].high) == Pair(a, b) && w.matches[i].status == Active
                      then w.matches[i].(status := Blocked, endedBy := Some(a)) else w.matches[i])
              && OnlyClosed(w.conversations, v.conversations,
                            set k | 0 <= k < |w.conversations| && ThreadEnds(w, v, w.conversations[k].matchId))
  {}

  // The match of this id is one that was active and is no longer.
  predicate ThreadEnds(w: World, v: World, m: Option<nat>) {
    m.Some? && m.value < |w.matches| && m.value < |v.matches|
    && w.matches[m.value].status == Active && v.matches[m.value].status != Active
  }

  // Lifting a block brings nothing back but the right to be asked anew.
  lemma UnblockingIsExact(w: World, a: Id, b: Id)
    ensures Next(w, UnblockStep(a, b)) == w.(blocks := w.blocks - {(a, b)}, verdicts := w.verdicts - {Pair(a, b)})
  {
    assert Key(a, b) == Pair(a, b);
  }

  // ---- housekeeping ------------------------------------------------------------------------------------

  // Old passes go and likes stay; time only passes.
  lemma PruningIsExact(w: World, before: nat, seconds: nat)
    ensures var v := Next(w, PruneStep(before));
            && v == w.(likes := v.likes)
            && (forall p :: p in v.likes <==> p in w.likes && (w.likes[p].kind != Pass || before <= w.likes[p].stamp))
            && forall p | p in v.likes :: v.likes[p] == w.likes[p]
    ensures Next(w, TickStep(seconds)) == w.(now := w.now + seconds)
  {
    hide DoSwipe, DoRewind, DoSend, DoOpenChat, DoBuildFeed, DoBlock, DoUnmatch, FailedReport, Asked, DoRead;
  }

  // Stale conversations close and others stay.
  lemma ArchivingIsExact(w: World, stale: set<nat>)
    ensures var v := Next(w, ArchiveStep(stale));
            v == w.(conversations := v.conversations) && OnlyClosed(w.conversations, v.conversations, stale)
  {
    hide DoSwipe, DoRewind, DoSend, DoOpenChat, DoBuildFeed, DoBlock, DoUnmatch, FailedReport, Asked, DoRead;
  }
}
