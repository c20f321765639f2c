/** Ranking a pool of candidates, and widening the radius when the result is too thin. */
module Ranking {
  import opened Wrappers
  import opened Engine

  type Id = nat

  datatype Row = Row(user: Id, score: int, distance: Option<real>, boosted: bool)

  // Everything the other services answer for one call.
  datatype Pool = Pool(setting: Setting, seeker: Id, payloads: map<Id, Profile>, accounts: map<Id, Account>)

  // ---- one candidate -----------------------------------------------------------------------------

  function Recency(account: Account): real { if account.online then 1.0 else 0.6 }

  function Seen(pool: Pool, id: Id): Profile
    requires id in pool.payloads && id in pool.accounts
  {
    pool.payloads[id].(recency := Recency(pool.accounts[id]))
  }

  // Why the candidate is left out, if it is.
  function Rejection(pool: Pool, seeker: Profile, prefs: Preferences, filtered: bool, id: Id): Option<Reason> {
    if id !in pool.payloads || id !in pool.accounts then Some(MissingData)
    else if !filtered then None
    else Refusal(prefs, Seen(pool, id), pool.accounts[id], Engine.Distance(pool.setting, seeker, Seen(pool, id)))
  }

  function RowOf(pool: Pool, seeker: Profile, prefs: Preferences, id: Id): Row
    requires id in pool.payloads && id in pool.accounts
  {
    var p := Seen(pool, id);
    Row(id, Score(pool.setting, seeker, prefs, p), Engine.Distance(pool.setting, seeker, p), p.boosted)
  }

  // ---- the pool ----------------------------------------------------------------------------------

  function Others(ids: seq<Id>, seeker: Id): seq<Id> {
    if ids == [] then []
    else Others(ids[..|ids| - 1], seeker) + if ids[|ids| - 1] != seeker then [ids[|ids| - 1]] else []
  }

  // The rows of the first n candidates that pass, in input order.
  function Passers(pool: Pool, seeker: Profile, prefs: Preferences, filtered: bool, ids: seq<Id>, n: nat): seq<Row>
    requires n <= |ids|
  {
    if n == 0 then []
    else
      var rest := Passers(pool, seeker, prefs, filtered, ids, n - 1);
      if Rejection(pool, seeker, prefs, filtered, ids[n - 1]).None?
      then rest + [RowOf(pool, seeker, prefs, ids[n - 1])] else rest
  }

  function Rejected(
    pool: Pool, seeker: Profile, prefs: Preferences, filtered: bool, ids: seq<Id>, n: nat, why: Reason): nat
    requires n <= |ids|
  {
    if n == 0 then 0
    else
      Rejected(pool, seeker, prefs, filtered, ids, n - 1, why)
      + Charge(Rejection(pool, seeker, prefs, filtered, ids[n - 1]), why)
  }

  function Charge(refusal: Option<Reason>, why: Reason): nat { if refusal == Some(why) then 1 else 0 }

  // Candidates among the first n refused for any reason.
  function Refusals(pool: Pool, seeker: Profile, prefs: Preferences, filtered: bool, ids: seq<Id>, n: nat): nat
    requires n <= |ids|
  {
    Rejected(pool, seeker, prefs, filtered, ids, n, MissingData)
    + Rejected(pool, seeker, prefs, filtered, ids, n, ProfileHidden)
    + Rejected(pool, seeker, prefs, filtered, ids, n, GenderPreference)
    + Rejected(pool, seeker, prefs, filtered, ids, n, OutsideAgeRange)
    + Rejected(pool, seeker, prefs, filtered, ids, n, NoPhotos)
    + Rejected(pool, seeker, prefs, filtered, ids, n, NotVerified)
    + Rejected(pool, seeker, prefs, filtered, ids, n, TooFar)
  }

  type Tally = map<Reason, nat>

  function Tallied(t: Tally, why: Reason): nat { if why in t then t[why] else 0 }

  function TallySum(t: Tally): nat {
    Tallied(t, MissingData) + Tallied(t, ProfileHidden) + Tallied(t, GenderPreference) + Tallied(t, OutsideAgeRange)
    + Tallied(t, NoPhotos) + Tallied(t, NotVerified) + Tallied(t, TooFar)
  }

  // ---- the order of rows -------------------------------------------------------------------------

  // Strictly ahead in (is_boosted, score), descending.
  predicate Outranks(a: Row, b: Row) {
    (a.boosted && !b.boosted) || (a.boosted == b.boosted && a.score > b.score)
  }

  predicate Ties(a: Row, b: Row) { a.boosted == b.boosted && a.score == b.score }

  // The new row goes behind every row it does not outrank, so ties keep their order.
  function Insert(rows: seq<Row>, r: Row): seq<Row> {
    if rows == [] || !Outranks(r, rows[|rows| - 1]) then rows + [r]
    else Insert(rows[..|rows| - 1], r) + [rows[|rows| - 1]]
  }

  function Sorted(rows: seq<Row>): seq<Row> {
    if rows == [] then [] else Insert(Sorted(rows[..|rows| - 1]), rows[|rows| - 1])
  }

  function Take(rows: seq<Row>, limit: nat): seq<Row> { if |rows| <= limit then rows else rows[..limit] }

  function LevelOf(r: Row, like: Row): seq<Row> { if Ties(r, like) then [r] else [] }

  // Rows that tie with `like`, in order.
  function Level(rows: seq<Row>, like: Row): seq<Row> {
    if rows == [] then []
    else Level(rows[..|rows| - 1], like) + LevelOf(rows[|rows| - 1], like)
  }

  ghost predicate Descending(rows: seq<Row>) {
    forall i, j | 0 <= i < j < |rows| :: !Outranks(rows[j], rows[i])
  }

  lemma LevelOneMore(rows: seq<Row>, r: Row, like: Row)
    ensures Level(rows + [r], like) == Level(rows, like) + LevelOf(r, like)
  {
    assert (rows + [r])[..|rows|] == rows;
  }

  lemma {:induction false} InsertMembers(rows: seq<Row>, r: Row)
    ensures |Insert(rows, r)| == |rows| + 1
    ensures forall i | 0 <= i <= |rows| :: Insert(rows, r)[i] in rows || Insert(rows, r)[i] == r
  {
    if rows != [] && Outranks(r, rows[|rows| - 1]) {
      var init := rows[..|rows| - 1];
      InsertMembers(init, r);
      forall i | 0 <= i < |rows| ensures Insert(rows, r)[i] in rows || Insert(rows, r)[i] == r {
        assert Insert(rows, r)[i] == Insert(init, r)[i];
        if Insert(init, r)[i] in init {
          var k :| 0 <= k < |init| && init[k] == Insert(init, r)[i];
          assert rows[k] == init[k];
        }
      }
    }
  }

  lemma {:induction false} InsertDescends(rows: seq<Row>, r: Row)
    requires Descending(rows)
    ensures Descending(Insert(rows, r))
  {
    if rows != [] {
      var init, last := rows[..|rows| - 1], rows[|rows| - 1];
      if Outranks(r, last) {
        InsertDescends(init, r);
        InsertMembers(init, r);
        var inserted := Insert(init, r);
        forall i | 0 <= i < |inserted| ensures !Outranks(last, inserted[i]) {
          if inserted[i] in init {
            var k :| 0 <= k < |init| && init[k] == inserted[i];
            assert rows[k] == inserted[i];
          }
        }
      }
    }
  }

  lemma OutrankingIsNoTie(a: Row, b: Row, like: Row)
    requires Outranks(a, b)
    ensures !(Ties(a, like) && Ties(b, like))
  {}

  lemma SwapIfEmpty(s: seq<Row>, x: seq<Row>, y: seq<Row>)
    requires x == [] || y == []
    ensures s + x + y == s + y + x
  {}

  lemma {:induction false} InsertLevel(rows: seq<Row>, r: Row, like: Row)
    ensures Level(Insert(rows, r), like) == Level(rows, like) + LevelOf(r, like)
  {
    LevelOneMore(rows, r, like);
    if rows != [] && Outranks(r, rows[|rows| - 1]) {
      var init, last := rows[..|rows| - 1], rows[|rows| - 1];
      InsertLevel(init, r, like);
      LevelOneMore(Insert(init, r), last, like);
      OutrankingIsNoTie(r, last, like);
      SwapIfEmpty(Level(init, like), LevelOf(r, like), LevelOf(last, like));
    }
  }

  // Every boosted row comes before every other, whatever their scores.
  lemma BoostedRowsComeFirst(rows: seq<Row>, i: nat, j: nat)
    requires j < |rows| && rows[j].boosted && i < |rows| && !rows[i].boosted
    ensures exists k, l :: 0 <= k < l < |Sorted(rows)| && Sorted(rows)[k] == rows[j] && Sorted(rows)[l] == rows[i]
  {
    SortedIsStable(rows, rows[j]);
    SortedIsStable(rows, rows[i]);
    var sorted := Sorted(rows);
    LevelHolds(rows, rows[j], j);
    LevelHolds(rows, rows[i], i);
    LevelOccurs(sorted, rows[j], rows[j]);
    LevelOccurs(sorted, rows[i], rows[i]);
    var k :| 0 <= k < |sorted| && sorted[k] == rows[j];
    var l :| 0 <= l < |sorted| && sorted[l] == rows[i];
    assert l < k ==> !Outranks(sorted[k], sorted[l]);
  }

  lemma {:induction false} LevelHolds(rows: seq<Row>, like: Row, i: nat)
    requires i < |rows| && Ties(rows[i], like)
    ensures rows[i] in Level(rows, like)
  {
    if i < |rows| - 1 { LevelHolds(rows[..|rows| - 1], like, i); }
  }

  lemma {:induction false} LevelOccurs(rows: seq<Row>, like: Row, r: Row)
    ensures r in Level(rows, like) ==> exists i :: 0 <= i < |rows| && rows[i] == r
  {
    if rows != [] {
      LevelOccurs(rows[..|rows| - 1], like, r);
      if r in Level(rows[..|rows| - 1], like) {
        var i :| 0 <= i < |rows| - 1 && rows[..|rows| - 1][i] == r;
        assert rows[i] == r;
      }
    }
  }

  // Sorting puts the rows in descending order and leaves each level exactly as it was: nothing is
  // lost, nothing is added, and ties stay in input order.
  lemma {:induction false} SortedIsStable(rows: seq<Row>, like: Row)
    ensures Descending(Sorted(rows))
    ensures Level(Sorted(rows), like) == Level(rows, like)
    ensures |Sorted(rows)| == |rows|
  {
    hide Outranks, Ties, Insert;
    if rows != [] {
      var init, last := rows[..|rows| - 1], rows[|rows| - 1];
      SortedIsStable(init, like);
      InsertMembers(Sorted(init), last);
      InsertDescends(Sorted(init), last);
      InsertLevel(Sorted(init), last, like);
      LevelOneMore(Sorted(init), last, like);
      LevelOneMore(init, last, like);
      assert rows == init + [last];
    }
  }

  // Being descending and keeping every level is all there is to it: only one list does both.
  lemma {:induction false} DescendingLevelsDetermine(a: seq<Row>, b: seq<Row>)
    requires Descending(a) && Descending(b) && |a| == |b|
    requires forall like :: Level(a, like) == Level(b, like)
    ensures a == b
  {
    if a != [] {
      var n := |a| - 1;
      LastRowsAgree(a, b);
      forall like ensures Level(a[..n], like) == Level(b[..n], like) {
        hide Ties;
        assert Level(a, like) == Level(b, like);
        LevelSplit(a, like);
        LevelSplit(b, like);
        DropLast(Level(a[..n], like), Level(b[..n], like), a[n]);
      }
      DescendingLevelsDetermine(a[..n], b[..n]);
      assert a == a[..n] + [a[n]] && b == b[..n] + [b[n]];
    }
  }

  // The two last rows tie: each one's level is non-empty in the other list.
  lemma LastRowsTie(a: seq<Row>, b: seq<Row>)
    requires Descending(a) && Descending(b) && |a| == |b| > 0
    requires Level(a, a[|a| - 1]) == Level(b, a[|a| - 1])
    requires Level(a, b[|b| - 1]) == Level(b, b[|b| - 1])
    ensures Ties(a[|a| - 1], b[|b| - 1])
  {
    hide Level;
    var x, y := a[|a| - 1], b[|b| - 1];
    LevelLast(a, x);
    LevelLast(b, y);
    LevelMember(b, x);
    LevelMember(a, y);
    var i :| 0 <= i < |b| && Ties(b[i], x);
    var j :| 0 <= j < |a| && Ties(a[j], y);
    assert i < |b| - 1 ==> !Outranks(y, b[i]);
    assert j < |a| - 1 ==> !Outranks(x, a[j]);
  }

  lemma LastRowsAgree(a: seq<Row>, b: seq<Row>)
    requires Descending(a) && Descending(b) && |a| == |b| > 0
    requires forall like :: Level(a, like) == Level(b, like)
    ensures a[|a| - 1] == b[|b| - 1]
  {
    var x, y := a[|a| - 1], b[|b| - 1];
    LastRowsTie(a, b);
    SameLast(a, b, x, y);
  }

  lemma SameLast(a: seq<Row>, b: seq<Row>, x: Row, y: Row)
    requires |a| == |b| > 0 && x == a[|a| - 1] && y == b[|b| - 1] && Ties(x, y)
    requires Level(a, x) == Level(b, x)
    ensures x == y
  {
    hide Level, Outranks;
    LevelLast(a, x);
    LevelLast(b, x);
  }

  lemma LevelSplit(rows: seq<Row>, like: Row)
    requires rows != []
    ensures Level(rows, like) ==
            Level(rows[..|rows| - 1], like) + LevelOf(rows[|rows| - 1], like)
  {}

  lemma DropLast(s: seq<Row>, t: seq<Row>, x: Row)
    ensures s + [x] == t + [x] ==> s == t
    ensures s + [] == t + [] ==> s == t
  {
    assert s + [] == s && t + [] == t;
    assert (s + [x])[..|s|] == s && (t + [x])[..|t|] == t;
    assert |s + [x]| == |s| + 1 && |t + [x]| == |t| + 1;
  }

  lemma LevelLast(rows: seq<Row>, like: Row)
    requires rows != [] && Ties(rows[|rows| - 1], like)
    ensures Level(rows, like) != [] && Level(rows, like)[|Level(rows, like)| - 1] == rows[|rows| - 1]
  {}

  lemma {:induction false} LevelMember(rows: seq<Row>, like: Row)
    ensures Level(rows, like) != [] ==> exists i :: 0 <= i < |rows| && Ties(rows[i], like)
  {
    if rows != [] { LevelMember(rows[..|rows| - 1], like); }
  }

  // ---- rank_candidates ---------------------------------------------------------------------------

  function Ranked(pool: Pool, prefs: Preferences, filtered: bool, ids: seq<Id>, limit: nat): seq<Row> {
    var considered := Others(ids, pool.seeker);
    if pool.seeker !in pool.payloads then []
    else Take(Sorted(Passers(pool, pool.payloads[pool.seeker], prefs, filtered, considered, |considered|)), limit)
  }

  // The best `limit` passers come back, best first; no passer left out outranks one that is in.
  lemma NoOmittedPasserOutranks(pool: Pool, prefs: Preferences, filtered: bool, ids: seq<Id>, limit: nat)
    requires pool.seeker in pool.payloads
    ensures var considered := Others(ids, pool.seeker);
            var sorted := Sorted(Passers(pool, pool.payloads[pool.seeker], prefs, filtered, considered, |considered|));
            var rows := Ranked(pool, prefs, filtered, ids, limit);
            && Descending(rows)
            && |rows| == (if |sorted| < limit then |sorted| else limit)
            && rows == sorted[..|rows|]
            && forall i, j | 0 <= i < |rows| <= j < |sorted| :: !Outranks(sorted[j], rows[i])
  {
    hide Passers, Sorted, Others, Outranks;
    var considered := Others(ids, pool.seeker);
    var passers := Passers(pool, pool.payloads[pool.seeker], prefs, filtered, considered, |considered|);
    SortedIsStable(passers, Row(0, 0, None, false));
  }

  // One more candidate adds one to exactly one of the eight counts.
  lemma OneFate(pool: Pool, seeker: Profile, prefs: Preferences, filtered: bool, ids: seq<Id>, n: nat)
    requires n < |ids|
    ensures Refusals(pool, seeker, prefs, filtered, ids, n + 1) == Refusals(pool, seeker, prefs, filtered, ids, n)
              + if Rejection(pool, seeker, prefs, filtered, ids[n]).Some? then 1 else 0
  {
    hide Rejection, Charge;
    OneReason(Rejection(pool, seeker, prefs, filtered, ids[n]));
  }

  lemma OneReason(refusal: Option<Reason>)
    ensures Charge(refusal, MissingData) + Charge(refusal, ProfileHidden) + Charge(refusal, GenderPreference)
            + Charge(refusal, OutsideAgeRange) + Charge(refusal, NoPhotos) + Charge(refusal, NotVerified)
            + Charge(refusal, TooFar) == if refusal.Some? then 1 else 0
  {
    match refusal
    case None =>
    case Some(why) =>
      match why
      case MissingData =>
      case ProfileHidden =>
      case GenderPreference =>
      case OutsideAgeRange =>
      case NoPhotos =>
      case NotVerified =>
      case TooFar =>
  }

  // Every candidate considered either passes or is counted once, under the filter that refused it.
  lemma {:induction false} EveryCandidateIsAccountedFor(
    pool: Pool, seeker: Profile, prefs: Preferences, filtered: bool, ids: seq<Id>, n: nat)
    requires n <= |ids|
    ensures |Passers(pool, seeker, prefs, filtered, ids, n)| + Refusals(pool, seeker, prefs, filtered, ids, n) == n
  {
    hide Refusals, Rejected;
    if n == 0 {
      NothingRefused(pool, seeker, prefs, filtered, ids);
    } else {
      EveryCandidateIsAccountedFor(pool, seeker, prefs, filtered, ids, n - 1);
      OneFate(pool, seeker, prefs, filtered, ids, n - 1);
    }
  }

  lemma NothingRefused(pool: Pool, seeker: Profile, prefs: Preferences, filtered: bool, ids: seq<Id>)
    ensures Refusals(pool, seeker, prefs, filtered, ids, 0) == 0
  {}

  lemma TallySumIsRejections(
    pool: Pool, seeker: Profile, prefs: Preferences, filtered: bool, ids: seq<Id>, t: Tally)
    requires forall why :: Tallied(t, why) == Rejected(pool, seeker, prefs, filtered, ids, |ids|, why)
    ensures |ids| == |Passers(pool, seeker, prefs, filtered, ids, |ids|)| + TallySum(t)
  {
    EveryCandidateIsAccountedFor(pool, seeker, prefs, filtered, ids, |ids|);
  }

  method RankCandidates(pool: Pool, prefs: Preferences, filtered: bool, ids: seq<Id>, limit: nat)
    returns (rows: seq<Row>, considered: nat, passed: nat, rejected: Tally)
    ensures rows == Ranked(pool, prefs, filtered, ids, limit)
    ensures pool.seeker in pool.payloads ==> considered == passed + TallySum(rejected) == |Others(ids, pool.seeker)|
    ensures pool.seeker in pool.payloads ==>
              var others := Others(ids, pool.seeker);
              forall why ::
                Tallied(rejected, why)
                == Rejected(pool, pool.payloads[pool.seeker], prefs, filtered, others, |others|, why)
    ensures pool.seeker in pool.payloads ==> |rows| == if passed < limit then passed else limit
  {
    hide Sorted, Outranks, Others, Refusal, Score;
    var candidates := DropSeeker(ids, pool.seeker);
    considered, passed, rejected := |candidates|, 0, map[];
    if pool.seeker !in pool.payloads {
      return [], considered, passed, rejected;
    }
    var seeker := pool.payloads[pool.seeker];
    rows := [];
    var i := 0;
    while i < |candidates|
      invariant 0 <= i <= |candidates|
      invariant rows == Passers(pool, seeker, prefs, filtered, candidates, i)
      invariant forall why :: Tallied(rejected, why) == Rejected(pool, seeker, prefs, filtered, candidates, i, why)
    {
      var id := candidates[i];
      var why := Rejection(pool, seeker, prefs, filtered, id);
      i := i + 1;
      if why.Some? {
        rejected := rejected[why.value := Tallied(rejected, why.value) + 1];
        continue;
      }
      rows := rows + [RowOf(pool, seeker, prefs, id)];
    }
    TallySumIsRejections(pool, seeker, prefs, filtered, candidates, rejected);
    passed := |rows|;
    SortedIsStable(rows, Row(0, 0, None, false));
    rows := Take(Sorted(rows), limit);
  }

  method DropSeeker(ids: seq<Id>, seeker: Id) returns (others: seq<Id>)
    ensures others == Others(ids, seeker)
  {
    others := [];
    for i := 0 to |ids|
      invariant others == Others(ids[..i], seeker)
    {
      assert ids[..i + 1][..i] == ids[..i];
      if ids[i] != seeker {
        others := others + [ids[i]];
      }
    }
    assert ids[..|ids|] == ids;
  }

  // ---- a wider radius ----------------------------------------------------------------------------

  function Users(rows: seq<Row>): set<Id> { set r | r in rows :: r.user }

  // Every candidate that passes still passes within a larger radius.
  lemma {:induction false} WiderKeepsPassers(
    pool: Pool, seeker: Profile, prefs: Preferences, wide: nat, filtered: bool, ids: seq<Id>, n: nat)
    requires n <= |ids| && prefs.maxDistance <= wide
    ensures var strict := Passers(pool, seeker, prefs, filtered, ids, n);
            var relaxed := Passers(pool, seeker, prefs.(maxDistance := wide), filtered, ids, n);
            Users(strict) <= Users(relaxed) && |strict| <= |relaxed|
  {
    if n > 0 {
      WiderKeepsPassers(pool, seeker, prefs, wide, filtered, ids, n - 1);
      var id := ids[n - 1];
      if id in pool.payloads && id in pool.accounts {
        var p := Seen(pool, id);
        WiderFiltersAcceptMore(prefs, p, pool.accounts[id], Engine.Distance(pool.setting, seeker, p), wide);
        UsersOneMore(Passers(pool, seeker, prefs, filtered, ids, n - 1), RowOf(pool, seeker, prefs, id));
        UsersOneMore(
          Passers(pool, seeker, prefs.(maxDistance := wide), filtered, ids, n - 1),
          RowOf(pool, seeker, prefs.(maxDistance := wide), id));
      }
    }
  }

  lemma UsersOneMore(rows: seq<Row>, r: Row)
    ensures Users(rows + [r]) == Users(rows) + {r.user}
  {
    forall x | x in Users(rows) + {r.user} ensures x in Users(rows + [r]) {
      if x == r.user {
        assert r in rows + [r];
      } else {
        var q :| q in rows && q.user == x;
        assert q in rows + [r];
      }
    }
  }

  lemma WiderRanksNoFewer(pool: Pool, prefs: Preferences, wide: nat, filtered: bool, ids: seq<Id>, limit: nat)
    requires prefs.maxDistance <= wide
    ensures |Ranked(pool, prefs, filtered, ids, limit)|
            <= |Ranked(pool, prefs.(maxDistance := wide), filtered, ids, limit)|
  {
    if pool.seeker in pool.payloads {
      var seeker, considered := pool.payloads[pool.seeker], Others(ids, pool.seeker);
      WiderKeepsPassers(pool, seeker, prefs, wide, filtered, considered, |considered|);
      NoOmittedPasserOutranks(pool, prefs, filtered, ids, limit);
      NoOmittedPasserOutranks(pool, prefs.(maxDistance := wide), filtered, ids, limit);
      SortedIsStable(Passers(pool, seeker, prefs, filtered, considered, |considered|), Row(0, 0, None, false));
      SortedIsStable(
        Passers(pool, seeker, prefs.(maxDistance := wide), filtered, considered, |considered|), Row(0, 0, None, false));
    }
  }

  const MIN_FEED_SIZE := 10

  // The multiples of the member's own distance that are tried, after 1.
  const STEPS := [3, 10, 100]

  function Original(prefs: Preferences): nat { if prefs.maxDistance == 0 then 100 else prefs.maxDistance }

  // Ranks at the k-th radius: the member's own, then each multiple.
  function AtStep(pool: Pool, prefs: Preferences, ids: seq<Id>, limit: nat, k: nat): seq<Row>
    requires k <= |STEPS|
  {
    if k == 0 then Ranked(pool, prefs, true, ids, limit)
    else Ranked(pool, prefs.(maxDistance := Original(prefs) * STEPS[k - 1]), true, ids, limit)
  }

  lemma StepsNeverShrink(pool: Pool, prefs: Preferences, ids: seq<Id>, limit: nat, j: nat, k: nat)
    requires j <= k <= |STEPS|
    ensures |AtStep(pool, prefs, ids, limit, j)| <= |AtStep(pool, prefs, ids, limit, k)|
  {
    if j < k {
      var original := Original(prefs);
      var narrow := if j == 0 then prefs else prefs.(maxDistance := original * STEPS[j - 1]);
      WiderRanksNoFewer(pool, narrow, original * STEPS[k - 1], true, ids, limit);
      assert narrow.(maxDistance := original * STEPS[k - 1]) == prefs.(maxDistance := original * STEPS[k - 1]);
    }
  }

  datatype Card = Card(row: Row, outsideRange: bool)

  // Widening until the feed is long enough.  The result is the ranking at the least radius that
  // gives as many rows as the rule can get: at least MIN_FEED_SIZE, or else as many as the widest.
  method RankWidening(pool: Pool, prefs: Preferences, ids: seq<Id>, limit: nat)
    returns (ranked: seq<Row>, expandedFrom: Option<nat>, ghost k: nat)
    ensures k <= |STEPS| && ranked == AtStep(pool, prefs, ids, limit, k)
    ensures |ranked| >= |AtStep(pool, prefs, ids, limit, 0)|
    ensures |ranked| >= MIN_FEED_SIZE || |ranked| == |AtStep(pool, prefs, ids, limit, |STEPS|)|
    ensures forall j | 0 <= j < k ::
              && |AtStep(pool, prefs, ids, limit, j)| < MIN_FEED_SIZE
              && |AtStep(pool, prefs, ids, limit, j)| < |ranked|
    ensures expandedFrom == if k == 0 then None else Some(Original(prefs))
  {
    ranked := Ranked(pool, prefs, true, ids, limit);
    expandedFrom, k := None, 0;
    if |ranked| < MIN_FEED_SIZE {
      var original := Original(prefs);
      var i := 0;
      while i < |STEPS|
        invariant 0 <= i <= |STEPS| && k <= i
        invariant ranked == AtStep(pool, prefs, ids, limit, k)
        invariant |ranked| < MIN_FEED_SIZE
        invariant |ranked| == |AtStep(pool, prefs, ids, limit, i)|
        invariant forall j | 0 <= j < k :: |AtStep(pool, prefs, ids, limit, j)| < |ranked|
        invariant expandedFrom == if k == 0 then None else Some(original)
      {
        var widened := Ranked(pool, prefs.(maxDistance := original * STEPS[i]), true, ids, limit);
        i := i + 1;
        assert widened == AtStep(pool, prefs, ids, limit, i);
        forall j | 0 <= j <= i ensures |AtStep(pool, prefs, ids, limit, j)| <= |widened| {
          StepsNeverShrink(pool, prefs, ids, limit, j, i);
        }
        forall j | 0 <= j < i ensures |AtStep(pool, prefs, ids, limit, j)| <= |ranked| {
          StepsNeverShrink(pool, prefs, ids, limit, j, i - 1);
        }
        if |widened| > |ranked| {
          ranked, expandedFrom, k := widened, Some(original), i;
        }
        if |ranked| >= MIN_FEED_SIZE {
          break;
        }
      }
    }
    StepsNeverShrink(pool, prefs, ids, limit, 0, k);
  }

  // The rows whose profile can be shown, in rank order.
  function Shown(ranked: seq<Row>, shown: set<Id>, n: nat): seq<Row>
    requires n <= |ranked|
  {
    if n == 0 then []
    else Shown(ranked, shown, n - 1) + if ranked[n - 1].user in shown then [ranked[n - 1]] else []
  }

  // Farther than the member's own distance, in a feed that was widened.
  predicate IsOutside(row: Row, expandedFrom: Option<nat>) {
    expandedFrom.Some? && row.distance.Some? && row.distance.value > expandedFrom.value as real
  }

  // One card for each of them, in that order, marked exactly if outside.
  method Hydrate(ranked: seq<Row>, shown: set<Id>, expandedFrom: Option<nat>) returns (cards: seq<Card>)
    ensures var rows := Shown(ranked, shown, |ranked|);
            && |cards| == |rows|
            && forall k | 0 <= k < |rows| :: cards[k] == Card(rows[k], IsOutside(rows[k], expandedFrom))
  {
    cards := [];
    for i := 0 to |ranked|
      invariant |cards| == |Shown(ranked, shown, i)|
      invariant forall k | 0 <= k < |cards| :: cards[k] == Card(Shown(ranked, shown, i)[k], false)
    {
      if ranked[i].user in shown {
        cards := cards + [Card(ranked[i], false)];
      }
    }
    if expandedFrom.Some? {
      var i := 0;
      while i < |cards|
        invariant 0 <= i <= |cards| == |Shown(ranked, shown, |ranked|)|
        invariant forall k | 0 <= k < |cards| ::
                    var row := Shown(ranked, shown, |ranked|)[k];
                    cards[k] == Card(row, k < i && IsOutside(row, expandedFrom))
      {
        var d := cards[i].row.distance;
        cards := cards[i := cards[i].(outsideRange := d.Some? && d.value > expandedFrom.value as real)];
        i := i + 1;
      }
    }
  }
}
