/** Who is dropped when a ranking is cut: every passer has a place, and the cut keeps the first places. */
module Displacement {
  import opened Wrappers
  import opened Engine
  import opened Ranking

  // ---- places --------------------------------------------------------------------------------------

  // Passer j comes before passer i: it outranks it, or ties with it and was considered earlier.
  predicate Before(rows: seq<Row>, j: nat, i: nat)
    requires j < |rows| && i < |rows|
  {
    Outranks(rows[j], rows[i]) || (j < i && Ties(rows[j], rows[i]))
  }

  function BeforeAmong(rows: seq<Row>, i: nat, n: nat): nat
    requires i < |rows| && n <= |rows|
  {
    if n == 0 then 0 else BeforeAmong(rows, i, n - 1) + if Before(rows, n - 1, i) then 1 else 0
  }

  // How many passers come before passer i.
  function Place(rows: seq<Row>, i: nat): nat
    requires i < |rows|
  {
    BeforeAmong(rows, i, |rows|)
  }

  lemma OrderIsTotal(a: Row, b: Row)
    ensures (Outranks(a, b) || Ties(a, b)) <==> !Outranks(b, a)
  {}

  lemma BeforeIsTransitive(rows: seq<Row>, k: nat, j: nat, i: nat)
    requires k < |rows| && j < |rows| && i < |rows| && Before(rows, k, j) && Before(rows, j, i)
    ensures Before(rows, k, i)
  {}

  lemma {:induction false} BeforeCountsMore(rows: seq<Row>, j: nat, i: nat, n: nat)
    requires j < |rows| && i < |rows| && n <= |rows| && Before(rows, j, i)
    ensures BeforeAmong(rows, j, n) + (if j < n then 1 else 0) <= BeforeAmong(rows, i, n)
  {
    if n > 0 {
      BeforeCountsMore(rows, j, i, n - 1);
      if Before(rows, n - 1, j) { BeforeIsTransitive(rows, n - 1, j, i); }
    }
  }

  // Who comes before has the lower place, so no two passers share one.
  lemma PlacesFollowTheOrder(rows: seq<Row>, j: nat, i: nat)
    requires j < |rows| && i < |rows| && Before(rows, j, i)
    ensures Place(rows, j) < Place(rows, i)
  {
    BeforeCountsMore(rows, j, i, |rows|);
  }

  // ---- places and sorting --------------------------------------------------------------------------

  // Rows that r does not outrank.
  function NotOutranked(rows: seq<Row>, r: Row): nat {
    if rows == [] then 0
    else NotOutranked(rows[..|rows| - 1], r) + if Outranks(r, rows[|rows| - 1]) then 0 else 1
  }

  lemma NotOutrankedOneMore(rows: seq<Row>, x: Row, r: Row)
    ensures NotOutranked(rows + [x], r) == NotOutranked(rows, r) + if Outranks(r, x) then 0 else 1
  {
    assert (rows + [x])[..|rows|] == rows;
  }

  lemma {:induction false} InsertCounts(rows: seq<Row>, x: Row, r: Row)
    ensures NotOutranked(Insert(rows, x), r) == NotOutranked(rows, r) + if Outranks(r, x) then 0 else 1
  {
    hide Outranks;
    NotOutrankedOneMore(rows, x, r);
    if rows != [] && Outranks(x, rows[|rows| - 1]) {
      InsertCounts(rows[..|rows| - 1], x, r);
      NotOutrankedOneMore(Insert(rows[..|rows| - 1], x), rows[|rows| - 1], r);
    }
  }

  lemma {:induction false} SortingCounts(rows: seq<Row>, r: Row)
    ensures NotOutranked(Sorted(rows), r) == NotOutranked(rows, r)
  {
    hide Outranks, Insert;
    if rows != [] {
      SortingCounts(rows[..|rows| - 1], r);
      InsertCounts(Sorted(rows[..|rows| - 1]), rows[|rows| - 1], r);
    }
  }

  lemma {:induction false} NoneOutranked(rows: seq<Row>, r: Row)
    requires forall k | 0 <= k < |rows| :: !Outranks(r, rows[k])
    ensures NotOutranked(rows, r) == |rows|
  {
    if rows != [] { NoneOutranked(rows[..|rows| - 1], r); }
  }

  lemma LastBoundsAll(rows: seq<Row>, r: Row)
    requires Descending(rows) && rows != [] && !Outranks(r, rows[|rows| - 1])
    ensures forall k | 0 <= k < |rows| :: !Outranks(r, rows[k])
  {
    forall k | 0 <= k < |rows| ensures !Outranks(r, rows[k]) {
      assert k < |rows| - 1 ==> !Outranks(rows[|rows| - 1], rows[k]);
    }
  }

  // A new row goes behind those it does not outrank and pushes the rest back by one.
  lemma {:induction false} InsertIsAt(rows: seq<Row>, r: Row)
    requires Descending(rows)
    ensures var q := NotOutranked(rows, r);
            && q <= |rows|
            && Insert(rows, r) == rows[..q] + [r] + rows[q..]
            && (forall k | 0 <= k < q :: !Outranks(r, rows[k]))
            && (forall k | q <= k < |rows| :: Outranks(r, rows[k]))
  {
    if rows != [] && Outranks(r, rows[|rows| - 1]) {
      var init, last := rows[..|rows| - 1], rows[|rows| - 1];
      InsertIsAt(init, r);
      var q := NotOutranked(init, r);
      assert rows[q..] == init[q..] + [last];
      assert init[..q] + [r] + init[q..] + [last] == rows[..q] + [r] + rows[q..];
    } else {
      if rows != [] { LastBoundsAll(rows, r); }
      NoneOutranked(rows, r);
      assert rows[..|rows|] == rows && rows[|rows|..] == [];
    }
  }

  lemma {:induction false} SameBeforeAmong(rows: seq<Row>, more: seq<Row>, i: nat, n: nat)
    requires i < |rows| && n <= |rows|
    ensures BeforeAmong(rows + more, i, n) == BeforeAmong(rows, i, n)
  {
    if n > 0 { SameBeforeAmong(rows, more, i, n - 1); }
  }

  lemma {:induction false} LastIsBehind(rows: seq<Row>, r: Row, n: nat)
    requires n <= |rows|
    ensures BeforeAmong(rows + [r], |rows|, n) == NotOutranked(rows[..n], r)
  {
    if n > 0 {
      LastIsBehind(rows, r, n - 1);
      assert rows[..n][..n - 1] == rows[..n - 1];
      OrderIsTotal(rows[n - 1], r);
    }
  }

  // How one more passer moves the others.
  lemma PlaceOneMore(rows: seq<Row>, r: Row, i: nat)
    requires i < |rows|
    ensures Place(rows + [r], i) == Place(rows, i) + if Outranks(r, rows[i]) then 1 else 0
    ensures Place(rows + [r], |rows|) == NotOutranked(rows, r)
  {
    SameBeforeAmong(rows, [r], i, |rows|);
    PlaceOfLast(rows, r);
  }

  lemma PlaceOfLast(rows: seq<Row>, r: Row)
    ensures Place(rows + [r], |rows|) == NotOutranked(rows, r)
  {
    LastIsBehind(rows, r, |rows|);
    assert rows[..|rows|] == rows;
  }

  // Sorting puts every passer at its place.
  lemma {:induction false} SortedByPlace(rows: seq<Row>, i: nat)
    requires i < |rows|
    ensures Place(rows, i) < |Sorted(rows)| == |rows| && Sorted(rows)[Place(rows, i)] == rows[i]
  {
    hide Outranks, Ties, Insert, Place, NotOutranked;
    var init, last := rows[..|rows| - 1], rows[|rows| - 1];
    assert rows == init + [last];
    SortedIsStable(init, last);
    SortedIsStable(rows, last);
    InsertIsAt(Sorted(init), last);
    SortingCounts(init, last);
    if i < |init| {
      SortedByPlace(init, i);
      PlaceOneMore(init, last, i);
    } else {
      PlaceOfLast(init, last);
    }
  }

  // And every place is some passer's.
  lemma {:induction false} PlaceTaken(rows: seq<Row>, p: nat) returns (i: nat)
    requires p < |rows|
    ensures i < |rows| && Place(rows, i) == p
  {
    hide Outranks, Ties, Insert, Place, NotOutranked;
    var init, last := rows[..|rows| - 1], rows[|rows| - 1];
    assert rows == init + [last];
    SortedIsStable(init, last);
    InsertIsAt(Sorted(init), last);
    SortingCounts(init, last);
    PlaceOfLast(init, last);
    var q := NotOutranked(init, last);
    if p == q {
      i := |init|;
    } else {
      i := PlaceTaken(init, if p < q then p else p - 1);
      SortedByPlace(init, i);
      PlaceOneMore(init, last, i);
    }
  }

  // ---- the cut -------------------------------------------------------------------------------------

  function PassersOf(pool: Pool, prefs: Preferences, filtered: bool, ids: seq<Id>): seq<Row>
    requires pool.seeker in pool.payloads
  {
    var considered := Others(ids, pool.seeker);
    Passers(pool, pool.payloads[pool.seeker], prefs, filtered, considered, |considered|)
  }

  // The first appearance of its row, as every candidate's is when no id is listed twice.
  ghost predicate FirstOfItsKind(rows: seq<Row>, i: nat) {
    i < |rows| && forall j | 0 <= j < i :: rows[j] != rows[i]
  }

  lemma KeptByPlace(rows: seq<Row>, limit: nat, i: nat)
    requires FirstOfItsKind(rows, i)
    ensures rows[i] in Take(Sorted(rows), limit) <==> Place(rows, i) < limit
  {
    hide Outranks, Place, Sorted;
    var kept := Take(Sorted(rows), limit);
    SortedByPlace(rows, i);
    if Place(rows, i) < limit {
      assert kept[Place(rows, i)] == rows[i];
    }
    if rows[i] in kept {
      var p :| 0 <= p < |kept| && kept[p] == rows[i];
      var j := PlaceTaken(rows, p);
      SortedByPlace(rows, j);
      if i < j { PlacesFollowTheOrder(rows, i, j); }
    }
  }

  // A passer comes back exactly if fewer than `limit` passers come before it.
  lemma ReturnedExactlyWithinTheLimit(
    pool: Pool, prefs: Preferences, filtered: bool, ids: seq<Id>, limit: nat, i: nat)
    requires pool.seeker in pool.payloads && FirstOfItsKind(PassersOf(pool, prefs, filtered, ids), i)
    ensures var passers := PassersOf(pool, prefs, filtered, ids);
            passers[i] in Ranked(pool, prefs, filtered, ids, limit) <==> Place(passers, i) < limit
  {
    hide Passers, Sorted, Others, Place;
    KeptByPlace(PassersOf(pool, prefs, filtered, ids), limit, i);
  }

  // ---- what a boost does to places -------------------------------------------------------------------

  function BoostedAmong(rows: seq<Row>, n: nat): nat
    requires n <= |rows|
  {
    if n == 0 then 0 else BoostedAmong(rows, n - 1) + if rows[n - 1].boosted then 1 else 0
  }

  // Passers before i with the same boost flag: a higher score, or the same and considered earlier.
  function PeersBeforeAmong(rows: seq<Row>, i: nat, n: nat): nat
    requires i < |rows| && n <= |rows|
  {
    if n == 0 then 0
    else
      PeersBeforeAmong(rows, i, n - 1)
      + if && rows[n - 1].boosted == rows[i].boosted
           && (rows[n - 1].score > rows[i].score || (rows[n - 1].score == rows[i].score && n - 1 < i)) then 1 else 0
  }

  // Without a boost every boosted passer comes first, whatever its score; with one, none of the others.
  lemma {:induction false} PlaceByBoost(rows: seq<Row>, i: nat, n: nat)
    requires i < |rows| && n <= |rows|
    ensures BeforeAmong(rows, i, n)
            == PeersBeforeAmong(rows, i, n) + if rows[i].boosted then 0 else BoostedAmong(rows, n)
  {
    if n > 0 { PlaceByBoost(rows, i, n - 1); }
  }

  lemma UnboostedReturnedExactlyIfRoom(
    pool: Pool, prefs: Preferences, filtered: bool, ids: seq<Id>, limit: nat, i: nat)
    requires pool.seeker in pool.payloads && FirstOfItsKind(PassersOf(pool, prefs, filtered, ids), i)
    requires !PassersOf(pool, prefs, filtered, ids)[i].boosted
    ensures var passers := PassersOf(pool, prefs, filtered, ids);
            passers[i] in Ranked(pool, prefs, filtered, ids, limit)
            <==> BoostedAmong(passers, |passers|) + PeersBeforeAmong(passers, i, |passers|) < limit
  {
    hide Passers, Sorted, Others;
    ReturnedExactlyWithinTheLimit(pool, prefs, filtered, ids, limit, i);
    var passers := PassersOf(pool, prefs, filtered, ids);
    PlaceByBoost(passers, i, |passers|);
  }

  // A lower-scored boosted passer that keeps its place among the boosted.
  ghost predicate BoostedInstead(rows: seq<Row>, i: nat, l: nat, limit: nat)
    requires i < |rows|
  {
    && l < |rows| && rows[l].boosted && !rows[i].boosted && rows[l].score < rows[i].score
    && PeersBeforeAmong(rows, l, |rows|) < limit
  }

  // A passer is dropped while a lower-scored one is returned in exactly one way: it is not boosted, its
  // place is past the limit, and a boosted passer with a lower score is among the first of the boosted.
  lemma DisplacedExactlyByBoost(
    pool: Pool, prefs: Preferences, filtered: bool, ids: seq<Id>, limit: nat, i: nat)
    requires pool.seeker in pool.payloads && FirstOfItsKind(PassersOf(pool, prefs, filtered, ids), i)
    ensures var passers, rows := PassersOf(pool, prefs, filtered, ids), Ranked(pool, prefs, filtered, ids, limit);
            (passers[i] !in rows && exists r :: r in rows && r.score < passers[i].score)
            <==> Place(passers, i) >= limit && exists l :: BoostedInstead(passers, i, l, limit)
  {
    hide Passers, Sorted, Others, Place, PeersBeforeAmong, BoostedAmong;
    var passers, rows := PassersOf(pool, prefs, filtered, ids), Ranked(pool, prefs, filtered, ids, limit);
    ReturnedExactlyWithinTheLimit(pool, prefs, filtered, ids, limit, i);
    if Place(passers, i) >= limit {
      if r :| r in rows && r.score < passers[i].score {
        var l := LowerScoredIsBoosted(passers, limit, i, r);
      }
      if l :| BoostedInstead(passers, i, l, limit) {
        BoostedIsKept(passers, limit, l);
      }
    }
  }

  lemma LowerScoredIsBoosted(rows: seq<Row>, limit: nat, i: nat, r: Row) returns (l: nat)
    requires i < |rows| && Place(rows, i) >= limit && r in Take(Sorted(rows), limit) && r.score < rows[i].score
    ensures BoostedInstead(rows, i, l, limit)
  {
    hide Sorted, PeersBeforeAmong;
    var kept := Take(Sorted(rows), limit);
    var p :| 0 <= p < |kept| && kept[p] == r;
    SortedIsStable(rows, r);
    l := PlaceTaken(rows, p);
    SortedByPlace(rows, l);
    PlaceByBoost(rows, l, |rows|);
    if Before(rows, i, l) { PlacesFollowTheOrder(rows, i, l); }
  }

  lemma BoostedIsKept(rows: seq<Row>, limit: nat, l: nat)
    requires l < |rows| && rows[l].boosted && PeersBeforeAmong(rows, l, |rows|) < limit
    ensures rows[l] in Take(Sorted(rows), limit)
  {
    hide Sorted, PeersBeforeAmong;
    PlaceByBoost(rows, l, |rows|);
    SortedByPlace(rows, l);
    assert Take(Sorted(rows), limit)[Place(rows, l)] == rows[l];
  }

  // ---- the displacement seen -----------------------------------------------------------------------

  // Candidate 1 wants what the seeker wants and scores 61; candidate 2 does not, scores 53 and is boosted.
  function TwoCandidates(e: Setting, seeker: Profile): Pool {
    Pool(e, 0,
         map[0 := seeker, 1 := Sample(None, "serious", 50, false), 2 := Sample(None, "casual", 0, true)],
         map[1 := Account(true, true), 2 := Account(true, true)])
  }

  // With room for one, only the boosted candidate comes back.
  lemma ABoostedCandidateTakesTheOnlyPlace(e: Setting, seeker: Profile)
    requires e.weights == SHIPPED_WEIGHTS && e.lower("") == e.strip("") == "" && seeker.interests == []
    ensures var pool := TwoCandidates(e, seeker);
            && PassersOf(pool, SAMPLE_PREFERENCES, true, [1, 2]) == [Row(1, 61, None, false), Row(2, 53, None, true)]
            && Ranked(pool, SAMPLE_PREFERENCES, true, [1, 2], 1) == [Row(2, 53, None, true)]
  {
    hide Score, Distance;
    var pool := TwoCandidates(e, seeker);
    SampleRows(e, seeker);
    assert [1, 2][..1] == [1] && [1][..0] == [];
    assert Others([1], 0) == [1];
    assert Others([1, 2], 0) == [1, 2];
    var a, b := Row(1, 61, None, false), Row(2, 53, None, true);
    SampleOfSample(1, pool);
    SampleOfSample(2, pool);
    assert Passers(pool, seeker, SAMPLE_PREFERENCES, true, [1, 2], 1) == [a];
    assert PassersOf(pool, SAMPLE_PREFERENCES, true, [1, 2]) == [a, b];
    SortTwo(a, b);
  }

  lemma SampleOfSample(id: Id, pool: Pool)
    requires id in pool.payloads && id in pool.accounts && pool.accounts[id].online
    requires pool.payloads[id].recency == 1.0
    ensures Seen(pool, id) == pool.payloads[id]
  {}

  lemma SampleRows(e: Setting, seeker: Profile)
    requires e.weights == SHIPPED_WEIGHTS && e.lower("") == e.strip("") == "" && seeker.interests == []
    ensures Score(e, seeker, SAMPLE_PREFERENCES, Sample(None, "serious", 50, false)) == 61
    ensures Score(e, seeker, SAMPLE_PREFERENCES, Sample(None, "casual", 0, true)) == 53
    ensures forall goal, completion, boosted :: Distance(e, seeker, Sample(None, goal, completion, boosted)) == None
  {
    hide Base;
    assert SAMPLE_PREFERENCES.(maxDistance := 0) == SAMPLE_PREFERENCES;
    SampleBase(e, seeker, None, "serious", 50, false, 0);
    SampleBase(e, seeker, None, "casual", 0, true, 0);
    ActivityOf(None, "serious", 50, false);
    ActivityOf(None, "casual", 0, true);
  }

  lemma SortTwo(a: Row, b: Row)
    requires Outranks(b, a)
    ensures Sorted([a, b]) == [b, a]
  {
    assert [a, b][..1] == [a] && [a][..0] == [];
    assert Sorted([a]) == [a];
    assert Insert([a], b) == Insert([], b) + [a] == [b, a];
  }
}
