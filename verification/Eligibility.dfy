/** Who passes the hard filters, who is ranked, and why the others are not. */
module Eligibility {
  import opened Wrappers
  import opened Engine
  import opened Ranking
  import Displacement

  // What the seeker asked for, on every count.
  predicate Wanted(prefs: Preferences, p: Profile, account: Account, distance: Option<real>) {
    && p.visible
    && (prefs.interestedIn == [] || p.gender in prefs.interestedIn)
    && (p.age.None? || prefs.minAge <= p.age.value <= prefs.maxAge)
    && (prefs.withPhotosOnly ==> p.photoCount > 0)
    && (prefs.verifiedOnly ==> account.verified)
    && (prefs.globally || distance.None? || distance.value <= prefs.maxDistance as real)
  }

  // The filters turn away exactly those who are not wanted, and name the first wish that fails.
  lemma RefusedExactlyForTheFirstUnmetWish(
    prefs: Preferences, p: Profile, account: Account, distance: Option<real>)
    ensures var why := Refusal(prefs, p, account, distance);
            var gender := prefs.interestedIn == [] || p.gender in prefs.interestedIn;
            var age := p.age.None? || prefs.minAge <= p.age.value <= prefs.maxAge;
            var photos, verified := prefs.withPhotosOnly ==> p.photoCount > 0, prefs.verifiedOnly ==> account.verified;
            && (why == None <==> Wanted(prefs, p, account, distance))
            && (why == Some(ProfileHidden) <==> !p.visible)
            && (why == Some(GenderPreference) <==> p.visible && !gender)
            && (why == Some(OutsideAgeRange) <==> p.visible && gender && !age)
            && (why == Some(NoPhotos) <==> p.visible && gender && age && !photos)
            && (why == Some(NotVerified) <==> p.visible && gender && age && photos && !verified)
            && (why == Some(TooFar) <==>
                  p.visible && gender && age && photos && verified && !Wanted(prefs, p, account, distance))
  {}

  // ---- the pool --------------------------------------------------------------------------------------

  predicate Known(pool: Pool, id: Id) { id in pool.payloads && id in pool.accounts }

  // A candidate as the engine sees them: recently active if online now.
  function AsSeen(pool: Pool, id: Id): Profile
    requires Known(pool, id)
  {
    pool.payloads[id].(recency := if pool.accounts[id].online then 1.0 else 0.6)
  }

  predicate Eligible(pool: Pool, seeker: Profile, prefs: Preferences, filtered: bool, id: Id) {
    && Known(pool, id)
    && (filtered ==>
          Wanted(prefs, AsSeen(pool, id), pool.accounts[id],
                 Engine.Distance(pool.setting, seeker, AsSeen(pool, id))))
  }

  // The row a candidate is ranked by.
  function Standing(pool: Pool, seeker: Profile, prefs: Preferences, id: Id): Row
    requires Known(pool, id)
  {
    Row(id, Score(pool.setting, seeker, prefs, AsSeen(pool, id)),
        Engine.Distance(pool.setting, seeker, AsSeen(pool, id)), pool.payloads[id].boosted)
  }

  lemma RejectionIs(pool: Pool, seeker: Profile, prefs: Preferences, filtered: bool, id: Id)
    ensures Rejection(pool, seeker, prefs, filtered, id) == None <==> Eligible(pool, seeker, prefs, filtered, id)
    ensures Rejection(pool, seeker, prefs, filtered, id) == Some(MissingData) <==> !Known(pool, id)
    ensures Known(pool, id) ==> RowOf(pool, seeker, prefs, id) == Standing(pool, seeker, prefs, id)
  {
    hide Score, Engine.Distance;
  }

  lemma {:induction false} OthersAre(ids: seq<Id>, seeker: Id)
    ensures forall x :: x in Others(ids, seeker) <==> x in ids && x != seeker
  {
    if ids != [] {
      OthersAre(ids[..|ids| - 1], seeker);
      assert ids == ids[..|ids| - 1] + [ids[|ids| - 1]];
    }
  }

  lemma {:induction false} PassersAre(
    pool: Pool, seeker: Profile, prefs: Preferences, filtered: bool, ids: seq<Id>, n: nat)
    requires n <= |ids|
    ensures forall r | r in Passers(pool, seeker, prefs, filtered, ids, n) ::
              && r.user in ids[..n] && Eligible(pool, seeker, prefs, filtered, r.user)
              && r == Standing(pool, seeker, prefs, r.user)
    ensures forall id | id in ids[..n] && Eligible(pool, seeker, prefs, filtered, id) ::
              Standing(pool, seeker, prefs, id) in Passers(pool, seeker, prefs, filtered, ids, n)
  {
    if n > 0 {
      PassersAre(pool, seeker, prefs, filtered, ids, n - 1);
      hide Score, Engine.Distance, Wanted, Refusal;
      RejectionIs(pool, seeker, prefs, filtered, ids[n - 1]);
      assert ids[..n] == ids[..n - 1] + [ids[n - 1]];
    }
  }

  // Who can be ranked: the candidates listed, other than the seeker, who are eligible.
  lemma PassersAreExactlyTheEligible(pool: Pool, prefs: Preferences, filtered: bool, ids: seq<Id>)
    requires pool.seeker in pool.payloads
    ensures var seeker, rows := pool.payloads[pool.seeker], Displacement.PassersOf(pool, prefs, filtered, ids);
            && (forall r | r in rows ::
                  && r.user in ids && r.user != pool.seeker
                  && Eligible(pool, seeker, prefs, filtered, r.user) && r == Standing(pool, seeker, prefs, r.user))
            && forall id | id in ids && id != pool.seeker && Eligible(pool, seeker, prefs, filtered, id) ::
                 Standing(pool, seeker, prefs, id) in rows
  {
    hide Score, Engine.Distance, Eligible, Passers, Others;
    var considered := Others(ids, pool.seeker);
    OthersAre(ids, pool.seeker);
    PassersAre(pool, pool.payloads[pool.seeker], prefs, filtered, considered, |considered|);
    assert considered[..|considered|] == considered;
  }

  // Everybody returned is eligible and stands as the engine scores them; everybody eligible is returned if
  // there is room for all who are.
  lemma RankedAreExactlyTheEligible(pool: Pool, prefs: Preferences, filtered: bool, ids: seq<Id>, limit: nat)
    requires pool.seeker in pool.payloads
    ensures var seeker, rows := pool.payloads[pool.seeker], Ranked(pool, prefs, filtered, ids, limit);
            && (forall r | r in rows ::
                  && r.user in ids && r.user != pool.seeker
                  && Eligible(pool, seeker, prefs, filtered, r.user) && r == Standing(pool, seeker, prefs, r.user))
            && (|rows| < limit ==>
                  forall id | id in ids && id != pool.seeker && Eligible(pool, seeker, prefs, filtered, id) ::
                    Standing(pool, seeker, prefs, id) in rows)
  {
    hide Score, Engine.Distance, Eligible, Passers, Others, Sorted, Standing;
    PassersAreExactlyTheEligible(pool, prefs, filtered, ids);
    var passers := Displacement.PassersOf(pool, prefs, filtered, ids);
    SortingKeepsMembers(passers);
    TakeKeeps(Sorted(passers), limit);
  }

  lemma SortingKeepsMembers(rows: seq<Row>)
    ensures forall r :: r in Sorted(rows) <==> r in rows
    ensures |Sorted(rows)| == |rows|
  {
    hide Sorted, Displacement.Place;
    SortedIsStable(rows, Row(0, 0, None, false));
    forall r ensures r in Sorted(rows) <==> r in rows {
      if r in Sorted(rows) {
        var p :| 0 <= p < |Sorted(rows)| && Sorted(rows)[p] == r;
        var i := Displacement.PlaceTaken(rows, p);
        Displacement.SortedByPlace(rows, i);
      }
      if r in rows {
        var i :| 0 <= i < |rows| && rows[i] == r;
        Displacement.SortedByPlace(rows, i);
        assert Sorted(rows)[Displacement.Place(rows, i)] == r;
      }
    }
  }

  lemma TakeKeeps(rows: seq<Row>, limit: nat)
    ensures forall r | r in Take(rows, limit) :: r in rows
    ensures |Take(rows, limit)| < limit ==> Take(rows, limit) == rows
  {}

  // The places in the list whose candidate is refused for this reason.
  function RefusedFor(
    pool: Pool, seeker: Profile, prefs: Preferences, filtered: bool, ids: seq<Id>, n: nat, why: Reason): set<nat>
    requires n <= |ids|
  {
    set i: nat | i < n && Rejection(pool, seeker, prefs, filtered, ids[i]) == Some(why)
  }

  lemma RefusedOneMore(
    pool: Pool, seeker: Profile, prefs: Preferences, filtered: bool, ids: seq<Id>, n: nat, why: Reason)
    requires n < |ids|
    ensures var before := RefusedFor(pool, seeker, prefs, filtered, ids, n, why);
            && n !in before
            && RefusedFor(pool, seeker, prefs, filtered, ids, n + 1, why)
               == if Rejection(pool, seeker, prefs, filtered, ids[n]) == Some(why) then before + {n} else before
  {
    hide Rejection;
  }

  // The tally of a reason is the number of candidates refused for it.
  lemma {:induction false} TallyCountsTheRefused(
    pool: Pool, seeker: Profile, prefs: Preferences, filtered: bool, ids: seq<Id>, n: nat, why: Reason)
    requires n <= |ids|
    ensures Rejected(pool, seeker, prefs, filtered, ids, n, why)
            == |RefusedFor(pool, seeker, prefs, filtered, ids, n, why)|
  {
    if n == 0 {
      assert RefusedFor(pool, seeker, prefs, filtered, ids, 0, why) == {};
    } else {
      hide RefusedFor, Rejection;
      TallyCountsTheRefused(pool, seeker, prefs, filtered, ids, n - 1, why);
      RefusedOneMore(pool, seeker, prefs, filtered, ids, n - 1, why);
    }
  }

  // ---- widening --------------------------------------------------------------------------------------

  // The radii tried: the member's own, then 3, 10 and 100 times it, or times 100 where none is stored.
  lemma WideningTriesFourRadii(pool: Pool, prefs: Preferences, ids: seq<Id>, limit: nat, k: nat)
    requires k <= |STEPS|
    ensures var own := if prefs.maxDistance == 0 then 100 else prefs.maxDistance;
            && |STEPS| == 3
            && AtStep(pool, prefs, ids, limit, 0) == Ranked(pool, prefs, true, ids, limit)
            && (k == 1 ==> AtStep(pool, prefs, ids, limit, k)
                           == Ranked(pool, prefs.(maxDistance := 3 * own), true, ids, limit))
            && (k == 2 ==> AtStep(pool, prefs, ids, limit, k)
                           == Ranked(pool, prefs.(maxDistance := 10 * own), true, ids, limit))
            && (k == 3 ==> AtStep(pool, prefs, ids, limit, k)
                           == Ranked(pool, prefs.(maxDistance := 100 * own), true, ids, limit))
  {
    hide Ranked;
  }
}
