/** What each dimension of a score rewards, and that the score rewards what its dimensions do. */
module ScoringRules {
  import opened Wrappers
  import opened Rounding
  import opened Engine

  // ---- rounding ----------------------------------------------------------------------------------------

  // A half goes to the even neighbour, anything else to the nearer one.
  lemma HalvesGoToEven(x: real, n: int)
    ensures Round(x) == n <==>
              || n as real - 0.5 < x < n as real + 0.5
              || (n % 2 == 0 && (x == n as real - 0.5 || x == n as real + 0.5))
  {}

  lemma Round4OfMultiple(k: int)
    ensures Round4(k as real / 10000.0) == k as real / 10000.0
  {
    assert k as real / 10000.0 * 10000.0 == k as real;
    RoundOfInteger(k);
  }

  // ---- distance ----------------------------------------------------------------------------------------

  // Nearer never scores lower: from one on the spot, a half at a quarter of the radius, nothing from the
  // radius on.  An unknown distance and a missing radius are neutral.
  lemma NearerScoresHigher(e: Setting, near: real, far: real, max: nat)
    requires Sound(e) && max > 0 && 0.0 <= near <= far
    ensures ScoreDistance(e, Some(far), max) <= ScoreDistance(e, Some(near), max)
    ensures ScoreDistance(e, Some(0.0), max) == 1.0
    ensures ScoreDistance(e, Some(max as real / 4.0), max) == 0.5
    ensures far >= max as real ==> ScoreDistance(e, Some(far), max) == 0.0
    ensures ScoreDistance(e, None, max) == 0.5 && ScoreDistance(e, Some(far), 0) == 0.5
  {
    if far < max as real {
      QuotientsInOrder(near, far, max as real);
      RootIsMonotone(e, near / max as real, far / max as real);
      Round4IsMonotone(1.0 - e.sqrt(far / max as real), 1.0 - e.sqrt(near / max as real));
    } else if near < max as real {
      DistanceInUnit(e, Some(near), max);
    }
    RootsOfSamples(e);
    assert 0.0 / max as real == 0.0;
    assert max as real / 4.0 / max as real == 0.25;
    Round4OfMultiple(10000);
    Round4OfMultiple(5000);
  }

  lemma QuotientsInOrder(a: real, b: real, c: real)
    requires 0.0 <= a <= b && c > 0.0
    ensures 0.0 <= a / c <= b / c
  {
    QuotientNonNegative(a, c);
    QuotientNonNegative(b - a, c);
    assert b / c == a / c + (b - a) / c;
  }

  lemma RootsOfSamples(e: Setting)
    requires Sound(e)
    ensures e.sqrt(0.0) == 0.0 && e.sqrt(0.25) == 0.5
  {
    SquareOrder(e.sqrt(0.0), 0.0);
    SquareOrder(e.sqrt(0.25), 0.5);
    SquareOrder(0.5, e.sqrt(0.25));
  }

  // ---- age ---------------------------------------------------------------------------------------------

  // Twice the distance from the middle of the band.
  function OffMiddle(age: nat, min: nat, max: nat): int {
    if 2 * age >= min + max then 2 * age - (min + max) else min + max - 2 * age
  }

  // Within the band, nearer to its middle never scores lower.
  lemma NearTheMiddleScoresHigher(a: nat, b: nat, min: nat, max: nat)
    requires min <= a <= max && min <= b <= max && OffMiddle(a, min, max) <= OffMiddle(b, min, max)
    ensures ScoreAge(Some(b), min, max) <= ScoreAge(Some(a), min, max)
  {
    hide Round4;
    var half := (max - min) as real / 2.0;
    var span := if half > 1.0 then half else 1.0;
    var near, far := OffMiddle(a, min, max) as real / 2.0, OffMiddle(b, min, max) as real / 2.0;
    assert near == Abs(a as real - (min + max) as real / 2.0);
    assert far == Abs(b as real - (min + max) as real / 2.0);
    QuotientsInOrder(0.25 * near, 0.25 * far, span);
    Round4IsMonotone(1.0 - 0.25 * far / span, 1.0 - 0.25 * near / span);
  }

  // The middle scores one.
  lemma TheMiddleScoresOne(age: nat, min: nat, max: nat)
    requires min <= age <= max && OffMiddle(age, min, max) == 0
    ensures ScoreAge(Some(age), min, max) == 1.0
  {
    hide Round4;
    assert Abs(age as real - (min + max) as real / 2.0) == 0.0;
    Round4OfMultiple(10000);
  }

  // The edges of a band of two years or more score three quarters.
  lemma EdgeOfTheBand(min: nat, max: nat)
    requires max - min >= 2
    ensures ScoreAge(Some(min), min, max) == 0.75 == ScoreAge(Some(max), min, max)
  {
    hide Round4;
    var half := (max - min) as real / 2.0;
    assert Abs(min as real - (min + max) as real / 2.0) == half == Abs(max as real - (min + max) as real / 2.0);
    assert 0.25 * half / half == 0.25;
    Round4OfMultiple(7500);
  }

  // Outside it a tenth is lost for each year, down to nothing at five; an unknown age is neutral.
  lemma YearsOutsideCostATenth(age: nat, min: nat, max: nat, years: nat)
    requires min <= max && (age + years == min || age == max + years) && years > 0
    ensures ScoreAge(Some(age), min, max) == if years < 5 then (5 - years) as real / 10.0 else 0.0
    ensures ScoreAge(None, min, max) == 0.5
  {
    Round4OfMultiple(0);
    if years < 5 {
      Round4OfMultiple((5 - years) * 1000);
      assert 0.5 - years as real * 0.1 == (5 - years) as real / 10.0 == ((5 - years) * 1000) as real / 10000.0;
    }
  }

  // ---- interests, goals, education ---------------------------------------------------------------------

  // The overlap counts, not the order of the two.
  lemma InterestsAreMutual(e: Setting, mine: seq<string>, theirs: seq<string>)
    ensures ScoreInterests(e, mine, theirs) == ScoreInterests(e, theirs, mine)
  {
    hide Round4;
    var a, b := Folded(e, mine), Folded(e, theirs);
    assert a + b == b + a && a * b == b * a;
  }

  lemma SomeFolded(e: Setting, names: seq<string>)
    ensures Folded(e, names) == {} <==> names == []
  {
    if names != [] { assert e.lower(names[0]) in Folded(e, names); }
  }

  // The same interests score one, different ones nothing, and none at all on one side the middling 0.3.
  lemma InterestExtremes(e: Setting, mine: seq<string>, theirs: seq<string>)
    ensures mine == [] ==> ScoreInterests(e, mine, theirs) == 0.3
    ensures mine != [] && theirs != [] ==>
              && (Folded(e, mine) == Folded(e, theirs) ==> ScoreInterests(e, mine, theirs) == 1.0)
              && (Folded(e, mine) !! Folded(e, theirs) ==> ScoreInterests(e, mine, theirs) == 0.0)
  {
    hide Round4, Folded;
    var a, b := Folded(e, mine), Folded(e, theirs);
    SomeFolded(e, mine);
    SomeFolded(e, theirs);
    Round4OfMultiple(0);
    Round4OfMultiple(10000);
    if mine != [] && a == b {
      assert a + b == a * b == a;
      UnionIsNotEmpty(a, b);
      assert |a| as real / |a| as real == 1.0;
    }
  }

  // Of two candidates with as many interests in all, the one who shares more never scores lower.
  lemma MoreInCommonScoresHigher(e: Setting, mine: seq<string>, theirs: seq<string>, others: seq<string>)
    requires mine != [] && theirs != [] && others != []
    requires |Folded(e, mine) + Folded(e, theirs)| == |Folded(e, mine) + Folded(e, others)|
    requires |Folded(e, mine) * Folded(e, others)| <= |Folded(e, mine) * Folded(e, theirs)|
    ensures ScoreInterests(e, mine, others) <= ScoreInterests(e, mine, theirs)
  {
    hide Round4, Folded;
    var a, b, c := Folded(e, mine), Folded(e, theirs), Folded(e, others);
    SomeFolded(e, mine);
    SomeFolded(e, theirs);
    SomeFolded(e, others);
    UnionIsNotEmpty(a, b);
    QuotientsInOrder(|a * c| as real, |a * b| as real, |a + b| as real);
    var raw := |a * b| as real / |a + b| as real * 1.6 + (if a * b != {} then 0.15 else 0.0);
    var less := |a * c| as real / |a + b| as real * 1.6 + (if a * c != {} then 0.15 else 0.0);
    assert a * c != {} ==> |a * c| > 0 && a * b != {};
    Round4IsMonotone(if less < 1.0 then less else 1.0, if raw < 1.0 then raw else 1.0);
  }

  // A goal that is wanted scores most, an open one more than none named, and another least.
  lemma GoalsInOrder(prefs: Preferences, p: Profile)
    requires prefs.goals != []
    ensures ScoreGoals(prefs, p) ==
              if p.goal == "" then 0.4
              else if p.goal in prefs.goals then 1.0
              else if p.goal == "unsure" then 0.5 else 0.15
    ensures ScoreGoals(prefs.(goals := []), p) == 0.6
  {}

  // ---- lifestyle ---------------------------------------------------------------------------------------

  function Answers(prefs: Preferences, p: Profile): seq<(string, string)> {
    [(prefs.smoking, p.smoking), (prefs.drinking, p.drinking), (prefs.children, p.children)]
  }

  predicate IsAsked(wanted: string) { wanted !in {"", "prefer_not"} }

  // Where only these three questions are asked: all met scores one, all left open a half, and the same
  // half where nothing is asked.
  lemma LifestyleExtremes(e: Setting, prefs: Preferences, p: Profile)
    requires Religion(e, prefs, p).None? && Languages(e, prefs, p).None?
    ensures var qs := Answers(prefs, p);
            && ((forall q | q in qs :: !IsAsked(q.0)) ==> ScoreLifestyle(e, prefs, p) == 0.5)
            && ((exists q | q in qs :: IsAsked(q.0)) && (forall q | q in qs && IsAsked(q.0) :: q.0 == q.1) ==>
                  ScoreLifestyle(e, prefs, p) == 1.0)
            && ((forall q | q in qs && IsAsked(q.0) :: q.1 == "") ==> ScoreLifestyle(e, prefs, p) == 0.5)
  {
    hide Agreement, ScoreLifestyle, Religion, Languages;
    var qs := Answers(prefs, p);
    assert qs[0] in qs && qs[1] in qs && qs[2] in qs;
    AnswerIs(qs[0].0, qs[0].1);
    AnswerIs(qs[1].0, qs[1].1);
    AnswerIs(qs[2].0, qs[2].1);
    if forall q | q in qs && IsAsked(q.0) :: q.0 == q.1 {
      LifestyleAlike(e, prefs, p, 1.0);
      Round4OfMultiple(10000);
    }
    if forall q | q in qs && IsAsked(q.0) :: q.1 == "" {
      LifestyleAlike(e, prefs, p, 0.5);
      Round4OfMultiple(5000);
    }
  }

  lemma AnswerIs(wanted: string, actual: string)
    ensures Agreement(wanted, actual).Some? <==> IsAsked(wanted)
    ensures IsAsked(wanted) && actual == "" ==> Agreement(wanted, actual) == Some(0.5)
    ensures IsAsked(wanted) && wanted == actual ==> Agreement(wanted, actual) == Some(1.0)
  {}

  // Whatever was asked is worth the same.
  lemma LifestyleAlike(e: Setting, prefs: Preferences, p: Profile, x: real)
    requires Religion(e, prefs, p).None? && Languages(e, prefs, p).None?
    requires forall q | q in Answers(prefs, p) :: Agreement(q.0, q.1) in {None, Some(x)}
    ensures ScoreLifestyle(e, prefs, p) ==
              if exists q | q in Answers(prefs, p) :: Agreement(q.0, q.1).Some? then Round4(x) else 0.5
  {
    hide Agreement, Religion, Languages, Asked, Points, Round4;
    var qs := Answers(prefs, p);
    var a, b, c := Agreement(qs[0].0, qs[0].1), Agreement(qs[1].0, qs[1].1), Agreement(qs[2].0, qs[2].1);
    assert qs[0] in qs && qs[1] in qs && qs[2] in qs;
    FiveQuestions(a, b, c, None, None);
    var n := One(a) + One(b) + One(c);
    assert Questions(e, prefs, p) == [a, b, c, None, None];
    assert Worth(a) + Worth(b) + Worth(c) == x * n as real;
    if n > 0 { assert x * n as real / n as real == x; }
  }

  function Worth(q: Option<real>): real { match q case Some(x) => x case None => 0.0 }

  function One(q: Option<real>): nat { if q.Some? then 1 else 0 }

  lemma OneMoreQuestion(qs: seq<Option<real>>, q: Option<real>)
    ensures Asked(qs + [q]) == Asked(qs) + One(q) && Points(qs + [q]) == Points(qs) + Worth(q)
  {
    assert (qs + [q])[..|qs|] == qs;
  }

  lemma FiveQuestions(a: Option<real>, b: Option<real>, c: Option<real>, d: Option<real>, e: Option<real>)
    ensures Asked([a, b, c, d, e]) == One(a) + One(b) + One(c) + One(d) + One(e)
    ensures Points([a, b, c, d, e]) == Worth(a) + Worth(b) + Worth(c) + Worth(d) + Worth(e)
  {
    hide Asked, Points;
    NoQuestion();
    OneMoreQuestion([], a);
    OneMoreQuestion([a], b);
    OneMoreQuestion([a, b], c);
    OneMoreQuestion([a, b, c], d);
    OneMoreQuestion([a, b, c, d], e);
    assert [] + [a] == [a] && [a] + [b] == [a, b] && [a, b] + [c] == [a, b, c];
    assert [a, b, c] + [d] == [a, b, c, d] && [a, b, c, d] + [e] == [a, b, c, d, e];
  }

  lemma NoQuestion()
    ensures Asked([]) == 0 && Points([]) == 0.0
  {}

  // A preference that asks a question ranks the answers: met, next to it, unknown or two steps apart, unmet.
  lemma AnswersInOrder(wanted: string, actual: string)
    requires wanted in {"never", "socially", "regularly"} && actual in {"never", "socially", "regularly"}
    ensures Agreement(wanted, wanted) == Some(1.0) && Agreement(wanted, "") == Some(0.5)
    ensures Agreement(wanted, actual) == Agreement(actual, wanted)
    ensures wanted != actual ==>
              Agreement(wanted, actual) ==
                Some(if "regularly" !in {wanted, actual} then 0.6
                     else if "never" !in {wanted, actual} then 0.5 else 0.0)
  {}

  // A named religion or language is met or worth a fifth.
  lemma BackgroundCounts(e: Setting, prefs: Preferences, p: Profile)
    ensures match Religion(e, prefs, p)
            case None => e.lower(e.strip(prefs.religion)) == ""
            case Some(x) =>
              && e.lower(e.strip(prefs.religion)) != ""
              && x == if e.lower(p.religion) == e.lower(e.strip(prefs.religion)) then 1.0 else 0.2
    ensures match Languages(e, prefs, p)
            case None => prefs.languages == []
            case Some(x) =>
              && prefs.languages != []
              && x == if exists l, m :: l in prefs.languages && m in p.languages && e.lower(l) == e.lower(m)
                      then 1.0 else 0.2
  {
    var wanted, spoken := Folded(e, prefs.languages), Folded(e, p.languages);
    if prefs.languages != [] { assert e.lower(prefs.languages[0]) in wanted; }
    if l, m :| l in prefs.languages && m in p.languages && e.lower(l) == e.lower(m) {
      assert e.lower(l) in wanted * spoken;
    }
    if wanted * spoken != {} {
      var x :| x in wanted * spoken;
      var l :| l in prefs.languages && e.lower(l) == x;
      var m :| m in p.languages && e.lower(m) == x;
    }
  }

  // ---- activity ----------------------------------------------------------------------------------------

  // A fuller, better photographed, more recently seen profile never scores lower; photos beyond the third
  // add nothing, and only all three together score one.
  lemma ActivityRewards(p: Profile, q: Profile)
    requires InRange(p) && InRange(q)
    requires p.completion <= q.completion && p.recency <= q.recency
    requires p.photoCount <= q.photoCount || q.photoCount >= 3
    ensures ScoreActivity(p) <= ScoreActivity(q)
    ensures q.completion == 100 && q.photoCount >= 3 && q.recency == 1.0 ==> ScoreActivity(q) == 1.0
    ensures q.completion == 100 && q.photoCount == 0 && q.recency == 0.0 ==> ScoreActivity(q) == 0.4
    ensures q.completion == 0 && q.photoCount >= 3 && q.recency == 0.0 ==> ScoreActivity(q) == 0.3
    ensures q.completion == 0 && q.photoCount == 0 && q.recency == 1.0 ==> ScoreActivity(q) == 0.3
  {
    var before, after := p.photoCount as real / 3.0, q.photoCount as real / 3.0;
    var less, more := if before < 1.0 then before else 1.0, if after < 1.0 then after else 1.0;
    assert less <= more;
    Round4IsMonotone(p.completion as real / 100.0 * 0.4 + less * 0.3 + p.recency * 0.3,
                     q.completion as real / 100.0 * 0.4 + more * 0.3 + q.recency * 0.3);
    Round4OfMultiple(10000);
    Round4OfMultiple(4000);
    Round4OfMultiple(3000);
  }

  // ---- the score ---------------------------------------------------------------------------------------

  // As good in each dimension, and no worse educated where that is asked.
  ghost predicate AtLeastAsGood(e: Setting, seeker: Profile, prefs: Preferences, p: Profile, q: Profile) {
    var c, d := DimensionsOf(e, seeker, prefs, p), DimensionsOf(e, seeker, prefs, q);
    && c.distance <= d.distance && c.age <= d.age && c.interests <= d.interests
    && c.lifestyle <= d.lifestyle && c.goals <= d.goals && c.activity <= d.activity
    && (prefs.educations != [] && p.education in prefs.educations ==> q.education in prefs.educations)
    && (p.boosted ==> q.boosted)
  }

  // Such a candidate never scores lower.
  lemma BetterNeverScoresLower(e: Setting, seeker: Profile, prefs: Preferences, p: Profile, q: Profile)
    requires Sound(e) && InRange(p) && InRange(q) && AtLeastAsGood(e, seeker, prefs, p, q)
    ensures Score(e, seeker, prefs, p) <= Score(e, seeker, prefs, q)
  {
    var c, d := DimensionsOf(e, seeker, prefs, p), DimensionsOf(e, seeker, prefs, q);
    AllPartsGrow(e.weights, c, d);
    hide DimensionsOf, Weighted;
    var low, high := Weighted(e.weights, c), Weighted(e.weights, d);
    ClampIsIdle(e, seeker, prefs, p);
    ClampIsIdle(e, seeker, prefs, q);
    BoostedGrows(WithEducation(low, ScoreEducation(prefs, p)), WithEducation(high, ScoreEducation(prefs, q)),
                 p.boosted, q.boosted);
    PercentIsMonotone(Total(e, seeker, prefs, p), Total(e, seeker, prefs, q));
  }

  lemma AllPartsGrow(w: Weights, c: Dimensions, d: Dimensions)
    requires SharesOfOne(w)
    requires c.distance <= d.distance && c.age <= d.age && c.interests <= d.interests
    requires c.lifestyle <= d.lifestyle && c.goals <= d.goals && c.activity <= d.activity
    ensures Weighted(w, c) <= Weighted(w, d)
  {
    hide Part;
    PartGrows(c.distance, d.distance, w.distance);
    PartGrows(c.age, d.age, w.age);
    PartGrows(c.interests, d.interests, w.interests);
    PartGrows(c.lifestyle, d.lifestyle, w.lifestyle);
    PartGrows(c.goals, d.goals, w.goals);
    PartGrows(c.activity, d.activity, w.activity);
  }

  lemma BoostedGrows(a: real, b: real, boosted: bool, also: bool)
    requires a <= b && (boosted ==> also) && Unit(Boosted(a, boosted)) && Unit(Boosted(b, also))
    ensures Boosted(a, boosted) <= Boosted(b, also)
  {}

  // The weights say what a dimension is worth: one that rises from nothing to one adds its share.
  lemma EachDimensionIsWorthItsShare(w: Weights, d: Dimensions)
    ensures Weighted(w, d.(distance := 1.0)) - Weighted(w, d.(distance := 0.0)) == w.distance
    ensures Weighted(w, d.(age := 1.0)) - Weighted(w, d.(age := 0.0)) == w.age
    ensures Weighted(w, d.(interests := 1.0)) - Weighted(w, d.(interests := 0.0)) == w.interests
    ensures Weighted(w, d.(lifestyle := 1.0)) - Weighted(w, d.(lifestyle := 0.0)) == w.lifestyle
    ensures Weighted(w, d.(goals := 1.0)) - Weighted(w, d.(goals := 0.0)) == w.goals
    ensures Weighted(w, d.(activity := 1.0)) - Weighted(w, d.(activity := 0.0)) == w.activity
    ensures Weighted(w, Dimensions(0.0, 0.0, 0.0, 0.0, 0.0, 0.0)) == 0.0
  {}

  // Education moves the score by eight points at most, up only for a wanted level.
  lemma EducationIsAModifier(prefs: Preferences, p: Profile, total: real)
    requires Unit(total)
    ensures prefs.educations == [] ==> WithEducation(total, ScoreEducation(prefs, p)) == total
    ensures prefs.educations != [] && p.education in prefs.educations ==>
              WithEducation(total, ScoreEducation(prefs, p)) == total + 0.08 * (1.0 - total)
    ensures prefs.educations != [] && p.education !in prefs.educations ==>
              WithEducation(total, ScoreEducation(prefs, p)) == total + 0.08 * (0.3 - total)
  {}
}
