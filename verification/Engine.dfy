/** The compatibility engine: six weighted dimensions, an optional education modifier, a bounded boost
    and the hard filters.  Scores are computed over the reals. */
module Engine {
  import opened Wrappers
  import opened Rounding

  datatype Point = Point(latitude: real, longitude: real)

  datatype Profile = Profile(
    location: Option<Point>, age: Option<nat>, gender: string, interests: seq<string>, goal: string,
    education: string, languages: seq<string>, religion: string, smoking: string, drinking: string,
    children: string, completion: nat, photoCount: nat, visible: bool, boosted: bool, recency: real)

  datatype Preferences = Preferences(
    interestedIn: seq<string>, minAge: nat, maxAge: nat, maxDistance: nat, goals: seq<string>,
    educations: seq<string>, languages: seq<string>, religion: string, smoking: string,
    drinking: string, children: string, verifiedOnly: bool, withPhotosOnly: bool, globally: bool)

  datatype Weights = Weights(
    distance: real, age: real, interests: real, lifestyle: real, goals: real, activity: real)

  // What the engine takes as given: text folding, the great-circle distance, square roots, settings.
  datatype Setting = Setting(
    lower: string -> string, strip: string -> string, km: (Point, Point) -> real, sqrt: real -> real,
    weights: Weights)

  ghost predicate Sound(e: Setting) {
    && (forall p, q :: e.km(p, q) >= 0.0)
    && (forall x: real | x >= 0.0 :: e.sqrt(x) >= 0.0 && e.sqrt(x) * e.sqrt(x) == x)
    && SharesOfOne(e.weights)
  }

  predicate SharesOfOne(w: Weights) {
    && w.distance >= 0.0 && w.age >= 0.0 && w.interests >= 0.0
    && w.lifestyle >= 0.0 && w.goals >= 0.0 && w.activity >= 0.0
    && w.distance + w.age + w.interests + w.lifestyle + w.goals + w.activity == 1.0
  }

  // The weights the platform ships with.
  const SHIPPED_WEIGHTS := Weights(0.25, 0.15, 0.25, 0.15, 0.12, 0.08)

  lemma ShippedWeightsAreShares()
    ensures SharesOfOne(SHIPPED_WEIGHTS)
  {}

  predicate InRange(p: Profile) { p.completion <= 100 && 0.0 <= p.recency <= 1.0 }

  predicate Unit(x: real) { 0.0 <= x <= 1.0 }

  // ---- the dimensions ----------------------------------------------------------------------------

  function Distance(e: Setting, seeker: Profile, candidate: Profile): Option<real> {
    if seeker.location.Some? && candidate.location.Some?
    then Some(e.km(seeker.location.value, candidate.location.value))
    else None
  }

  function ScoreDistance(e: Setting, distance: Option<real>, max: nat): real {
    match distance
    case None => 0.5
    case Some(d) =>
      if max == 0 then 0.5
      else if d >= max as real then 0.0
      else Round4(1.0 - e.sqrt(d / max as real))
  }

  function Abs(x: real): real { if x < 0.0 then -x else x }

  function ScoreAge(age: Option<nat>, min: nat, max: nat): real {
    match age
    case None => 0.5
    case Some(a) =>
      if min <= a <= max then
        var midpoint := (min + max) as real / 2.0;
        var half := (max - min) as real / 2.0;
        var span := if half > 1.0 then half else 1.0;
        Round4(1.0 - 0.25 * Abs(a as real - midpoint) / span)
      else
        var overshoot := if a < min then min - a else a - max;
        var left := 0.5 - overshoot as real * 0.1;
        Round4(if left > 0.0 then left else 0.0)
  }

  function Folded(e: Setting, names: seq<string>): set<string> { set n | n in names :: e.lower(n) }

  function ScoreInterests(e: Setting, mine: seq<string>, theirs: seq<string>): real {
    var a, b := Folded(e, mine), Folded(e, theirs);
    if a == {} || b == {} then 0.3
    else
      var shared := a * b;
      UnionIsNotEmpty(a, b);
      var raw := |shared| as real / |a + b| as real * 1.6 + (if shared != {} then 0.15 else 0.0);
      Round4(if raw < 1.0 then raw else 1.0)
  }

  lemma UnionIsNotEmpty(a: set<string>, b: set<string>)
    requires a != {}
    ensures |a + b| > 0
  {
    var x :| x in a;
    assert x in a + b;
  }

  // One lifestyle question: not asked, or asked and worth so many points.
  function Agreement(wanted: string, actual: string): Option<real> {
    if wanted == "" || wanted == "prefer_not" then None
    else if actual == "" then Some(0.5)
    else if wanted == actual then Some(1.0)
    else if {wanted, actual} == {"never", "socially"} then Some(0.6)
    else if {wanted, actual} == {"socially", "regularly"} then Some(0.5)
    else Some(0.0)
  }

  function Religion(e: Setting, prefs: Preferences, p: Profile): Option<real> {
    var wanted := e.lower(e.strip(prefs.religion));
    if wanted == "" then None else Some(if wanted == e.lower(p.religion) then 1.0 else 0.2)
  }

  function Languages(e: Setting, prefs: Preferences, p: Profile): Option<real> {
    var wanted := Folded(e, prefs.languages);
    if wanted == {} then None else Some(if wanted * Folded(e, p.languages) != {} then 1.0 else 0.2)
  }

  function Questions(e: Setting, prefs: Preferences, p: Profile): seq<Option<real>> {
    [Agreement(prefs.smoking, p.smoking), Agreement(prefs.drinking, p.drinking),
     Agreement(prefs.children, p.children), Religion(e, prefs, p), Languages(e, prefs, p)]
  }

  function Asked(qs: seq<Option<real>>): nat {
    if qs == [] then 0 else Asked(qs[..|qs| - 1]) + if qs[|qs| - 1].Some? then 1 else 0
  }

  function Points(qs: seq<Option<real>>): real {
    if qs == [] then 0.0
    else Points(qs[..|qs| - 1]) + match qs[|qs| - 1] { case Some(x) => x case None => 0.0 }
  }

  function ScoreLifestyle(e: Setting, prefs: Preferences, p: Profile): real {
    var qs := Questions(e, prefs, p);
    if Asked(qs) == 0 then 0.5 else Round4(Points(qs) / Asked(qs) as real)
  }

  // The accumulation as the engine runs it.
  method AccumulateLifestyle(e: Setting, prefs: Preferences, p: Profile) returns (score: real)
    ensures score == ScoreLifestyle(e, prefs, p)
  {
    var qs := Questions(e, prefs, p);
    var considered, points := 0, 0.0;
    for i := 0 to |qs|
      invariant considered == Asked(qs[..i]) && points == Points(qs[..i])
    {
      assert qs[..i + 1][..i] == qs[..i];
      if qs[i].None? {
        continue;
      }
      considered := considered + 1;
      points := points + qs[i].value;
    }
    assert qs[..|qs|] == qs;
    score := if considered > 0 then Round4(points / considered as real) else 0.5;
  }

  function ScoreGoals(prefs: Preferences, p: Profile): real {
    if prefs.goals == [] then 0.6
    else if p.goal == "" then 0.4
    else if p.goal in prefs.goals then 1.0
    else if p.goal == "unsure" then 0.5 else 0.15
  }

  function ScoreActivity(p: Profile): real {
    var photos := p.photoCount as real / 3.0;
    Round4(p.completion as real / 100.0 * 0.4 + (if photos < 1.0 then photos else 1.0) * 0.3 + p.recency * 0.3)
  }

  function ScoreEducation(prefs: Preferences, p: Profile): Option<real> {
    if prefs.educations == [] then None else Some(if p.education in prefs.educations then 1.0 else 0.3)
  }

  // ---- the score ---------------------------------------------------------------------------------

  datatype Dimensions = Dimensions(
    distance: real, age: real, interests: real, lifestyle: real, goals: real, activity: real)

  function DimensionsOf(e: Setting, seeker: Profile, prefs: Preferences, p: Profile): Dimensions {
    Dimensions(
      ScoreDistance(e, Distance(e, seeker, p), prefs.maxDistance),
      ScoreAge(p.age, prefs.minAge, prefs.maxAge),
      ScoreInterests(e, seeker.interests, p.interests),
      ScoreLifestyle(e, prefs, p),
      ScoreGoals(prefs, p),
      ScoreActivity(p))
  }

  function Part(x: real, w: real): real { x * w }

  function Weighted(w: Weights, d: Dimensions): real {
    Part(d.distance, w.distance) + Part(d.age, w.age) + Part(d.interests, w.interests)
    + Part(d.lifestyle, w.lifestyle) + Part(d.goals, w.goals) + Part(d.activity, w.activity)
  }

  function WithEducation(total: real, education: Option<real>): real {
    match education case None => total case Some(x) => total * 0.92 + x * 0.08
  }

  function Boosted(total: real, boosted: bool): real {
    if boosted then (if total * 1.08 < 1.0 then total * 1.08 else 1.0) else total
  }

  // The total before any boost.
  function Base(e: Setting, seeker: Profile, prefs: Preferences, p: Profile): real {
    WithEducation(Weighted(e.weights, DimensionsOf(e, seeker, prefs, p)), ScoreEducation(prefs, p))
  }

  // The total before the final clamp.
  function Total(e: Setting, seeker: Profile, prefs: Preferences, p: Profile): real {
    Boosted(Base(e, seeker, prefs, p), p.boosted)
  }

  function Clamp(x: real): real { if x < 0.0 then 0.0 else if x > 1.0 then 1.0 else x }

  function Percent(total: real): int { Round(Clamp(total) * 100.0) }

  function Score(e: Setting, seeker: Profile, prefs: Preferences, p: Profile): int {
    Percent(Total(e, seeker, prefs, p))
  }

  // ---- every dimension lies between 0 and 1 ------------------------------------------------------

  lemma MulStrict(a: real, b: real, c: real)
    ensures a < b && c > 0.0 ==> a * c < b * c
  {}

  lemma PartGrows(a: real, b: real, c: real)
    requires a <= b && c >= 0.0
    ensures Part(a, c) <= Part(b, c)
    ensures a < b && c > 0.0 ==> Part(a, c) < Part(b, c)
  {}

  lemma PartCommutes(a: real, b: real)
    ensures Part(a, b) == Part(b, a)
  {}

  lemma SquareOrder(r: real, s: real)
    requires r >= 0.0 && s >= 0.0 && Part(r, r) <= Part(s, s)
    ensures r <= s
  {
    hide Part;
    if s < r {
      PartGrows(s, r, s);
      PartGrows(s, r, r);
      PartCommutes(s, r);
    }
  }

  lemma RootOfUnit(e: Setting, x: real)
    requires Sound(e) && Unit(x)
    ensures Unit(e.sqrt(x))
  {
    SquareOrder(e.sqrt(x), 1.0);
  }

  lemma DistanceInUnit(e: Setting, distance: Option<real>, max: nat)
    requires Sound(e) && (distance.Some? ==> distance.value >= 0.0)
    ensures Unit(ScoreDistance(e, distance, max))
  {
    if distance.Some? && max > 0 && distance.value < max as real {
      var x := distance.value / max as real;
      assert Unit(x) by { QuotientInUnit(distance.value, max as real); }
      RootOfUnit(e, x);
      Round4OfUnit(1.0 - e.sqrt(x));
    }
  }

  lemma QuotientInUnit(a: real, b: real)
    requires 0.0 <= a <= b && b > 0.0
    ensures Unit(a / b)
  {
    var q := a / b;
    assert q * b == a;
    MulStrict(1.0, q, b);
    MulStrict(q, 0.0, b);
  }

  lemma AgeInUnit(age: Option<nat>, min: nat, max: nat)
    ensures Unit(ScoreAge(age, min, max))
    ensures age.Some? && min <= age.value <= max ==> ScoreAge(age, min, max) >= 0.75
  {
    if age.Some? {
      var a := age.value;
      if min <= a <= max {
        var half := (max - min) as real / 2.0;
        var span := if half > 1.0 then half else 1.0;
        var off := Abs(a as real - (min + max) as real / 2.0);
        assert 0.0 <= off <= span;
        QuotientInUnit(off, span);
        QuarterOf(off, span);
        var x := 1.0 - 0.25 * off / span;
        Round4OfUnit(x);
        Round4IsMonotone(0.75, x);
        assert 0.75 * 10000.0 == 7500.0;
        RoundOfInteger(7500);
      } else {
        var left := 0.5 - (if a < min then min - a else a - max) as real * 0.1;
        Round4OfUnit(if left > 0.0 then left else 0.0);
      }
    }
  }

  lemma QuarterOf(a: real, b: real)
    requires b > 0.0
    ensures 0.25 * a / b == 0.25 * (a / b)
  {}

  lemma InterestsInUnit(e: Setting, mine: seq<string>, theirs: seq<string>)
    ensures Unit(ScoreInterests(e, mine, theirs))
  {
    var a, b := Folded(e, mine), Folded(e, theirs);
    if a != {} && b != {} {
      UnionIsNotEmpty(a, b);
      QuotientNonNegative(|a * b| as real, |a + b| as real);
      var raw := |a * b| as real / |a + b| as real * 1.6 + (if a * b != {} then 0.15 else 0.0);
      Round4OfUnit(if raw < 1.0 then raw else 1.0);
    }
  }

  lemma QuotientNonNegative(a: real, b: real)
    requires a >= 0.0 && b > 0.0
    ensures a / b >= 0.0
  {
    var q := a / b;
    assert q * b == a;
    MulStrict(q, 0.0, b);
  }

  lemma {:induction false} PointsAreBounded(qs: seq<Option<real>>)
    requires forall i | 0 <= i < |qs| :: qs[i].Some? ==> Unit(qs[i].value)
    ensures 0.0 <= Points(qs) <= Asked(qs) as real
  {
    if qs != [] { PointsAreBounded(qs[..|qs| - 1]); }
  }

  lemma LifestyleInUnit(e: Setting, prefs: Preferences, p: Profile)
    ensures Unit(ScoreLifestyle(e, prefs, p))
  {
    var qs := Questions(e, prefs, p);
    PointsAreBounded(qs);
    if Asked(qs) > 0 {
      QuotientInUnit(Points(qs), Asked(qs) as real);
      Round4OfUnit(Points(qs) / Asked(qs) as real);
    }
  }

  lemma ActivityInUnit(p: Profile)
    requires InRange(p)
    ensures Unit(ScoreActivity(p))
  {
    var photos := p.photoCount as real / 3.0;
    Round4OfUnit(p.completion as real / 100.0 * 0.4 + (if photos < 1.0 then photos else 1.0) * 0.3 + p.recency * 0.3);
  }

  ghost predicate AllInUnit(d: Dimensions) {
    && Unit(d.distance) && Unit(d.age) && Unit(d.interests)
    && Unit(d.lifestyle) && Unit(d.goals) && Unit(d.activity)
  }

  lemma DimensionsInUnit(e: Setting, seeker: Profile, prefs: Preferences, p: Profile)
    requires Sound(e) && InRange(p)
    ensures AllInUnit(DimensionsOf(e, seeker, prefs, p))
  {
    DistanceInUnit(e, Distance(e, seeker, p), prefs.maxDistance);
    AgeInUnit(p.age, prefs.minAge, prefs.maxAge);
    InterestsInUnit(e, seeker.interests, p.interests);
    LifestyleInUnit(e, prefs, p);
    ActivityInUnit(p);
  }

  lemma Share(x: real, w: real)
    requires Unit(x) && w >= 0.0
    ensures 0.0 <= Part(x, w) <= w
  {
    if w == 0.0 {
      assert x * w == 0.0;
    } else if x == 0.0 {
      assert x * w == 0.0;
    } else if x == 1.0 {
      assert x * w == w;
    } else {
      MulStrict(0.0, x, w);
      MulStrict(x, 1.0, w);
    }
  }

  lemma WeightedInUnit(w: Weights, d: Dimensions)
    requires SharesOfOne(w) && AllInUnit(d)
    ensures Unit(Weighted(w, d))
  {
    hide Part;
    Share(d.distance, w.distance);
    Share(d.age, w.age);
    Share(d.interests, w.interests);
    Share(d.lifestyle, w.lifestyle);
    Share(d.goals, w.goals);
    Share(d.activity, w.activity);
  }

  // The total lies in [0, 1] already, so the final clamp never changes it.
  lemma ClampIsIdle(e: Setting, seeker: Profile, prefs: Preferences, p: Profile)
    requires Sound(e) && InRange(p)
    ensures Unit(Total(e, seeker, prefs, p))
    ensures Score(e, seeker, prefs, p) == Round(Total(e, seeker, prefs, p) * 100.0)
    ensures 0 <= Score(e, seeker, prefs, p) <= 100
  {
    DimensionsInUnit(e, seeker, prefs, p);
    WeightedInUnit(e.weights, DimensionsOf(e, seeker, prefs, p));
    PercentInRange(Total(e, seeker, prefs, p));
  }

  lemma PercentInRange(total: real)
    ensures 0 <= Percent(total) <= 100
  {
    RoundOfInteger(0);
    RoundOfInteger(100);
    RoundIsMonotone(0.0, Clamp(total) * 100.0);
    RoundIsMonotone(Clamp(total) * 100.0, 100.0);
  }

  lemma PercentIsMonotone(x: real, y: real)
    requires x <= y
    ensures Percent(x) <= Percent(y)
  {
    RoundIsMonotone(Clamp(x) * 100.0, Clamp(y) * 100.0);
  }

  // ---- boosting ----------------------------------------------------------------------------------

  // A boost adds between 0 and 8 points, whatever the candidate.
  lemma BoostIsBounded(e: Setting, seeker: Profile, prefs: Preferences, p: Profile)
    requires Sound(e) && InRange(p)
    ensures var plain, boosted := p.(boosted := false), p.(boosted := true);
            Score(e, seeker, prefs, plain) <= Score(e, seeker, prefs, boosted) <= Score(e, seeker, prefs, plain) + 8
  {
    var plain, boosted := p.(boosted := false), p.(boosted := true);
    BoostChangesNoDimension(e, seeker, prefs, p);
    ClampIsIdle(e, seeker, prefs, plain);
    ClampIsIdle(e, seeker, prefs, boosted);
    var t := Total(e, seeker, prefs, plain);
    assert Total(e, seeker, prefs, boosted) == Boosted(t, true);
    PercentIsMonotone(t, Boosted(t, true));
    RoundShifts(t * 100.0, 8);
    RoundIsMonotone(Boosted(t, true) * 100.0, t * 100.0 + 8.0);
  }

  lemma BoostChangesNoDimension(e: Setting, seeker: Profile, prefs: Preferences, p: Profile)
    ensures var plain, boosted := p.(boosted := false), p.(boosted := true);
            && DimensionsOf(e, seeker, prefs, plain) == DimensionsOf(e, seeker, prefs, boosted)
            && ScoreEducation(prefs, plain) == ScoreEducation(prefs, boosted)
            && Base(e, seeker, prefs, plain) == Base(e, seeker, prefs, boosted) == Base(e, seeker, prefs, p)
  {}

  // Boosting two candidates alike never reverses their scores, and neither does taking both boosts away.
  lemma BoostKeepsOrder(e: Setting, seeker: Profile, prefs: Preferences, p: Profile, q: Profile)
    ensures var p0, p1 := p.(boosted := false), p.(boosted := true);
            var q0, q1 := q.(boosted := false), q.(boosted := true);
            && (Score(e, seeker, prefs, p0) < Score(e, seeker, prefs, q0) ==>
                  Score(e, seeker, prefs, p1) <= Score(e, seeker, prefs, q1))
            && (Score(e, seeker, prefs, p1) < Score(e, seeker, prefs, q1) ==>
                  Score(e, seeker, prefs, p0) <= Score(e, seeker, prefs, q0))
  {
    hide Base, Percent;
    BoostChangesNoDimension(e, seeker, prefs, p);
    BoostChangesNoDimension(e, seeker, prefs, q);
    var x, y := Base(e, seeker, prefs, p), Base(e, seeker, prefs, q);
    if x <= y {
      PercentIsMonotone(x, y);
      PercentIsMonotone(Boosted(x, true), Boosted(y, true));
    } else {
      PercentIsMonotone(y, x);
      PercentIsMonotone(Boosted(y, true), Boosted(x, true));
    }
  }

  // ---- widening the radius -----------------------------------------------------------------------

  lemma RootIsMonotone(e: Setting, x: real, y: real)
    requires Sound(e) && 0.0 <= x <= y
    ensures e.sqrt(x) <= e.sqrt(y)
  {
    SquareOrder(e.sqrt(x), e.sqrt(y));
  }

  lemma QuotientShrinks(d: real, a: real, b: real)
    requires d >= 0.0 && 0.0 < a <= b
    ensures 0.0 <= d / b <= d / a
  {
    var x, y := d / a, d / b;
    assert x * a == d && y * b == d;
    QuotientNonNegative(d, a);
    QuotientNonNegative(d, b);
    MulStrict(x, y, b);
    MulStrict(a, b, x);
  }

  lemma DistanceScoreGrows(e: Setting, distance: Option<real>, small: nat, large: nat)
    requires Sound(e) && (distance.Some? ==> distance.value >= 0.0) && 1 <= small <= large
    ensures ScoreDistance(e, distance, small) <= ScoreDistance(e, distance, large)
  {
    DistanceInUnit(e, distance, large);
    if distance.Some? && distance.value < small as real {
      var d := distance.value;
      QuotientShrinks(d, small as real, large as real);
      RootIsMonotone(e, d / large as real, d / small as real);
      Round4IsMonotone(1.0 - e.sqrt(d / small as real), 1.0 - e.sqrt(d / large as real));
    }
  }

  lemma WeightedGrows(w: Weights, d: Dimensions, distance: real)
    requires w.distance >= 0.0 && d.distance <= distance
    ensures Weighted(w, d) <= Weighted(w, d.(distance := distance))
  {
    MulStrict(d.distance, distance, w.distance);
  }

  // For any radius of at least a kilometre, a larger one never lowers a score.
  lemma WiderNeverScoresLower(e: Setting, seeker: Profile, prefs: Preferences, p: Profile, wide: nat)
    requires Sound(e) && 1 <= prefs.maxDistance <= wide
    ensures Score(e, seeker, prefs, p) <= Score(e, seeker, prefs.(maxDistance := wide), p)
  {
    var widened := prefs.(maxDistance := wide);
    var d, d' := DimensionsOf(e, seeker, prefs, p), DimensionsOf(e, seeker, widened, p);
    DistanceScoreGrows(e, Distance(e, seeker, p), prefs.maxDistance, wide);
    assert d' == d.(distance := d'.distance) by { LifestyleIgnoresRadius(e, prefs, wide, p); }
    WeightedGrows(e.weights, d, d'.distance);
    PercentIsMonotone(Total(e, seeker, prefs, p), Total(e, seeker, widened, p));
  }

  lemma LifestyleIgnoresRadius(e: Setting, prefs: Preferences, wide: nat, p: Profile)
    ensures ScoreLifestyle(e, prefs.(maxDistance := wide), p) == ScoreLifestyle(e, prefs, p)
  {
    assert Questions(e, prefs.(maxDistance := wide), p) == Questions(e, prefs, p);
  }

  // A stored radius of 0 is the exception: it scores every distance as neutral, and setting a real
  // radius lowers the score of exactly the candidates beyond about a quarter of it.
  lemma ZeroRadiusScoresHigherExactlyWhenFar(e: Setting, d: real, wide: nat)
    requires Sound(e) && wide > 0 && d >= 0.0
    ensures ScoreDistance(e, Some(d), wide) < ScoreDistance(e, Some(d), 0) <==> d > 0.2500500025 * wide as real
  {
    if d < wide as real {
      var x := d / wide as real;
      assert x * wide as real == d;
      MulStrict(x, 0.2500500025, wide as real);
      MulStrict(0.2500500025, x, wide as real);
      QuotientNonNegative(d, wide as real);
      RootBeyondHalf(e, x);
      RoundsBelowHalf(e.sqrt(x));
    }
  }

  lemma RootBeyondHalf(e: Setting, x: real)
    requires Sound(e) && x >= 0.0
    ensures e.sqrt(x) > 0.50005 <==> x > 0.2500500025
  {
    var r := e.sqrt(x);
    assert Part(0.50005, 0.50005) == 0.2500500025 && Part(r, r) == x;
    if r <= 0.50005 {
      PartGrows(r, 0.50005, r);
      PartGrows(r, 0.50005, 0.50005);
      PartCommutes(r, 0.50005);
    } else if x <= 0.2500500025 {
      SquareOrder(r, 0.50005);
    }
  }

  // Four digits, halves to even: 0.49995 is the least number that rounds to 0.5.
  lemma RoundsBelowHalf(r: real)
    ensures Round4(1.0 - r) < 0.5 <==> r > 0.50005
  {
    var y := (1.0 - r) * 10000.0;
    RoundIsNear(y);
    assert y.Floor == 4999 ==> y - 4999.0 == y - y.Floor as real;
  }

  lemma WeightedFollowsDistance(w: Weights, d: Dimensions, distance: real)
    requires w.distance > 0.0
    ensures Weighted(w, d.(distance := distance)) - Weighted(w, d) == Part(distance - d.distance, w.distance)
    ensures Weighted(w, d.(distance := distance)) < Weighted(w, d) <==> distance < d.distance
  {
    MulStrict(distance, d.distance, w.distance);
    MulStrict(d.distance, distance, w.distance);
  }

  lemma OnlyDistanceSeesRadius(e: Setting, seeker: Profile, prefs: Preferences, p: Profile, wide: nat)
    ensures var d := Distance(e, seeker, p);
            DimensionsOf(e, seeker, prefs.(maxDistance := wide), p)
            == DimensionsOf(e, seeker, prefs, p).(distance := ScoreDistance(e, d, wide))
  {
    LifestyleIgnoresRadius(e, prefs, wide, p);
  }

  // Setting a radius where none was stored lowers the total of exactly the candidates beyond about a
  // quarter of it, except that a boosted one may stay at the cap.
  lemma RealRadiusLowersTotalExactlyWhenFar(e: Setting, seeker: Profile, prefs: Preferences, p: Profile, wide: nat)
    requires Sound(e) && e.weights.distance > 0.0 && prefs.maxDistance == 0 < wide
    ensures var widened, d := prefs.(maxDistance := wide), Distance(e, seeker, p);
            Total(e, seeker, widened, p) < Total(e, seeker, prefs, p) <==>
              && d.Some? && d.value > 0.2500500025 * wide as real
              && (p.boosted ==> Base(e, seeker, widened, p) * 1.08 < 1.0)
  {
    hide Weighted, DimensionsOf, ScoreDistance, Part, Sound;
    var d := Distance(e, seeker, p);
    OnlyDistanceSeesRadius(e, seeker, prefs, p, wide);
    WeightedFollowsDistance(e.weights, DimensionsOf(e, seeker, prefs, p), ScoreDistance(e, d, wide));
    DistanceIsADimension(e, seeker, prefs, p);
    UnknownDistanceIsNeutral(e, wide);
    if d.Some? {
      DistanceIsSound(e, seeker, p);
      ZeroRadiusScoresHigherExactlyWhenFar(e, d.value, wide);
    }
  }

  lemma DistanceIsADimension(e: Setting, seeker: Profile, prefs: Preferences, p: Profile)
    ensures DimensionsOf(e, seeker, prefs, p).distance == ScoreDistance(e, Distance(e, seeker, p), prefs.maxDistance)
  {}

  lemma UnknownDistanceIsNeutral(e: Setting, wide: nat)
    ensures ScoreDistance(e, None, wide) == ScoreDistance(e, None, 0)
  {}

  lemma DistanceIsSound(e: Setting, seeker: Profile, p: Profile)
    requires Sound(e)
    ensures Distance(e, seeker, p).Some? ==> Distance(e, seeker, p).value >= 0.0
  {}

  // With the shipped weights it lowers the score itself of everybody beyond the new radius.
  lemma RealRadiusLowersScore(e: Setting, seeker: Profile, prefs: Preferences, p: Profile, wide: nat)
    requires Sound(e) && e.weights == SHIPPED_WEIGHTS && InRange(p) && prefs.maxDistance == 0 < wide
    requires Distance(e, seeker, p).Some? && Distance(e, seeker, p).value >= wide as real
    ensures Score(e, seeker, prefs.(maxDistance := wide), p) < Score(e, seeker, prefs, p)
  {
    hide Weighted, DimensionsOf, Sound;
    var widened, d := prefs.(maxDistance := wide), DimensionsOf(e, seeker, prefs, p);
    OnlyDistanceSeesRadius(e, seeker, prefs, p, wide);
    DistanceIsADimension(e, seeker, prefs, p);
    WeightedFollowsDistance(e.weights, d, 0.0);
    DimensionsInUnit(e, seeker, prefs, p);
    WeightedWithNeutralDistance(d);
    ClampIsIdle(e, seeker, prefs, p);
    ClampIsIdle(e, seeker, widened, p);
    RoundIsNear(Total(e, seeker, prefs, p) * 100.0);
    RoundIsNear(Total(e, seeker, widened, p) * 100.0);
    assert Total(e, seeker, prefs, p) >= Total(e, seeker, widened, p) + 0.115;
  }

  lemma WeightedWithNeutralDistance(d: Dimensions)
    requires AllInUnit(d) && d.distance == 0.5
    ensures Weighted(SHIPPED_WEIGHTS, d) <= 0.875
  {}

  // ---- hard filters ------------------------------------------------------------------------------

  datatype Account = Account(verified: bool, online: bool)

  datatype Reason = MissingData | ProfileHidden | GenderPreference | OutsideAgeRange | NoPhotos | NotVerified | TooFar

  // The first filter that turns a candidate away, if any.
  function Refusal(prefs: Preferences, p: Profile, account: Account, distance: Option<real>): Option<Reason> {
    if !p.visible then Some(ProfileHidden)
    else if prefs.interestedIn != [] && p.gender !in prefs.interestedIn then Some(GenderPreference)
    else if p.age.Some? && (p.age.value < prefs.minAge || p.age.value > prefs.maxAge) then Some(OutsideAgeRange)
    else if prefs.withPhotosOnly && p.photoCount == 0 then Some(NoPhotos)
    else if prefs.verifiedOnly && !account.verified then Some(NotVerified)
    else if !prefs.globally && distance.Some? && distance.value > prefs.maxDistance as real then Some(TooFar)
    else None
  }

  // A larger radius turns nobody away whom the smaller one accepts, and lifts only "too far".
  lemma WiderFiltersAcceptMore(prefs: Preferences, p: Profile, account: Account, distance: Option<real>, wide: nat)
    requires prefs.maxDistance <= wide
    ensures var strict, relaxed := Refusal(prefs, p, account, distance),
                                   Refusal(prefs.(maxDistance := wide), p, account, distance);
            && (strict.None? ==> relaxed.None?)
            && (relaxed != strict ==> strict == Some(TooFar) && relaxed == None)
  {}

  // ---- a candidate to compute with -----------------------------------------------------------------

  function Sample(location: Option<Point>, goal: string, completion: nat, boosted: bool): Profile {
    Profile(location, Some(30), "", [], goal, "", [], "", "", "", "", completion, 3, true, boosted, 1.0)
  }

  const SAMPLE_PREFERENCES :=
    Preferences([], 20, 40, 0, ["serious"], [], [], "", "", "", "", false, false, true)

  // The neutral dimensions are the same for every sample: only distance, goal and activity differ.
  lemma SampleBase(
    e: Setting, seeker: Profile, location: Option<Point>, goal: string, completion: nat, boosted: bool, radius: nat)
    requires e.weights == SHIPPED_WEIGHTS && e.lower("") == e.strip("") == "" && seeker.interests == []
    ensures var p, prefs := Sample(location, goal, completion, boosted), SAMPLE_PREFERENCES.(maxDistance := radius);
            Base(e, seeker, prefs, p)
            == 0.25 * ScoreDistance(e, Distance(e, seeker, p), radius) + 0.15 + 0.075 + 0.075
               + 0.12 * ScoreGoals(prefs, p) + 0.08 * ScoreActivity(p)
  {
    var p, prefs := Sample(location, goal, completion, boosted), SAMPLE_PREFERENCES.(maxDistance := radius);
    hide ScoreDistance, ScoreGoals, ScoreActivity, Distance;
    RoundOfInteger(10000);
    assert ScoreAge(p.age, prefs.minAge, prefs.maxAge) == 1.0;
    NothingAsked(e, prefs, p);
    assert Folded(e, seeker.interests) == {};
  }

  lemma NothingAsked(e: Setting, prefs: Preferences, p: Profile)
    requires e.lower("") == e.strip("") == ""
    requires prefs.smoking == prefs.drinking == prefs.children == prefs.religion == "" && prefs.languages == []
    ensures ScoreLifestyle(e, prefs, p) == 0.5
  {
    var qs := Questions(e, prefs, p);
    assert Folded(e, prefs.languages) == {};
    assert qs == [None, None, None, None, None];
    assert qs[..4] == [None, None, None, None] && qs[..4][..3] == [None, None, None];
    assert qs[..4][..3][..2] == [None, None] && qs[..4][..3][..2][..1] == [None];
    assert Asked(qs[..4][..3][..2][..1]) == 0;
    assert Asked(qs[..4][..3][..2]) == 0;
    assert Asked(qs[..4][..3]) == 0;
    assert Asked(qs[..4]) == 0;
  }

  lemma ActivityOf(location: Option<Point>, goal: string, completion: nat, boosted: bool)
    ensures completion == 50 ==> ScoreActivity(Sample(location, goal, completion, boosted)) == 0.8
    ensures completion == 0 ==> ScoreActivity(Sample(location, goal, completion, boosted)) == 0.6
  {
    RoundOfInteger(8000);
    RoundOfInteger(6000);
  }

  // A candidate 500 kilometres away scores 61 with a stored radius of 0 and 48 with one of 100.
  lemma ARadiusOfZeroScoresMore(e: Setting, seeker: Profile, there: Point)
    requires e.weights == SHIPPED_WEIGHTS && e.lower("") == e.strip("") == "" && seeker.interests == []
    requires seeker.location.Some? && e.km(seeker.location.value, there) == 500.0
    ensures var p := Sample(Some(there), "serious", 50, false);
            && Score(e, seeker, SAMPLE_PREFERENCES, p) == 61
            && Score(e, seeker, SAMPLE_PREFERENCES.(maxDistance := 100), p) == 48
  {
    hide Base;
    SampleBase(e, seeker, Some(there), "serious", 50, false, 0);
    SampleBase(e, seeker, Some(there), "serious", 50, false, 100);
    ActivityOf(Some(there), "serious", 50, false);
    assert SAMPLE_PREFERENCES.(maxDistance := 0) == SAMPLE_PREFERENCES;
  }
}
