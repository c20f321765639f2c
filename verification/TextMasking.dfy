/** The first moderation pass over a piece of text.

    Each active literal term is searched for in the text as written, while the masking terms rewrite
    a second, evolving copy.  The questions worth asking are about that copy: does it still contain
    a masked term, and would a second pass change it again?

    Letters are compared through `fold`, a parameter that stands for case-insensitive comparison;
    all that is asked of it is that nothing but '*' folds to what '*' folds to. */
module TextMasking {
  datatype Severity = Low | Medium | High | Critical

  datatype Action = Flag | Mask | Block

  datatype BannedTerm = BannedTerm(term: string, action: Action, severity: Severity, hitCount: nat)

  // A risk pattern that matched the text, by its description.
  datatype PatternHit = PatternHit(description: string, severity: Severity)

  datatype Verdict =
    Verdict(blocked: bool, flagged: bool, cleanText: string, reasons: seq<string>, riskScore: nat)

  datatype TrustScore = TrustScore(score: int, shadowBanned: bool)

  const MASK := "***"

  function Weight(s: Severity): nat {
    match s
    case Low => 10
    case Medium => 25
    case High => 45
    case Critical => 80
  }

  // ---- matching and replacing a literal --------------------------------------------------------

  ghost predicate OnlyStarFoldsToStar(fold: char -> char) {
    forall c :: fold(c) == fold('*') ==> c == '*'
  }

  predicate Folded(fold: char -> char, a: string, b: string) {
    |a| == |b| && forall k | 0 <= k < |a| :: fold(a[k]) == fold(b[k])
  }

  predicate MatchAt(fold: char -> char, t: string, s: string, i: nat) {
    i + |t| <= |s| && Folded(fold, s[i..i + |t|], t)
  }

  predicate Occurs(fold: char -> char, t: string, s: string) {
    exists i: nat | i <= |s| :: MatchAt(fold, t, s, i)
  }

  predicate TripleAt(t: string, i: nat) {
    i + 3 <= |t| && t[i] == '*' && t[i + 1] == '*' && t[i + 2] == '*'
  }

  ghost predicate NoTriple(t: string) { forall i: nat :: !TripleAt(t, i) }

  // Nothing of a mask can be part of such a term: it neither starts nor ends with a star, and it has
  // no room for a whole mask.
  ghost predicate Removable(t: string) {
    t != "" && t[0] != '*' && t[|t| - 1] != '*' && NoTriple(t)
  }

  // re.sub of an escaped literal: leftmost matches that do not overlap.
  function Sub(fold: char -> char, t: string, s: string): string
    requires t != ""
    decreases |s|
  {
    if s == "" then ""
    else if MatchAt(fold, t, s, 0) then MASK + Sub(fold, t, s[|t|..])
    else [s[0]] + Sub(fold, t, s[1..])
  }

  // An empty pattern matches after every character (and once before the first).
  function Interleave(s: string): string {
    if s == "" then "" else [s[0]] + MASK + Interleave(s[1..])
  }

  function Replace(fold: char -> char, t: string, s: string): string {
    if t == "" then MASK + Interleave(s) else Sub(fold, t, s)
  }

  // u reads in s at k, letter for letter.
  predicate SliceAt(u: string, s: string, k: nat) {
    k + |u| <= |s| && s[k..k + |u|] == u
  }

  ghost predicate SliceOf(u: string, s: string) {
    exists k: nat :: SliceAt(u, s, k)
  }

  lemma SliceOfRest(u: string, p: string, r: string, k: nat)
    requires |p| <= k && SliceAt(u, p + r, k)
    ensures SliceAt(u, r, k - |p|)
  {
    assert r[k - |p|..k - |p| + |u|] == (p + r)[k..k + |u|];
  }

  lemma SliceOfTail(u: string, s: string, d: nat)
    requires d <= |s| && SliceOf(u, s[d..])
    ensures SliceOf(u, s)
  {
    var k: nat :| SliceAt(u, s[d..], k);
    assert s[d + k..d + k + |u|] == s[d..][k..k + |u|];
    assert SliceAt(u, s, d + k);
  }

  lemma SliceCharAt(u: string, s: string, k: nat, m: nat)
    requires SliceAt(u, s, k) && k <= m < k + |u|
    ensures s[m] == u[m - k]
  {}

  // A piece of the copy that starts outside any mask and does not end in one reads as the text does.
  lemma {:induction false} SubKeepsPrefix(fold: char -> char, t: string, s: string, u: string)
    requires t != "" && SliceAt(u, Sub(fold, t, s), 0)
    requires NoTriple(u) && (u == "" || u[|u| - 1] != '*')
    ensures SliceAt(u, s, 0)
    decreases |s|
  {
    var r := Sub(fold, t, s);
    if u != "" {
      SliceCharAt(u, r, 0, |u| - 1);
      assert u == r[..|u|];
      if MatchAt(fold, t, s, 0) {
        assert |u| > 3;
        assert TripleAt(u, 0);
      } else {
        var rest := Sub(fold, t, s[1..]);
        assert r == [s[0]] + rest;
        assert u[1..] == rest[..|u| - 1] == r[..|u|][1..];
        forall i: nat ensures !TripleAt(u[1..], i) { assert !TripleAt(u, i + 1); }
        SubKeepsPrefix(fold, t, s[1..], u[1..]);
        assert s[..|u|] == [s[0]] + s[1..][..|u| - 1] == u;
      }
    }
  }

  lemma {:induction false} SubKeepsSlice(fold: char -> char, t: string, s: string, u: string, k: nat)
    requires t != "" && Removable(u) && SliceAt(u, Sub(fold, t, s), k)
    ensures SliceOf(u, s)
    decreases |s|
  {
    var r := Sub(fold, t, s);
    SliceCharAt(u, r, k, k);
    if MatchAt(fold, t, s, 0) {
      SliceOfRest(u, MASK, Sub(fold, t, s[|t|..]), k);
      SubKeepsSlice(fold, t, s[|t|..], u, k - 3);
      SliceOfTail(u, s, |t|);
    } else if k == 0 {
      SubKeepsPrefix(fold, t, s, u);
    } else {
      SliceOfRest(u, [s[0]], Sub(fold, t, s[1..]), k);
      SubKeepsSlice(fold, t, s[1..], u, k - 1);
      SliceOfTail(u, s, 1);
    }
  }

  lemma {:induction false} InterleaveKeepsSlice(s: string, u: string, k: nat)
    requires Removable(u) && SliceAt(u, Interleave(s), k)
    ensures SliceOf(u, s)
  {
    var r := Interleave(s);
    SliceCharAt(u, r, k, k);
    SliceCharAt(u, r, k, k + |u| - 1);
    if k == 0 {
      if |u| > 3 {
        assert u == r[..|u|];
        assert TripleAt(u, 1);
      }
      assert u == [s[0]];
      assert SliceAt(u, s, 0);
    } else {
      assert r == ([s[0]] + MASK) + Interleave(s[1..]);
      SliceOfRest(u, [s[0]] + MASK, Interleave(s[1..]), k);
      InterleaveKeepsSlice(s[1..], u, k - 4);
      SliceOfTail(u, s, 1);
    }
  }

  lemma ReplaceKeepsSlice(fold: char -> char, t: string, s: string, u: string, k: nat)
    requires Removable(u) && SliceAt(u, Replace(fold, t, s), k)
    ensures SliceOf(u, s)
  {
    if t == "" {
      SliceCharAt(u, MASK + Interleave(s), k, k);
      SliceOfRest(u, MASK, Interleave(s), k);
      InterleaveKeepsSlice(s, u, k - 3);
    } else {
      SubKeepsSlice(fold, t, s, u, k);
    }
  }

  // Stars match only stars.
  lemma FoldedStars(fold: char -> char, a: string, b: string, k: nat)
    requires OnlyStarFoldsToStar(fold) && Folded(fold, a, b) && k < |b|
    ensures a[k] == '*' <==> b[k] == '*'
  {}

  lemma FoldedIsRemovable(fold: char -> char, a: string, b: string)
    requires OnlyStarFoldsToStar(fold) && Folded(fold, a, b) && Removable(b)
    ensures Removable(a)
  {
    FoldedStars(fold, a, b, 0);
    FoldedStars(fold, a, b, |b| - 1);
    forall i: nat ensures !TripleAt(a, i) {
      if TripleAt(a, i) {
        FoldedStars(fold, a, b, i);
        FoldedStars(fold, a, b, i + 1);
        FoldedStars(fold, a, b, i + 2);
        assert TripleAt(b, i);
      }
    }
  }

  // Masking one term, whatever it is, cannot bring a removable term into the text.
  lemma ReplaceAddsNoTerm(fold: char -> char, t: string, s: string, u: string)
    requires OnlyStarFoldsToStar(fold) && Removable(u)
    requires Occurs(fold, u, Replace(fold, t, s))
    ensures Occurs(fold, u, s)
  {
    var r := Replace(fold, t, s);
    var i: nat :| i <= |r| && MatchAt(fold, u, r, i);
    var x := r[i..i + |u|];
    FoldedIsRemovable(fold, x, u);
    ReplaceKeepsSlice(fold, t, s, x, i);
    var k: nat :| SliceAt(x, s, k);
    assert MatchAt(fold, u, s, k);
  }

  // Masking a removable term removes every occurrence of it, overlapping ones included.
  lemma {:induction false} SubClearsItsTerm(fold: char -> char, t: string, s: string, x: string, k: nat)
    requires OnlyStarFoldsToStar(fold) && Removable(t)
    requires SliceAt(x, Sub(fold, t, s), k)
    ensures !Folded(fold, x, t)
    decreases |s|
  {
    if Folded(fold, x, t) {
      FoldedIsRemovable(fold, x, t);
      SliceCharAt(x, Sub(fold, t, s), k, k);
      if MatchAt(fold, t, s, 0) {
        SliceOfRest(x, MASK, Sub(fold, t, s[|t|..]), k);
        SubClearsItsTerm(fold, t, s[|t|..], x, k - 3);
      } else if k > 0 {
        SliceOfRest(x, [s[0]], Sub(fold, t, s[1..]), k);
        SubClearsItsTerm(fold, t, s[1..], x, k - 1);
      } else {
        SubKeepsPrefix(fold, t, s, x);
      }
    }
  }

  lemma SubLeavesNone(fold: char -> char, t: string, s: string)
    requires OnlyStarFoldsToStar(fold) && Removable(t)
    ensures !Occurs(fold, t, Sub(fold, t, s))
  {
    var r := Sub(fold, t, s);
    forall i: nat | i + |t| <= |r| ensures !MatchAt(fold, t, r, i) {
      SubClearsItsTerm(fold, t, s, r[i..i + |t|], i);
    }
  }

  lemma OccursInTail(fold: char -> char, t: string, s: string)
    requires s != ""
    ensures Occurs(fold, t, s[1..]) ==> Occurs(fold, t, s)
  {
    if Occurs(fold, t, s[1..]) {
      var i: nat :| i <= |s[1..]| && MatchAt(fold, t, s[1..], i);
      assert s[1 + i..1 + i + |t|] == s[1..][i..i + |t|];
      assert MatchAt(fold, t, s, i + 1);
    }
  }

  lemma {:induction false} SubOfAbsentTerm(fold: char -> char, t: string, s: string)
    requires t != "" && !Occurs(fold, t, s)
    ensures Sub(fold, t, s) == s
    decreases |s|
  {
    assert !MatchAt(fold, t, s, 0);
    if s != "" {
      OccursInTail(fold, t, s);
      SubOfAbsentTerm(fold, t, s[1..]);
    }
  }

  // ---- the masking loop ------------------------------------------------------------------------

  predicate Hits(fold: char -> char, e: BannedTerm, text: string) { Occurs(fold, e.term, text) }

  // The copy after the first n terms: search in `text`, replace in the copy.
  function MaskAll(fold: char -> char, terms: seq<BannedTerm>, text: string, n: nat): string
    requires n <= |terms|
  {
    if n == 0 then text
    else
      var e, clean := terms[n - 1], MaskAll(fold, terms, text, n - 1);
      if Hits(fold, e, text) && e.action == Mask then Replace(fold, e.term, clean) else clean
  }

  // A masking term the guarantee is about.
  ghost predicate Maskable(e: BannedTerm) { e.action == Mask && Removable(e.term) }

  lemma {:induction false} MaskAllAddsNoTerm(
    fold: char -> char, terms: seq<BannedTerm>, text: string, n: nat, u: string)
    requires OnlyStarFoldsToStar(fold) && Removable(u) && n <= |terms|
    requires Occurs(fold, u, MaskAll(fold, terms, text, n))
    ensures Occurs(fold, u, text)
  {
    if n > 0 {
      var e := terms[n - 1];
      if Hits(fold, e, text) && e.action == Mask {
        ReplaceAddsNoTerm(fold, e.term, MaskAll(fold, terms, text, n - 1), u);
      }
      MaskAllAddsNoTerm(fold, terms, text, n - 1, u);
    }
  }

  // Whatever the order of the terms and however they overlap, no removable masked term is left.
  lemma {:induction false} MaskAllIsClean(fold: char -> char, terms: seq<BannedTerm>, text: string, n: nat, k: nat)
    requires OnlyStarFoldsToStar(fold)
    requires k < n <= |terms| && Maskable(terms[k])
    ensures !Occurs(fold, terms[k].term, MaskAll(fold, terms, text, n))
  {
    var last, before, u := terms[n - 1], MaskAll(fold, terms, text, n - 1), terms[k].term;
    if !Occurs(fold, u, text) {
      if Occurs(fold, u, MaskAll(fold, terms, text, n)) { MaskAllAddsNoTerm(fold, terms, text, n, u); }
    } else if k == n - 1 {
      SubLeavesNone(fold, u, before);
    } else {
      MaskAllIsClean(fold, terms, text, n - 1, k);
      if Hits(fold, last, text) && last.action == Mask && Occurs(fold, u, Replace(fold, last.term, before)) {
        ReplaceAddsNoTerm(fold, last.term, before, u);
      }
    }
  }

  // Masking the mask itself leaves every text as it is.
  lemma {:induction false} SubOfMask(fold: char -> char, s: string)
    requires OnlyStarFoldsToStar(fold)
    ensures Sub(fold, MASK, s) == s
    decreases |s|
  {
    if s != "" {
      if MatchAt(fold, MASK, s, 0) {
        FoldedStars(fold, s[..3], MASK, 0);
        FoldedStars(fold, s[..3], MASK, 1);
        FoldedStars(fold, s[..3], MASK, 2);
        SubOfMask(fold, s[3..]);
        assert s == MASK + s[3..];
      } else {
        SubOfMask(fold, s[1..]);
      }
    }
  }

  lemma {:induction false} MaskAllOfCleanText(fold: char -> char, terms: seq<BannedTerm>, text: string, n: nat)
    requires OnlyStarFoldsToStar(fold) && n <= |terms|
    requires forall k | 0 <= k < n :: terms[k].action == Mask ==> terms[k].term == MASK || !Hits(fold, terms[k], text)
    ensures MaskAll(fold, terms, text, n) == text
  {
    if n > 0 {
      MaskAllOfCleanText(fold, terms, text, n - 1);
      if terms[n - 1].term == MASK { SubOfMask(fold, text); }
    }
  }

  // ---- the verdict -----------------------------------------------------------------------------

  predicate Blank(space: char -> bool, text: string) { forall c | c in text :: space(c) }

  // The text a screening hands back.
  function CleanText(fold: char -> char, space: char -> bool, terms: seq<BannedTerm>, text: string): string {
    if Blank(space, text) then text else MaskAll(fold, terms, text, |terms|)
  }

  // A removable masked term survives in exactly one case: the text is blank, so screening never looked.
  lemma MaskedTermSurvivesOnlyInBlankText(
    fold: char -> char, space: char -> bool, terms: seq<BannedTerm>, text: string, k: nat)
    requires OnlyStarFoldsToStar(fold)
    requires k < |terms| && Maskable(terms[k])
    ensures Occurs(fold, terms[k].term, CleanText(fold, space, terms, text))
            <==> Blank(space, text) && Occurs(fold, terms[k].term, text)
  {
    if !Blank(space, text) { MaskAllIsClean(fold, terms, text, |terms|, k); }
  }

  // Screening what a screening returned changes nothing.
  lemma ScreeningIsIdempotent(fold: char -> char, space: char -> bool, terms: seq<BannedTerm>, text: string)
    requires OnlyStarFoldsToStar(fold)
    requires forall k | 0 <= k < |terms| && terms[k].action == Mask :: Maskable(terms[k]) || terms[k].term == MASK
    ensures var clean := CleanText(fold, space, terms, text);
            CleanText(fold, space, terms, clean) == clean
  {
    if !Blank(space, text) {
      var clean := MaskAll(fold, terms, text, |terms|);
      forall k | 0 <= k < |terms| && terms[k].action == Mask
        ensures terms[k].term == MASK || !Hits(fold, terms[k], clean)
      {
        if terms[k].term != MASK { MaskAllIsClean(fold, terms, text, |terms|, k); }
      }
      MaskAllOfCleanText(fold, terms, clean, |terms|);
    }
  }

  predicate BlockedByTerm(fold: char -> char, terms: seq<BannedTerm>, text: string, n: nat)
    requires n <= |terms|
  {
    exists k | 0 <= k < n :: terms[k].action == Block && Hits(fold, terms[k], text)
  }

  predicate BlockedByPattern(patterns: seq<PatternHit>) {
    exists k | 0 <= k < |patterns| :: patterns[k].severity == Critical
  }

  function TermRisk(fold: char -> char, terms: seq<BannedTerm>, text: string, n: nat): nat
    requires n <= |terms|
  {
    if n == 0 then 0
    else
      TermRisk(fold, terms, text, n - 1)
      + if Hits(fold, terms[n - 1], text) then Weight(terms[n - 1].severity) else 0
  }

  function PatternRisk(patterns: seq<PatternHit>): nat {
    if patterns == [] then 0
    else PatternRisk(patterns[..|patterns| - 1]) + Weight(patterns[|patterns| - 1].severity)
  }

  function TermReasons(fold: char -> char, terms: seq<BannedTerm>, text: string, n: nat): seq<string>
    requires n <= |terms|
  {
    if n == 0 then []
    else
      TermReasons(fold, terms, text, n - 1)
      + if Hits(fold, terms[n - 1], text) then ["banned term: " + terms[n - 1].term] else []
  }

  function Descriptions(patterns: seq<PatternHit>): seq<string> {
    seq(|patterns|, k requires 0 <= k < |patterns| => patterns[k].description)
  }

  function Capped(risk: nat): nat { if risk < 100 then risk else 100 }

  lemma {:induction false} TermRiskCovers(fold: char -> char, terms: seq<BannedTerm>, text: string, n: nat, k: nat)
    requires k < n <= |terms| && Hits(fold, terms[k], text)
    ensures Weight(terms[k].severity) <= TermRisk(fold, terms, text, n)
  {
    if k < n - 1 { TermRiskCovers(fold, terms, text, n - 1, k); }
  }

  function RiskScore(fold: char -> char, terms: seq<BannedTerm>, patterns: seq<PatternHit>, text: string): nat {
    Capped(TermRisk(fold, terms, text, |terms|) + PatternRisk(patterns))
  }

  // One hit on a HIGH or CRITICAL term is enough to flag, whatever the other terms are.
  lemma SevereHitIsFlagged(
    fold: char -> char, terms: seq<BannedTerm>, patterns: seq<PatternHit>, text: string, k: nat)
    requires k < |terms| && Hits(fold, terms[k], text) && (terms[k].severity.High? || terms[k].severity.Critical?)
    ensures RiskScore(fold, terms, patterns, text) >= 40
  {
    TermRiskCovers(fold, terms, text, |terms|, k);
  }

  // Hit counts after the first n terms have been looked for.
  function Counted(fold: char -> char, terms: seq<BannedTerm>, text: string, n: nat): (r: seq<BannedTerm>)
    requires n <= |terms|
    ensures |r| == |terms|
    ensures forall k | n <= k < |terms| :: r[k] == terms[k]
  {
    if n == 0 then terms
    else
      var r := Counted(fold, terms, text, n - 1);
      if Hits(fold, terms[n - 1], text) then r[n - 1 := r[n - 1].(hitCount := r[n - 1].hitCount + 1)] else r
  }

  // Each term is counted once per screening that contains it, however often it occurs.
  lemma {:induction false} CountedOnce(fold: char -> char, terms: seq<BannedTerm>, text: string, n: nat, k: nat)
    requires k < n <= |terms|
    ensures Counted(fold, terms, text, n)[k]
            == terms[k].(hitCount := terms[k].hitCount + if Hits(fold, terms[k], text) then 1 else 0)
  {
    if k < n - 1 { CountedOnce(fold, terms, text, n - 1, k); }
  }

  ghost predicate Penalised(was: map<string, TrustScore>, now: map<string, TrustScore>, owner: string, points: nat) {
    var row := if owner in was then was[owner] else TrustScore(100, false);
    && now.Keys == was.Keys + {owner}
    && (forall o | o in was && o != owner :: now[o] == was[o])
    && now[owner].score == (if row.score < points then 0 else row.score - points)
    && now[owner].shadowBanned == (row.shadowBanned || now[owner].score < 15)
  }

  // ---- the service -----------------------------------------------------------------------------

  class TextScreeningService {
    var terms: seq<BannedTerm>
    var trust: map<string, TrustScore>

    constructor (terms: seq<BannedTerm>)
      ensures this.terms == terms && trust == map[]
    {
      this.terms := terms;
      trust := map[];
    }

    method Penalise(owner: string, points: nat)
      modifies `trust
      ensures Penalised(old(trust), trust, owner, points)
    {
      var row := if owner in trust then trust[owner] else TrustScore(100, false);
      row := row.(score := if row.score < points then 0 else row.score - points);
      if row.score < 15 && !row.shadowBanned {
        row := row.(shadowBanned := true);
      }
      trust := trust[owner := row];
    }

    // The term loop: search in the text as written, replace in the evolving copy.
    method ScanTerms(fold: char -> char, text: string)
      returns (reasons: seq<string>, risk: nat, clean: string, blocked: bool)
      modifies `terms
      ensures reasons == TermReasons(fold, old(terms), text, |old(terms)|)
      ensures risk == TermRisk(fold, old(terms), text, |old(terms)|)
      ensures clean == MaskAll(fold, old(terms), text, |old(terms)|)
      ensures blocked == BlockedByTerm(fold, old(terms), text, |old(terms)|)
      ensures terms == Counted(fold, old(terms), text, |old(terms)|)
    {
      reasons, risk, clean, blocked := [], 0, text, false;
      var listed := terms;
      for k := 0 to |listed|
        invariant reasons == TermReasons(fold, listed, text, k)
        invariant risk == TermRisk(fold, listed, text, k)
        invariant clean == MaskAll(fold, listed, text, k)
        invariant blocked == BlockedByTerm(fold, listed, text, k)
        invariant terms == Counted(fold, listed, text, k)
      {
        var entry := listed[k];
        if !Hits(fold, entry, text) {
          continue;
        }
        reasons := reasons + ["banned term: " + entry.term];
        risk := risk + Weight(entry.severity);
        if entry.action == Block {
          blocked := true;
        } else if entry.action == Mask {
          clean := Replace(fold, entry.term, clean);
        }
        terms := terms[k := terms[k].(hitCount := terms[k].hitCount + 1)];
      }
    }

    method ScanPatterns(patterns: seq<PatternHit>) returns (reasons: seq<string>, risk: nat, blocked: bool)
      ensures reasons == Descriptions(patterns)
      ensures risk == PatternRisk(patterns)
      ensures blocked == BlockedByPattern(patterns)
    {
      reasons, risk, blocked := [], 0, false;
      for p := 0 to |patterns|
        invariant |reasons| == p && forall k | 0 <= k < p :: reasons[k] == patterns[k].description
        invariant risk == PatternRisk(patterns[..p])
        invariant blocked == BlockedByPattern(patterns[..p])
      {
        assert patterns[..p + 1][..p] == patterns[..p];
        assert BlockedByPattern(patterns[..p + 1])
          <==> BlockedByPattern(patterns[..p]) || patterns[p].severity == Critical by {
          assert patterns[..p + 1][p] == patterns[p];
        }
        reasons := reasons + [patterns[p].description];
        risk := risk + Weight(patterns[p].severity);
        if patterns[p].severity == Critical {
          blocked := true;
        }
      }
      assert patterns[..|patterns|] == patterns;
    }

    method Screen(fold: char -> char, space: char -> bool, patterns: seq<PatternHit>, text: string, owner: string)
      returns (v: Verdict)
      modifies this
      ensures v.cleanText == CleanText(fold, space, old(terms), text)
      ensures v.blocked <==> !Blank(space, text)
                             && (BlockedByTerm(fold, old(terms), text, |old(terms)|) || BlockedByPattern(patterns))
      ensures v.riskScore == if Blank(space, text) then 0 else RiskScore(fold, old(terms), patterns, text)
      ensures v.flagged <==> v.riskScore >= 40 || v.blocked
      ensures v.reasons == if Blank(space, text) then []
                           else TermReasons(fold, old(terms), text, |old(terms)|) + Descriptions(patterns)
      ensures terms == if Blank(space, text) then old(terms) else Counted(fold, old(terms), text, |old(terms)|)
      ensures !(v.flagged && owner != "") ==> trust == old(trust)
      ensures v.flagged && owner != "" ==> Penalised(old(trust), trust, owner, if v.blocked then 15 else 5)
    {
      if Blank(space, text) {
        return Verdict(false, false, text, [], 0);
      }
      var termReasons, termRisk, clean, termBlocked := ScanTerms(fold, text);
      var patternReasons, patternRisk, patternBlocked := ScanPatterns(patterns);
      var risk := Capped(termRisk + patternRisk);
      var blocked := termBlocked || patternBlocked;
      var flagged := risk >= 40 || blocked;
      if flagged && owner != "" {
        Penalise(owner, if !blocked then 5 else 15);
      }
      v := Verdict(blocked, flagged, clean, termReasons + patternReasons, risk);
    }
  }
}
