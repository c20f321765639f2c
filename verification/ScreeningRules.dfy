/** When a text is blocked, when it is flagged, and what the masked copy reads. */
module ScreeningRules {
  import opened TextMasking

  // ---- finding a term ----------------------------------------------------------------------------------

  // The text reads a, then the term in letters of either case, then b.
  ghost predicate ReadsAs(fold: char -> char, term: string, text: string, a: string, u: string, b: string) {
    text == a + u + b && |u| == |term| && forall k | 0 <= k < |u| :: fold(u[k]) == fold(term[k])
  }

  ghost predicate Contains(fold: char -> char, term: string, text: string) {
    exists a, u, b :: ReadsAs(fold, term, text, a, u, b)
  }

  lemma ContainsIsOccurs(fold: char -> char, term: string, text: string)
    ensures Contains(fold, term, text) <==> Occurs(fold, term, text)
  {
    if Contains(fold, term, text) {
      var a, u, b :| ReadsAs(fold, term, text, a, u, b);
      assert text[|a|..|a| + |term|] == u;
      assert MatchAt(fold, term, text, |a|);
    }
    if Occurs(fold, term, text) {
      var i: nat :| i <= |text| && MatchAt(fold, term, text, i);
      assert text == text[..i] + text[i..i + |term|] + text[i + |term|..];
      assert ReadsAs(fold, term, text, text[..i], text[i..i + |term|], text[i + |term|..]);
    }
  }

  // ---- blocking and flagging ---------------------------------------------------------------------------

  // A text that is not blank is blocked exactly if it contains a term to be blocked or hits a critical
  // pattern.
  lemma BlockedExactly(fold: char -> char, terms: seq<BannedTerm>, patterns: seq<PatternHit>, text: string)
    ensures BlockedByTerm(fold, terms, text, |terms|) || BlockedByPattern(patterns) <==>
              || (exists t | t in terms :: t.action == Block && Contains(fold, t.term, text))
              || (exists p | p in patterns :: p.severity == Critical)
  {
    forall t: BannedTerm ensures Contains(fold, t.term, text) <==> Hits(fold, t, text) {
      ContainsIsOccurs(fold, t.term, text);
    }
    hide Hits, Contains;
    if t :| t in terms && t.action == Block && Contains(fold, t.term, text) {
      var k :| 0 <= k < |terms| && terms[k] == t;
    }
  }

  // The first n terms of this severity that the text contains.
  ghost function TermsHit(fold: char -> char, terms: seq<BannedTerm>, text: string, s: Severity, n: nat): nat
    requires n <= |terms|
  {
    if n == 0 then 0
    else
      TermsHit(fold, terms, text, s, n - 1)
      + if terms[n - 1].severity == s && Contains(fold, terms[n - 1].term, text) then 1 else 0
  }

  function PatternsHit(patterns: seq<PatternHit>, s: Severity): nat {
    if patterns == [] then 0
    else PatternsHit(patterns[..|patterns| - 1], s) + if patterns[|patterns| - 1].severity == s then 1 else 0
  }

  lemma {:induction false} TermRiskCounts(fold: char -> char, terms: seq<BannedTerm>, text: string, n: nat)
    requires n <= |terms|
    ensures TermRisk(fold, terms, text, n) ==
              10 * TermsHit(fold, terms, text, Low, n) + 25 * TermsHit(fold, terms, text, Medium, n)
              + 45 * TermsHit(fold, terms, text, High, n) + 80 * TermsHit(fold, terms, text, Critical, n)
  {
    hide Contains, Occurs;
    if n > 0 {
      TermRiskCounts(fold, terms, text, n - 1);
      ContainsIsOccurs(fold, terms[n - 1].term, text);
    }
  }

  lemma {:induction false} PatternRiskCounts(patterns: seq<PatternHit>)
    ensures PatternRisk(patterns) ==
              10 * PatternsHit(patterns, Low) + 25 * PatternsHit(patterns, Medium)
              + 45 * PatternsHit(patterns, High) + 80 * PatternsHit(patterns, Critical)
  {
    if patterns != [] { PatternRiskCounts(patterns[..|patterns| - 1]); }
  }

  ghost function AllHit(
    fold: char -> char, terms: seq<BannedTerm>, patterns: seq<PatternHit>, text: string, s: Severity): nat
  {
    TermsHit(fold, terms, text, s, |terms|) + PatternsHit(patterns, s)
  }

  // The score is flagged exactly for one severe hit, two of middle severity, one of those beside two mild
  // ones, or four mild ones.
  lemma FlaggedExactly(fold: char -> char, terms: seq<BannedTerm>, patterns: seq<PatternHit>, text: string)
    ensures var low, medium := AllHit(fold, terms, patterns, text, Low), AllHit(fold, terms, patterns, text, Medium);
            var severe := AllHit(fold, terms, patterns, text, High) + AllHit(fold, terms, patterns, text, Critical);
            RiskScore(fold, terms, patterns, text) >= 40 <==>
              severe >= 1 || medium >= 2 || (medium == 1 && low >= 2) || low >= 4
    ensures RiskScore(fold, terms, patterns, text) <= 100
    ensures AllHit(fold, terms, patterns, text, Critical) >= 1 && AllHit(fold, terms, patterns, text, Medium) >= 1
            ==> RiskScore(fold, terms, patterns, text) == 100
  {
    hide TermRisk, PatternRisk, TermsHit, PatternsHit;
    TermRiskCounts(fold, terms, text, |terms|);
    PatternRiskCounts(patterns);
  }

  function HitsBefore(fold: char -> char, terms: seq<BannedTerm>, text: string, n: nat): nat
    requires n <= |terms|
  {
    if n == 0 then 0
    else HitsBefore(fold, terms, text, n - 1) + if Occurs(fold, terms[n - 1].term, text) then 1 else 0
  }

  // The reasons are one for each term found, in the order of the terms, and no others.
  lemma {:induction false} ReasonsNameTheHits(
    fold: char -> char, terms: seq<BannedTerm>, text: string, n: nat, k: nat)
    requires k < n <= |terms|
    ensures |TermReasons(fold, terms, text, n)| == HitsBefore(fold, terms, text, n)
    ensures var i := HitsBefore(fold, terms, text, k);
            Occurs(fold, terms[k].term, text) ==>
              i < |TermReasons(fold, terms, text, n)|
              && TermReasons(fold, terms, text, n)[i] == "banned term: " + terms[k].term
  {
    hide Occurs;
    if n > 1 { ReasonsNameTheHits(fold, terms, text, n - 1, if k < n - 1 then k else 0); }
  }

  // ---- masking -----------------------------------------------------------------------------------------

  // The first occurrence becomes a mask, what stands before it stays, and the rest is masked in its turn.
  lemma {:induction false} FirstOccurrenceIsMasked(fold: char -> char, t: string, s: string, i: nat)
    requires t != "" && MatchAt(fold, t, s, i) && forall j: nat | j < i :: !MatchAt(fold, t, s, j)
    ensures i + |t| <= |s| && Replace(fold, t, s) == s[..i] + "***" + Replace(fold, t, s[i + |t|..])
  {
    hide MatchAt, Replace;
    MatchFits(fold, t, s, i);
    ReplacedAtTheFront(fold, t, s);
    if i == 0 {
      assert s[..0] == "";
    } else {
      var rest := s[1..];
      assert !MatchAt(fold, t, s, 0);
      forall j: nat | j < i - 1 ensures !MatchAt(fold, t, rest, j) { Shifted(fold, t, s, j); }
      Shifted(fold, t, s, i - 1);
      FirstOccurrenceIsMasked(fold, t, rest, i - 1);
      FrontOfRest(s, i, |t|);
    }
  }

  lemma ReplacedAtTheFront(fold: char -> char, t: string, s: string)
    requires s != "" && t != "" && |t| <= |s|
    ensures Replace(fold, t, s) ==
              if MatchAt(fold, t, s, 0) then "***" + Replace(fold, t, s[|t|..]) else [s[0]] + Replace(fold, t, s[1..])
  {}

  lemma FrontOfRest(s: string, i: nat, n: nat)
    requires 1 <= i && i + n <= |s|
    ensures s[1..][i - 1 + n..] == s[i + n..] && [s[0]] + s[1..][..i - 1] == s[..i]
  {}

  lemma MatchFits(fold: char -> char, t: string, s: string, i: nat)
    ensures t != "" && MatchAt(fold, t, s, i) ==> i + |t| <= |s| && s != ""
  {}

  lemma Shifted(fold: char -> char, t: string, s: string, j: nat)
    requires s != ""
    ensures MatchAt(fold, t, s[1..], j) == MatchAt(fold, t, s, j + 1)
  {
    if j + 1 + |t| <= |s| { assert s[1..][j..j + |t|] == s[j + 1..j + 1 + |t|]; }
  }

  lemma OccursInTheWhole(fold: char -> char, t: string, s: string)
    requires s != "" && Occurs(fold, t, s[1..])
    ensures Occurs(fold, t, s)
  {
    var i: nat :| i <= |s| - 1 && MatchAt(fold, t, s[1..], i);
    Shifted(fold, t, s, i);
    assert MatchAt(fold, t, s, i + 1);
  }

  // A text without the term stays as it is.
  lemma {:induction false} NothingToMask(fold: char -> char, t: string, s: string)
    requires t != "" && !Occurs(fold, t, s)
    ensures Replace(fold, t, s) == s
    decreases |s|
  {
    if s != "" {
      if !Occurs(fold, t, s[1..]) { NothingToMask(fold, t, s[1..]); } else { OccursInTheWhole(fold, t, s); }
      assert !MatchAt(fold, t, s, 0);
    }
  }
}
