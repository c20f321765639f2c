/** Terms that masking cannot remove.  The mask is made of stars, so a term with stars in the wrong
    places can occur again in what masking wrote.  Which terms those are is decided exactly. */
module StarredTerms {
  import opened TextMasking

  // ---- what one replacement does -------------------------------------------------------------------

  lemma MatchOfTail(fold: char -> char, t: string, s: string, i: nat)
    requires s != ""
    ensures MatchAt(fold, t, s[1..], i) <==> MatchAt(fold, t, s, i + 1)
  {
    if i + 1 + |t| <= |s| { assert s[1..][i..i + |t|] == s[i + 1..i + 1 + |t|]; }
  }

  // A match pairs letters that fold alike.
  lemma MatchedLetters(fold: char -> char, t: string, s: string, i: nat, k: nat)
    requires i + |t| <= |s| && k < |t|
    ensures MatchAt(fold, t, s, i) ==> fold(s[i + k]) == fold(t[k])
  {
    assert s[i..i + |t|][k] == s[i + k];
  }

  lemma {:induction false} SubSkips(fold: char -> char, t: string, p: string, q: string)
    requires t != "" && forall i: nat | i < |p| :: !MatchAt(fold, t, p + q, i)
    ensures Sub(fold, t, p + q) == p + Sub(fold, t, q)
    decreases |p|
  {
    hide MatchAt;
    if p == "" {
      assert p + q == q;
    } else {
      assert (p + q)[1..] == p[1..] + q;
      forall i: nat | i < |p[1..]| ensures !MatchAt(fold, t, p[1..] + q, i) {
        MatchOfTail(fold, t, p + q, i);
      }
      SubSkips(fold, t, p[1..], q);
      assert !MatchAt(fold, t, p + q, 0);
      assert [p[0]] + (p[1..] + Sub(fold, t, q)) == p + Sub(fold, t, q);
    }
  }

  lemma SubOfShortText(fold: char -> char, t: string, s: string)
    requires |s| < |t|
    ensures Sub(fold, t, s) == s
  {
    SubSkips(fold, t, s, "");
    assert s + "" == s;
  }

  // The first match is t itself, at |p|, and too little follows for another.
  lemma SubOnce(fold: char -> char, t: string, p: string, q: string)
    requires t != "" && |q| < |t| && forall i: nat | i < |p| :: !MatchAt(fold, t, p + t + q, i)
    ensures Sub(fold, t, p + t + q) == p + MASK + q
  {
    assert p + t + q == p + (t + q);
    SubSkips(fold, t, p, t + q);
    assert (t + q)[0..|t|] == t && (t + q)[|t|..] == q;
    assert MatchAt(fold, t, t + q, 0);
    SubOfShortText(fold, t, q);
    assert p + (MASK + q) == p + MASK + q;
  }

  lemma OccursAt(fold: char -> char, t: string, s: string, k: nat)
    requires k + |t| <= |s| && s[k..k + |t|] == t
    ensures Occurs(fold, t, s)
  {
    assert MatchAt(fold, t, s, k);
  }

  // The text holds the term, and still holds it once the term has been masked.
  ghost predicate Survives(fold: char -> char, t: string, s: string) {
    Occurs(fold, t, s) && Occurs(fold, t, Replace(fold, t, s))
  }

  lemma LeadingStarSurvives(fold: char -> char, t: string)
    requires t != "" && t[0] == '*'
    ensures Survives(fold, t, t + t[1..])
  {
    hide Sub, MatchAt, Occurs;
    var s := t + t[1..];
    assert s == "" + t + t[1..] && "" + MASK + t[1..] == "**" + t;
    SubOnce(fold, t, "", t[1..]);
    OccursAt(fold, t, s, 0);
    OccursAt(fold, t, "**" + t, 2);
  }

  // An earlier match in p + t, where t is p and a star, would make t begin with a star as well.
  lemma NoEarlierMatch(fold: char -> char, t: string, i: nat)
    requires OnlyStarFoldsToStar(fold)
    requires t != "" && t[0] != '*' && t[|t| - 1] == '*' && i < |t| - 1
    ensures !MatchAt(fold, t, t[..|t| - 1] + t, i)
  {
    hide MatchAt;
    var s := t[..|t| - 1] + t;
    MatchedLetters(fold, t, s, i, 0);
    MatchedLetters(fold, t, s, i, |t| - 1);
    assert s[i] == t[i] && s[i + |t| - 1] == t[i];
  }

  lemma TrailingStarSurvives(fold: char -> char, t: string)
    requires OnlyStarFoldsToStar(fold)
    requires t != "" && t[0] != '*' && t[|t| - 1] == '*'
    ensures Survives(fold, t, t[..|t| - 1] + t)
  {
    hide Sub, MatchAt, Occurs;
    var p := t[..|t| - 1];
    assert p + t == p + t + "" && p + MASK + "" == t + "**";
    forall i: nat | i < |p| ensures !MatchAt(fold, t, p + t + "", i) {
      NoEarlierMatch(fold, t, i);
    }
    SubOnce(fold, t, p, "");
    OccursAt(fold, t, p + t, |p|);
    OccursAt(fold, t, t + "**", 0);
  }

  lemma {:induction false} FirstTriple(t: string, i: nat) returns (k: nat)
    requires TripleAt(t, i)
    ensures TripleAt(t, k) && forall j: nat | j < k :: !TripleAt(t, j)
    decreases i
  {
    if j: nat :| j < i && TripleAt(t, j) {
      k := FirstTriple(t, j);
    } else {
      k := i;
    }
  }

  // An earlier match in p + t + q would put three stars into t before its first three.
  lemma NoMatchBeforeTriple(fold: char -> char, t: string, k: nat, i: nat)
    requires OnlyStarFoldsToStar(fold)
    requires TripleAt(t, k) && i < k && !TripleAt(t, i)
    ensures !MatchAt(fold, t, t[..k] + t + t[k + 3..], i)
  {
    hide MatchAt;
    var s := t[..k] + t + t[k + 3..];
    MatchedLetters(fold, t, s, i, k);
    MatchedLetters(fold, t, s, i, k + 1);
    MatchedLetters(fold, t, s, i, k + 2);
    assert s[i + k] == t[i] && s[i + k + 1] == t[i + 1] && s[i + k + 2] == t[i + 2];
  }

  lemma TripleSurvives(fold: char -> char, t: string, k: nat)
    requires OnlyStarFoldsToStar(fold)
    requires TripleAt(t, k) && forall j: nat | j < k :: !TripleAt(t, j)
    ensures Survives(fold, t, t[..k] + t + t[k + 3..])
  {
    hide Sub, MatchAt, Occurs;
    var p, q := t[..k], t[k + 3..];
    forall i: nat | i < k ensures !MatchAt(fold, t, p + t + q, i) {
      NoMatchBeforeTriple(fold, t, k, i);
    }
    SubOnce(fold, t, p, q);
    assert (p + t + q)[k..k + |t|] == t;
    OccursAt(fold, t, p + t + q, k);
    assert p + MASK + q == t;
    OccursAt(fold, t, t, 0);
  }

  // Every term that is not removable has a text it survives in.
  lemma SomeTextKeepsIt(fold: char -> char, t: string) returns (s: string)
    requires OnlyStarFoldsToStar(fold) && !Removable(t)
    ensures Survives(fold, t, s) && '*' in s && '*' in Replace(fold, t, s)
  {
    if t == "" {
      s := "*";
      OccursAt(fold, t, s, 0);
      OccursAt(fold, t, Replace(fold, t, s), 0);
      assert Replace(fold, t, s)[0] == '*';
    } else {
      var star: nat;
      if t[0] == '*' {
        s, star := t + t[1..], 0;
        LeadingStarSurvives(fold, t);
      } else if t[|t| - 1] == '*' {
        s, star := t[..|t| - 1] + t, |t| - 1;
        TrailingStarSurvives(fold, t);
      } else {
        var i: nat :| TripleAt(t, i);
        star := FirstTriple(t, i);
        s := t[..star] + t + t[star + 3..];
        TripleSurvives(fold, t, star);
      }
      StarShows(fold, t, s, star);
      StarShows(fold, t, Replace(fold, t, s), star);
    }
  }

  lemma StarShows(fold: char -> char, t: string, s: string, k: nat)
    requires OnlyStarFoldsToStar(fold) && k < |t| && t[k] == '*' && Occurs(fold, t, s)
    ensures '*' in s
  {
    var i: nat :| i <= |s| && MatchAt(fold, t, s, i);
    FoldedStars(fold, s[i..i + |t|], t, k);
    assert s[i + k] == '*';
  }

  // ---- the exact conditions ------------------------------------------------------------------------

  function Masking(t: string): seq<BannedTerm> { [BannedTerm(t, Mask, Low, 0)] }

  lemma CleanOfOne(fold: char -> char, space: char -> bool, t: string, s: string)
    ensures CleanText(fold, space, Masking(t), s)
            == if !Blank(space, s) && Occurs(fold, t, s) then Replace(fold, t, s) else s
  {
    var e := BannedTerm(t, Mask, Low, 0);
    assert MaskAll(fold, [e], s, 1) == if Hits(fold, e, s) then Replace(fold, t, s) else s;
  }

  // A masked term can be left in a text that was screened exactly if it is empty, starts or ends with
  // a star, or holds three stars in a row.
  lemma MaskCanFailExactlyOnStars(fold: char -> char, space: char -> bool, t: string)
    requires OnlyStarFoldsToStar(fold) && !space('*')
    ensures (exists s :: !Blank(space, s) && Occurs(fold, t, CleanText(fold, space, Masking(t), s))) <==> !Removable(t)
  {
    if Removable(t) {
      forall s | !Blank(space, s) ensures !Occurs(fold, t, CleanText(fold, space, Masking(t), s)) {
        MaskedTermSurvivesOnlyInBlankText(fold, space, Masking(t), s, 0);
      }
    } else {
      var s := SomeTextKeepsIt(fold, t);
      CleanOfOne(fold, space, t, s);
      assert !Blank(space, s);
    }
  }

  lemma {:induction false} InterleaveGrows(s: string)
    ensures |Interleave(s)| == 4 * |s|
  {
    if s != "" { InterleaveGrows(s[1..]); }
  }

  lemma {:induction false} SubLength(fold: char -> char, t: string, s: string)
    requires t != ""
    ensures |t| <= 3 ==> |Sub(fold, t, s)| >= |s|
    ensures |t| >= 3 ==> |Sub(fold, t, s)| <= |s|
    ensures Occurs(fold, t, s) && |t| != 3 ==> |Sub(fold, t, s)| != |s|
    decreases |s|
  {
    if s != "" {
      if MatchAt(fold, t, s, 0) {
        SubLength(fold, t, s[|t|..]);
      } else {
        SubLength(fold, t, s[1..]);
        if Occurs(fold, t, s) { LaterMatch(fold, t, s); }
      }
    }
  }

  lemma LaterMatch(fold: char -> char, t: string, s: string)
    requires s != "" && Occurs(fold, t, s) && !MatchAt(fold, t, s, 0)
    ensures Occurs(fold, t, s[1..])
  {
    var i: nat :| i <= |s| && MatchAt(fold, t, s, i);
    assert s[1..][i - 1..i - 1 + |t|] == s[i..i + |t|];
    assert MatchAt(fold, t, s[1..], i - 1);
  }

  lemma ThreeLettersChange(fold: char -> char, t: string, s: string)
    requires OnlyStarFoldsToStar(fold) && |t| == 3 && MatchAt(fold, t, s, 0)
    ensures Sub(fold, t, s) == s ==> t == MASK
  {
    assert |s| >= 3;
    hide MatchAt;
    var r := Sub(fold, t, s);
    assert r[0] == r[1] == r[2] == '*';
    MatchedLetters(fold, t, s, 0, 0);
    MatchedLetters(fold, t, s, 0, 1);
    MatchedLetters(fold, t, s, 0, 2);
    assert t == [t[0], t[1], t[2]];
  }

  // A replacement that finds something changes the text, unless it puts stars where stars were.
  lemma {:induction false} SubChanges(fold: char -> char, t: string, s: string)
    requires OnlyStarFoldsToStar(fold) && t != "" && t != MASK && Occurs(fold, t, s)
    ensures Sub(fold, t, s) != s
    decreases |s|
  {
    if |t| != 3 {
      SubLength(fold, t, s);
    } else if MatchAt(fold, t, s, 0) {
      ThreeLettersChange(fold, t, s);
    } else {
      LaterMatch(fold, t, s);
      SubChanges(fold, t, s[1..]);
      assert Sub(fold, t, s)[1..] == Sub(fold, t, s[1..]);
    }
  }

  // Screening with one masked term is idempotent exactly if the term is removable or is the mask.
  lemma ScreeningRepeatsExactlyWhenRemovable(fold: char -> char, space: char -> bool, t: string)
    requires OnlyStarFoldsToStar(fold) && !space('*')
    ensures (forall s ::
               CleanText(fold, space, Masking(t), CleanText(fold, space, Masking(t), s))
               == CleanText(fold, space, Masking(t), s))
            <==> Removable(t) || t == MASK
  {
    if Removable(t) || t == MASK {
      forall s
        ensures CleanText(fold, space, Masking(t), CleanText(fold, space, Masking(t), s))
                == CleanText(fold, space, Masking(t), s)
      {
        ScreeningIsIdempotent(fold, space, Masking(t), s);
      }
    } else {
      var s := SomeTextKeepsIt(fold, t);
      var once := Replace(fold, t, s);
      CleanOfOne(fold, space, t, s);
      CleanOfOne(fold, space, t, once);
      assert !Blank(space, s) && !Blank(space, once);
      if t == "" {
        InterleaveGrows(once);
      } else {
        SubChanges(fold, t, once);
      }
      assert CleanText(fold, space, Masking(t), CleanText(fold, space, Masking(t), s)) != once;
    }
  }

  // Screening a lone star with the term "*" triples it, and does so again each time.
  lemma ALoneStarTriples(fold: char -> char, space: char -> bool)
    requires !space('*')
    ensures CleanText(fold, space, Masking("*"), "*") == "***"
    ensures CleanText(fold, space, Masking("*"), "***") == "*********"
  {
    hide MatchAt, Occurs;
    forall x: string | x in ["*", "**", "***"] ensures Sub(fold, "*", x) == MASK + Sub(fold, "*", x[1..]) {
      StarMatchesStar(fold, x);
    }
    assert "*"[1..] == "" && "**"[1..] == "*" && "***"[1..] == "**";
    OccursAt(fold, "*", "*", 0);
    OccursAt(fold, "*", "***", 0);
    CleanOfOne(fold, space, "*", "*");
    CleanOfOne(fold, space, "*", "***");
    assert '*' in "*" && '*' in "***";
  }

  lemma StarMatchesStar(fold: char -> char, x: string)
    requires x != "" && x[0] == '*'
    ensures MatchAt(fold, "*", x, 0)
  {
    assert x[0..1] == "*";
  }
}
