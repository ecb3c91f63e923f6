/**
  Concrete overlays. `eye`/`eyes` and `hand`/`hands` are separate table entries, so a region
  text naming eyes and hands gets four rings in two coincident pairs; a text that mentions
  `none` gets no ring; a text with no keyword gets the single centred ring.
*/
module OverlayExamples {
  import opened Text
  import opened Interpreter
  import opened Overlay
  import opened OverlayLaws

  const EyesAndHands := "eyes and hands"

  /** `EyesAndHands` is already lower case. */
  lemma EyesAndHandsLower(s: string)
    requires s == EyesAndHands
    ensures Lower(s) == s
  {
    LowerNoCapitals(s);
  }

  /** The keywords of the table that occur in `EyesAndHands`: `eye` and `eyes` at its start,
      `hand` and `hands` at index 9. */
  lemma EyesAndHandsPresent(s: string)
    requires s == EyesAndHands
    ensures Contains(s, "eye") && Contains(s, "eyes") && Contains(s, "hand") && Contains(s, "hands")
  {
    assert StartsWith(s, "eye") && StartsWith(s, "eyes");
    assert s == s[..9] + s[9..];
    ContainsAfter(s[..9], s[9..], "hand");
    ContainsAfter(s[..9], s[9..], "hands");
  }

  /** A text without the letters f, b, k, x, g, m and o holds none of the keywords that need
      one of them, nor `none`. */
  lemma AbsentByLetters(s: string)
    requires 'f' !in s && 'b' !in s && 'k' !in s && 'x' !in s && 'g' !in s && 'm' !in s && 'o' !in s
    ensures !Contains(s, "face") && !Contains(s, "background") && !Contains(s, "sky")
    ensures !Contains(s, "text") && !Contains(s, "edge")
    ensures !Contains(s, "texture") && !Contains(s, "mouth")
    ensures !Contains(s, "none")
  {
    MissingChar(s, "face", 'f');
    MissingChar(s, "background", 'b');
    MissingChar(s, "sky", 'k');
    MissingChar(s, "text", 'x');
    MissingChar(s, "edge", 'g');
    MissingChar(s, "texture", 'x');
    MissingChar(s, "mouth", 'm');
    MissingChar(s, "none", 'o');
  }

  /** The first half of the table walk over a text holding `eye`, `eyes` and `hand` but not
      `face`. */
  lemma FirstKeywordsIn(s: string)
    requires Contains(s, "eye") && Contains(s, "eyes") && !Contains(s, "face") && Contains(s, "hand")
    ensures Matches(Keywords[..4], s) == [Keywords[0], Keywords[1], Keywords[3]]
  {
    assert Keywords[..0] == [];
    MatchesStep(0, s);
    MatchesStep(1, s);
    MatchesStep(2, s);
    MatchesStep(3, s);
  }

  /** The middle of the table walk over a text holding `hands` but not `background` or `sky`. */
  lemma MiddleKeywordsIn(s: string)
    requires Contains(s, "hands") && !Contains(s, "background") && !Contains(s, "sky")
    ensures Matches(Keywords[..7], s) == Matches(Keywords[..4], s) + [Keywords[4]]
  {
    MatchesStep(4, s);
    MatchesStep(5, s);
    MatchesStep(6, s);
  }

  /** The end of the table walk over a text holding none of the last four keywords. */
  lemma LastKeywordsIn(s: string)
    requires !Contains(s, "text") && !Contains(s, "edge") && !Contains(s, "texture") && !Contains(s, "mouth")
    ensures Matches(Keywords, s) == Matches(Keywords[..7], s)
  {
    MatchesStep(7, s);
    MatchesStep(8, s);
    MatchesStep(9, s);
    MatchesStep(10, s);
    assert Keywords[..11] == Keywords;
  }

  /** Four matches, none of them past the cap, give four rings after the AI border. */
  lemma FourRingsIn(s: string, width: nat, height: nat)
    requires ShowRings(s) && Matches(Keywords, Lower(s)) == [Keywords[0], Keywords[1], Keywords[3], Keywords[4]]
    ensures var p := Plan(AI, s, width, height);
      |p| == 3 + 4
      && p[3] == p[4] == Ring(Anchor("eye", 0.3, 0.2), width, height)
      && p[5] == p[6] == Ring(Anchor("hand", 0.7, 0.6), width, height)
  {
    var ms := [Keywords[0], Keywords[1], Keywords[3], Keywords[4]];
    assert Take(ms, MaxRings) == ms;
    AIPlanSplit(s, width, height);
  }

  /** Every keyword fact about `EyesAndHands`. */
  lemma EyesAndHandsKeywords(s: string)
    requires s == EyesAndHands
    ensures Lower(s) == s && s != []
    ensures Contains(s, "eye") && Contains(s, "eyes") && Contains(s, "hand") && Contains(s, "hands")
    ensures !Contains(s, "face") && !Contains(s, "background") && !Contains(s, "sky")
    ensures !Contains(s, "text") && !Contains(s, "edge") && !Contains(s, "texture") && !Contains(s, "mouth")
    ensures !Contains(s, "none")
  {
    AbsentByLetters(s);
    EyesAndHandsLower(s);
    EyesAndHandsPresent(s);
  }

  /** A lowered text holding exactly the keywords `eye`, `eyes`, `hand` and `hands`, and not
      `none`, gets rings, for exactly those four entries. */
  lemma FourMatchesIn(s: string)
    requires Lower(s) == s && s != []
    requires Contains(s, "eye") && Contains(s, "eyes") && Contains(s, "hand") && Contains(s, "hands")
    requires !Contains(s, "face") && !Contains(s, "background") && !Contains(s, "sky")
    requires !Contains(s, "text") && !Contains(s, "edge") && !Contains(s, "texture") && !Contains(s, "mouth")
    requires !Contains(s, "none")
    ensures ShowRings(s) && Matches(Keywords, Lower(s)) == [Keywords[0], Keywords[1], Keywords[3], Keywords[4]]
  {
    FirstKeywordsIn(s);
    MiddleKeywordsIn(s);
    LastKeywordsIn(s);
  }

  /** An AI verdict on `EyesAndHands` draws three rectangles and four rings: two at the eyes'
      anchor (0.3, 0.2) and two at the hands' anchor (0.7, 0.6). */
  lemma EyesAndHandsFourRings(s: string, width: nat, height: nat)
    requires s == EyesAndHands
    ensures var p := Plan(AI, s, width, height);
      |p| == 3 + 4
      && p[3] == p[4] == Ring(Anchor("eye", 0.3, 0.2), width, height)
      && p[5] == p[6] == Ring(Anchor("hand", 0.7, 0.6), width, height)
  {
    EyesAndHandsKeywords(s);
    FourMatchesIn(s);
    FourRingsIn(s, width, height);
  }

  /** A region text that mentions `none`, in any case, gets no ring. */
  lemma NoneDetectedNoRings(s: string, width: nat, height: nat)
    requires s == "None detected"
    ensures Plan(AI, s, width, height) == Border(3, AIBorder, width, height)
  {
    assert StartsWith(Lower(s), "none");
  }

  /** A text without the letters e, h, b, k and m holds no keyword of the table. */
  lemma NoKeywordIn(s: string)
    requires 'e' !in s && 'h' !in s && 'b' !in s && 'k' !in s && 'm' !in s
    ensures Matches(Keywords, s) == []
  {
    forall a | a in Keywords ensures !Contains(s, a.keyword) {
      if a.keyword == "background" {
        MissingChar(s, a.keyword, 'b');
      } else if a.keyword == "hand" || a.keyword == "hands" {
        MissingChar(s, a.keyword, 'h');
      } else if a.keyword == "sky" {
        MissingChar(s, a.keyword, 'k');
      } else if a.keyword == "mouth" {
        MissingChar(s, a.keyword, 'm');
      } else {
        MissingChar(s, a.keyword, 'e');
      }
    }
    MatchesNone(Keywords, s);
  }

  /** A region text with no keyword gets the single ring at the centre of the image. */
  lemma NoKeywordCentredRing(s: string, width: nat, height: nat)
    requires s == "odd"
    ensures var r := Radius(width, height);
      var x := width as real * 0.5;
      var y := height as real * 0.5;
      Plan(AI, s, width, height)
      == Border(3, AIBorder, width, height) + [Ellipse(x - r, y - r, x + r, y + r, RingOutline, RingWidth)]
  {
    LowerNoCapitals(s);
    MissingChar(s, "none", 'n');
    NoKeywordIn(s);
    CentreOnly(s, width, height);
  }
}
