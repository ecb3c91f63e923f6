/**
  What the overlay plan promises, proved about `Overlay.Plan`: the border rule, when rings are
  drawn and how many, where the ring of a matching keyword lands, the centred fallback, and the
  shared radius.
*/
module OverlayLaws {
  import opened Text
  import opened Interpreter
  import opened Overlay

  /** A ring is an ellipse of radius `Radius` around (width·rx, height·ry). */
  lemma RingShape(a: Anchor, width: nat, height: nat)
    ensures var r := Ring(a, width, height);
      r.Ellipse? && r.outline == RingOutline && r.lineWidth == RingWidth
      && r.x0 + r.x1 == 2.0 * (width as real * a.rx) && r.y0 + r.y1 == 2.0 * (height as real * a.ry)
      && r.x1 - r.x0 == 2.0 * Radius(width, height) && r.y1 - r.y0 == 2.0 * Radius(width, height)
  {
  }

  /** The matches among the first `k` table entries begin the matches of the whole table. */
  lemma {:induction false} MatchesPrefix(table: seq<Anchor>, text: string, k: nat)
    requires k <= |table|
    ensures var head := Matches(table[..k], text);
      |head| <= |Matches(table, text)| && Matches(table, text)[..|head|] == head
    decreases |table|
  {
    if k < |table| {
      var init := table[..|table| - 1];
      assert init[..k] == table[..k];
      MatchesPrefix(init, text, k);
    } else {
      assert table[..k] == table;
    }
  }

  /** No entry matches exactly when no keyword of the table occurs in the text. */
  lemma {:induction false} MatchesNone(table: seq<Anchor>, text: string)
    ensures Matches(table, text) == [] <==> forall a :: a in table ==> !Contains(text, a.keyword)
  {
    if table != [] {
      var init := table[..|table| - 1];
      MatchesNone(init, text);
      assert table == init + [table[|table| - 1]];
    }
  }

  /** The ring commands of an AI plan, after the three rectangles. */
  lemma AIPlanSplit(regions: string, width: nat, height: nat)
    ensures var p := Plan(AI, regions, width, height);
      |p| >= 3 && p[..3] == Border(3, AIBorder, width, height)
      && p[3..] == (if ShowRings(regions) then RegionRings(Lower(regions), width, height) else [])
  {
  }

  /**
    The border rule: an AI verdict opens with three one-pixel orange rectangles at insets 0, 1
    and 2 and everything after them is a ring; any other verdict draws exactly two green
    rectangles at insets 0 and 1 and nothing else.
  */
  lemma BorderRule(answer: Answer, regions: string, width: nat, height: nat)
    ensures var p := Plan(answer, regions, width, height);
      answer == AI ==>
        |p| >= 3
        && (forall i :: 0 <= i < 3 ==> p[i] == Rectangle(i, i, width - i - 1, height - i - 1, AIBorder, 1))
        && (forall i :: 3 <= i < |p| ==> p[i].Ellipse? && p[i].outline == RingOutline)
    ensures answer != AI ==>
      Plan(answer, regions, width, height)
      == [Rectangle(0, 0, width - 1, height - 1, RealBorder, 1), Rectangle(1, 1, width - 2, height - 2, RealBorder, 1)]
  {
    var p := Plan(answer, regions, width, height);
    if answer == AI {
      AIPlanSplit(regions, width, height);
      forall i | 3 <= i < |p| ensures p[i].Ellipse? && p[i].outline == RingOutline {
        assert p[i] == p[3..][i - 3];
      }
    } else {
      var b := Border(2, RealBorder, width, height);
      assert b[0] == Rectangle(0, 0, width - 1, height - 1, RealBorder, 1);
      assert b[1] == Rectangle(1, 1, width - 2, height - 2, RealBorder, 1);
    }
  }

  /**
    How many rings: between one and five after the three rectangles when the verdict is AI and
    the region text is non-empty and does not mention `none`; none at all otherwise.
  */
  lemma RingCount(answer: Answer, regions: string, width: nat, height: nat)
    ensures var p := Plan(answer, regions, width, height);
      answer == AI && ShowRings(regions) ==> 3 + 1 <= |p| <= 3 + MaxRings
    ensures var p := Plan(answer, regions, width, height);
      !(answer == AI && ShowRings(regions)) ==> |p| == (if answer == AI then 3 else 2)
  {
    if answer == AI {
      AIPlanSplit(regions, width, height);
    }
  }

  /**
    The ring of a matching keyword: while fewer than five earlier table entries matched, the
    entry at table position `t` gets its ring right after the rings of those earlier matches.
  */
  lemma KeywordRingPlaced(regions: string, width: nat, height: nat, t: nat)
    requires ShowRings(regions) && t < |Keywords|
    requires Contains(Lower(regions), Keywords[t].keyword)
    requires |Matches(Keywords[..t], Lower(regions))| < MaxRings
    ensures var p := Plan(AI, regions, width, height);
      var at := 3 + |Matches(Keywords[..t], Lower(regions))|;
      at < |p| && p[at] == Ring(Keywords[t], width, height)
  {
    var lower := Lower(regions);
    var earlier := Matches(Keywords[..t], lower);
    var ms := Matches(Keywords, lower);
    MatchesStep(t, lower);
    MatchesPrefix(Keywords, lower, t + 1);
    assert ms[|earlier|] == Matches(Keywords[..t + 1], lower)[|earlier|] == Keywords[t];
    var taken := Take(ms, MaxRings);
    assert |earlier| < |taken| && taken[|earlier|] == Keywords[t];
    AIPlanSplit(regions, width, height);
    var p := Plan(AI, regions, width, height);
    assert p[3 + |earlier|] == p[3..][|earlier|];
  }

  /** Every ring marks a table entry whose keyword occurs in the lowered region text, or is the
      centred fallback. */
  lemma RingsMarkMatches(regions: string, width: nat, height: nat)
    ensures var p := Plan(AI, regions, width, height);
      forall i :: 3 <= i < |p| ==>
        exists a :: (a == Centre || (a in Keywords && Contains(Lower(regions), a.keyword))) && p[i] == Ring(a, width, height)
  {
    var p := Plan(AI, regions, width, height);
    AIPlanSplit(regions, width, height);
    if ShowRings(regions) {
      var lower := Lower(regions);
      var ms := Matches(Keywords, lower);
      MatchesMembers(Keywords, lower);
      forall i | 3 <= i < |p|
        ensures exists a :: (a == Centre || (a in Keywords && Contains(lower, a.keyword))) && p[i] == Ring(a, width, height)
      {
        assert p[i] == p[3..][i - 3];
        if ms != [] {
          var taken := Take(ms, MaxRings);
          var a := taken[i - 3];
          assert a == ms[i - 3] && a in ms;
          assert p[i] == Ring(a, width, height);
        } else {
          assert p[i] == Ring(Centre, width, height);
        }
      }
    }
  }

  /** With no match, the plan is the AI border and the centred ring. */
  lemma CentreOnly(regions: string, width: nat, height: nat)
    requires ShowRings(regions) && Matches(Keywords, Lower(regions)) == []
    ensures var r := Radius(width, height);
      var x := width as real * 0.5;
      var y := height as real * 0.5;
      Plan(AI, regions, width, height)
      == Border(3, AIBorder, width, height) + [Ellipse(x - r, y - r, x + r, y + r, RingOutline, RingWidth)]
  {
    RingAt(Centre, width, height, width as real * 0.5, height as real * 0.5);
  }

  /** When no keyword of the table occurs, exactly one ring is drawn, centred on the image. */
  lemma FallbackRing(regions: string, width: nat, height: nat)
    requires ShowRings(regions)
    requires forall a :: a in Keywords ==> !Contains(Lower(regions), a.keyword)
    ensures var r := Radius(width, height);
      var x := width as real * 0.5;
      var y := height as real * 0.5;
      Plan(AI, regions, width, height)
      == Border(3, AIBorder, width, height) + [Ellipse(x - r, y - r, x + r, y + r, RingOutline, RingWidth)]
  {
    assert Matches(Keywords, Lower(regions)) == [] by {
      MatchesNone(Keywords, Lower(regions));
    }
    CentreOnly(regions, width, height);
  }

  /** Every ellipse of a plan has the shared radius max(20, 0.1·min(width, height)). */
  lemma SharedRadius(answer: Answer, regions: string, width: nat, height: nat)
    ensures var p := Plan(answer, regions, width, height);
      forall i :: 0 <= i < |p| && p[i].Ellipse? ==>
        p[i].x1 - p[i].x0 == 2.0 * Radius(width, height) && p[i].y1 - p[i].y0 == 2.0 * Radius(width, height)
  {
    var p := Plan(answer, regions, width, height);
    BorderRule(answer, regions, width, height);
    if answer == AI {
      RingsMarkMatches(regions, width, height);
      forall i | 0 <= i < |p| && p[i].Ellipse?
        ensures p[i].x1 - p[i].x0 == 2.0 * Radius(width, height) && p[i].y1 - p[i].y0 == 2.0 * Radius(width, height)
      {
        var a :| (a == Centre || (a in Keywords && Contains(Lower(regions), a.keyword))) && p[i] == Ring(a, width, height);
        RingShape(a, width, height);
      }
    }
  }
}
