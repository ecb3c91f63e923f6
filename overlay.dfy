/**
  The drawing decisions of `add_analysis_overlay` (detector/views.py): which border rectangles
  and which rings are drawn on a copy of the image, given the verdict, the suspicious-regions
  text and the image size; and the data URI the function returns.

  The PIL drawing surface is a `Canvas` that records the commands it is given. `Plan` is the
  reference definition of the command list; `AddAnalysisOverlay` is the source's sequence of
  loops, proved to record exactly `Plan`.
*/
module Overlay {
  import opened Wrappers
  import opened Text
  import opened Interpreter

  /** An RGBA colour. */
  datatype Rgba = Rgba(red: int, green: int, blue: int, alpha: int)

  /** What is drawn: an outlined rectangle between two integer corners, or an outlined
      ellipse inside a bounding box with real corners. */
  datatype DrawCommand =
    | Rectangle(left: int, top: int, right: int, bottom: int, outline: Rgba, lineWidth: nat)
    | Ellipse(x0: real, y0: real, x1: real, y1: real, outline: Rgba, lineWidth: nat)

  /** Translucent orange border of an image read as AI. */
  const AIBorder := Rgba(255, 152, 0, 80)
  /** Translucent green border of any other image. */
  const RealBorder := Rgba(40, 167, 69, 50)
  /** Outline of every ring. */
  const RingOutline := Rgba(255, 152, 0, 200)
  /** Line width of every ring. */
  const RingWidth: nat := 3
  /** The most keyword rings drawn. */
  const MaxRings: nat := 5

  /** A keyword of the region text and where on the image (as fractions of width and height)
      its ring goes. */
  datatype Anchor = Anchor(keyword: string, rx: real, ry: real)

  /** The keyword table, in the order it is walked. */
  const Keywords: seq<Anchor> := [
    Anchor("eye", 0.3, 0.2),
    Anchor("eyes", 0.3, 0.2),
    Anchor("face", 0.5, 0.3),
    Anchor("hand", 0.7, 0.6),
    Anchor("hands", 0.7, 0.6),
    Anchor("background", 0.5, 0.5),
    Anchor("sky", 0.5, 0.15),
    Anchor("text", 0.5, 0.8),
    Anchor("edge", 0.9, 0.5),
    Anchor("texture", 0.4, 0.6),
    Anchor("mouth", 0.5, 0.35)
  ]

  /** The fallback ring's place: the centre of the image. */
  const Centre := Anchor("", 0.5, 0.5)

  // ---------------------------------------------------------------- the plan

  /** `n` one-pixel rectangles, the `i`-th inset by `i` from every edge. */
  function Border(n: nat, outline: Rgba, width: int, height: int): (r: seq<DrawCommand>)
    ensures |r| == n
    ensures forall i :: 0 <= i < n ==> r[i] == Rectangle(i, i, width - i - 1, height - i - 1, outline, 1)
  {
    if n == 0 then [] else Border(n - 1, outline, width, height) + [Rectangle(n - 1, n - 1, width - n, height - n, outline, 1)]
  }

  /** The shared ring radius: a tenth of the shorter side, but never under 20. */
  function Radius(width: nat, height: nat): (radius: real)
    ensures radius >= 20.0 && radius >= 0.1 * (if width <= height then width else height) as real
    ensures radius == 20.0 || radius == 0.1 * (if width <= height then width else height) as real
  {
    var shorter := if width <= height then width else height;
    if 20.0 >= 0.1 * shorter as real then 20.0 else 0.1 * shorter as real
  }

  /** The ring of radius `Radius` centred at (width·rx, height·ry). */
  function Ring(a: Anchor, width: nat, height: nat): DrawCommand {
    var x := width as real * a.rx;
    var y := height as real * a.ry;
    var radius := Radius(width, height);
    Ellipse(x - radius, y - radius, x + radius, y + radius, RingOutline, RingWidth)
  }

  /** Rings are drawn only for a non-empty region text that does not mention `none`. */
  predicate ShowRings(regions: string) {
    regions != "" && !Contains(Lower(regions), "none")
  }

  /** The table entries whose keyword occurs in `text`, in table order. */
  function Matches(table: seq<Anchor>, text: string): (ms: seq<Anchor>)
    ensures |ms| <= |table|
  {
    if table == [] then []
    else
      var last := table[|table| - 1];
      Matches(table[..|table| - 1], text) + (if Contains(text, last.keyword) then [last] else [])
  }

  /** The matches are exactly the table entries whose keyword occurs in the text. */
  lemma {:induction false} MatchesMembers(table: seq<Anchor>, text: string)
    ensures forall a :: a in Matches(table, text) ==> a in table && Contains(text, a.keyword)
    ensures forall a :: a in table && Contains(text, a.keyword) ==> a in Matches(table, text)
  {
    if table != [] {
      var init := table[..|table| - 1];
      MatchesMembers(init, text);
      assert table == init + [table[|table| - 1]];
    }
  }

  /** One ring per anchor, in order. */
  function Rings(anchors: seq<Anchor>, width: nat, height: nat): (r: seq<DrawCommand>)
    ensures |r| == |anchors|
    ensures forall i :: 0 <= i < |anchors| ==> r[i] == Ring(anchors[i], width, height)
  {
    if anchors == [] then [] else Rings(anchors[..|anchors| - 1], width, height) + [Ring(anchors[|anchors| - 1], width, height)]
  }

  /** The rings for a region text already lowered: one per matching keyword, the first five
      at most, or a single centred ring when no keyword matches. */
  function RegionRings(lower: string, width: nat, height: nat): seq<DrawCommand> {
    var ms := Matches(Keywords, lower);
    if ms == [] then [Ring(Centre, width, height)] else Rings(Take(ms, MaxRings), width, height)
  }

  /** Every command `add_analysis_overlay` draws, in order. */
  function Plan(answer: Answer, regions: string, width: nat, height: nat): seq<DrawCommand> {
    if answer == AI then
      Border(3, AIBorder, width, height)
      + (if ShowRings(regions) then RegionRings(Lower(regions), width, height) else [])
    else
      Border(2, RealBorder, width, height)
  }

  // ---------------------------------------------------------------- the drawing surface

  /** The drawing surface of the image copy; it records what is drawn on it. */
  class Canvas {
    var commands: seq<DrawCommand>

    constructor()
      ensures commands == []
    {
      commands := [];
    }

    method DrawRectangle(left: int, top: int, right: int, bottom: int, outline: Rgba, lineWidth: nat)
      modifies this
      ensures commands == old(commands) + [Rectangle(left, top, right, bottom, outline, lineWidth)]
    {
      commands := commands + [Rectangle(left, top, right, bottom, outline, lineWidth)];
    }

    method DrawEllipse(left: real, top: real, right: real, bottom: real, outline: Rgba, lineWidth: nat)
      modifies this
      ensures commands == old(commands) + [Ellipse(left, top, right, bottom, outline, lineWidth)]
    {
      commands := commands + [Ellipse(left, top, right, bottom, outline, lineWidth)];
    }
  }

  // ---------------------------------------------------------------- the source's loops

  /** One more inset rectangle extends the border by one. */
  lemma BorderStep(n: nat, outline: Rgba, width: int, height: int)
    ensures Border(n + 1, outline, width, height) == Border(n, outline, width, height) + [Rectangle(n, n, width - n - 1, height - n - 1, outline, 1)]
  {
  }

  /** One more table entry extends the matches by that entry when its keyword occurs. */
  lemma MatchesStep(t: nat, text: string)
    requires t < |Keywords|
    ensures Matches(Keywords[..t + 1], text) ==
      Matches(Keywords[..t], text) + (if Contains(text, Keywords[t].keyword) then [Keywords[t]] else [])
  {
    assert Keywords[..t + 1][..t] == Keywords[..t];
  }

  /** The ring of an anchor, written with its centre. */
  lemma RingAt(a: Anchor, width: nat, height: nat, x: real, y: real)
    requires x == width as real * a.rx && y == height as real * a.ry
    ensures var radius := Radius(width, height);
      Ring(a, width, height) == Ellipse(x - radius, y - radius, x + radius, y + radius, RingOutline, RingWidth)
  {
  }

  /** One more anchor adds its ring at the end. */
  lemma RingsAppend(anchors: seq<Anchor>, a: Anchor, width: nat, height: nat)
    ensures Rings(anchors + [a], width, height) == Rings(anchors, width, height) + [Ring(a, width, height)]
  {
    assert (anchors + [a])[..|anchors|] == anchors;
  }

  /** Appending the ring of one more anchor to the commands drawn so far. */
  lemma AppendRing(start: seq<DrawCommand>, earlier: seq<Anchor>, a: Anchor, width: nat, height: nat, drawn: seq<DrawCommand>)
    requires drawn == start + Rings(earlier, width, height)
    ensures drawn + [Ring(a, width, height)] == start + Rings(earlier + [a], width, height)
  {
    RingsAppend(earlier, a, width, height);
    Associative(start, Rings(earlier, width, height), [Ring(a, width, height)]);
  }

  /** One step of the keyword walk: an entry whose keyword occurs is drawn exactly when fewer
      than five rings are drawn so far. */
  lemma KeywordStep(t: nat, lower: string)
    requires t < |Keywords|
    ensures var before := Take(Matches(Keywords[..t], lower), MaxRings);
      var after := Take(Matches(Keywords[..t + 1], lower), MaxRings);
      if Contains(lower, Keywords[t].keyword) && |before| < MaxRings then after == before + [Keywords[t]]
      else after == before
  {
    MatchesStep(t, lower);
  }

  /** A `for i in range(border_width)` loop: `n` inset rectangles in one outline colour. */
  method DrawBorder(draw: Canvas, n: nat, outline: Rgba, width: nat, height: nat)
    modifies draw
    ensures draw.commands == old(draw.commands) + Border(n, outline, width, height)
  {
    ghost var start := draw.commands;
    for i := 0 to n
      invariant draw.commands == start + Border(i, outline, width, height)
    {
      BorderStep(i, outline, width, height);
      draw.DrawRectangle(i, i, width - i - 1, height - i - 1, outline, 1);
    }
  }

  /** One `draw.ellipse` call: the ring of radius `circleRadius` around the anchor's point. */
  method DrawRing(draw: Canvas, anchor: Anchor, width: nat, height: nat, circleRadius: real)
    requires circleRadius == Radius(width, height)
    modifies draw
    ensures draw.commands == old(draw.commands) + [Ring(anchor, width, height)]
  {
    var x := width as real * anchor.rx;
    var y := height as real * anchor.ry;
    RingAt(anchor, width, height, x, y);
    draw.DrawEllipse(x - circleRadius, y - circleRadius, x + circleRadius, y + circleRadius, RingOutline, RingWidth);
  }

  /** The walk over the keyword table with the `drawn` counter: a ring for each entry whose
      keyword occurs in `suspiciousLower`, while fewer than five are drawn. */
  method DrawKeywordRings(draw: Canvas, suspiciousLower: string, width: nat, height: nat, circleRadius: real)
    returns (drawn: nat)
    requires circleRadius == Radius(width, height)
    modifies draw
    ensures drawn == |Take(Matches(Keywords, suspiciousLower), MaxRings)|
    ensures draw.commands == old(draw.commands) + Rings(Take(Matches(Keywords, suspiciousLower), MaxRings), width, height)
  {
    ghost var start := draw.commands;
    drawn := 0;
    for t := 0 to |Keywords|
      invariant drawn == |Take(Matches(Keywords[..t], suspiciousLower), MaxRings)|
      invariant draw.commands == start + Rings(Take(Matches(Keywords[..t], suspiciousLower), MaxRings), width, height)
    {
      var anchor := Keywords[t];
      KeywordStep(t, suspiciousLower);
      if Contains(suspiciousLower, anchor.keyword) && drawn < MaxRings {
        ghost var earlier := Take(Matches(Keywords[..t], suspiciousLower), MaxRings);
        ghost var before := draw.commands;
        DrawRing(draw, anchor, width, height, circleRadius);
        AppendRing(start, earlier, anchor, width, height, before);
        drawn := drawn + 1;
      }
    }
    assert Keywords[..|Keywords|] == Keywords;
  }

  /** The rings of an AI verdict: the keyword walk, then the centred fallback when nothing was
      drawn; `suspiciousLower` is the region text already lowered. */
  method DrawRegionRings(draw: Canvas, suspiciousLower: string, width: nat, height: nat)
    modifies draw
    ensures draw.commands == old(draw.commands) + RegionRings(suspiciousLower, width, height)
  {
    ghost var start := draw.commands;
    var circleRadius := Radius(width, height);
    var drawn := DrawKeywordRings(draw, suspiciousLower, width, height, circleRadius);
    ghost var ms := Matches(Keywords, suspiciousLower);
    if drawn == 0 {
      assert ms == [] && draw.commands == start;
      DrawRing(draw, Centre, width, height, circleRadius);
    } else {
      assert ms != [];
    }
  }

  /** Concatenation regroups freely. */
  lemma Associative(a: seq<DrawCommand>, b: seq<DrawCommand>, c: seq<DrawCommand>)
    ensures a + b + c == a + (b + c)
  {
  }

  /** The drawing part of `add_analysis_overlay`: three orange rectangles and, for a region
      text worth marking, the rings, when the verdict is AI; otherwise two green rectangles. */
  method AddAnalysisOverlay(draw: Canvas, answer: Answer, regions: string, width: nat, height: nat)
    modifies draw
    ensures draw.commands == old(draw.commands) + Plan(answer, regions, width, height)
  {
    ghost var start := draw.commands;
    if answer == AI {
      DrawBorder(draw, 3, AIBorder, width, height);
      ghost var bordered := draw.commands;
      ghost var rings := if ShowRings(regions) then RegionRings(Lower(regions), width, height) else [];
      if regions != "" && !Contains(Lower(regions), "none") {
        DrawRegionRings(draw, Lower(regions), width, height);
        assert draw.commands == bordered + RegionRings(Lower(regions), width, height);
      }
      assert draw.commands == bordered + rings;
      Associative(start, Border(3, AIBorder, width, height), rings);
    } else {
      DrawBorder(draw, 2, RealBorder, width, height);
    }
  }

  // ---------------------------------------------------------------- the result

  /** The scheme, media type and encoding that open every returned data URI (RFC 2397). */
  const DataUriPrefix := "data:image/png;base64,"

  /** The returned string: the base64 text of the drawn copy, or of the original upload when
      drawing failed (`rendered` is None), behind the PNG data-URI prefix. */
  function OverlayResult(rendered: Option<string>, originalBase64: string): (uri: string)
    ensures StartsWith(uri, DataUriPrefix)
    ensures rendered.Some? ==> uri[|DataUriPrefix|..] == rendered.value
    ensures rendered.None? ==> uri[|DataUriPrefix|..] == originalBase64
  {
    DataUriPrefix + rendered.GetOr(originalBase64)
  }
}
