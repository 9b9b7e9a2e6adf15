/** The block layout engine and the canvas: `centered_box_corner`,
    `image_height` and `assemble_image`. Each section is wrapped with its
    own font, placed horizontally (centred or at the left padding), and
    stacked vertically below the previous one; the canvas is as tall as
    the stack, or `min_height` when that is larger, and receives one
    multi-line draw per section, in order. */
module Layout {
  import opened Strings
  import opened Fonts
  import opened Options
  import opened LineWrap

  datatype Align = Center | Left
  datatype Rgb = Rgb(red: int, green: int, blue: int)

  /** The canvas background and the text colour. */
  const White: Rgb := Rgb(255, 255, 255)
  const Black: Rgb := Rgb(0, 0, 0)

  /** One section handed to `assemble_image`: text, font, centred or not, line spacing. */
  datatype Section = Section(text: string, font: Font, centered: bool, spacing: int)

  /** One entry handed to `image_height`: drawn text, font, line spacing. */
  datatype SizedText = SizedText(text: string, font: Font, spacing: int)

  /** One `multiline_text` call: position, text, font, alignment, fill and line spacing. */
  datatype DrawCommand = DrawCommand(x: real, y: int, text: string, font: Font, align: Align, fill: Rgb, spacing: int)

  /** `align_lookup`. */
  function AlignOf(centered: bool): (a: Align)
    ensures a == Center <==> centered
  {
    if centered then Center else Left
  }

  /** The width `centered_box_corner` measures: the lines joined by spaces,
      measured as multi-line text with the default spacing. */
  function BoxWidth(m: Metrics, lines: seq<string>, f: Font): (w: nat)
    ensures |lines| == 1 ==> w == m.multilineWidth(f, lines[0], DefaultMultilineSpacing)
  {
    m.multilineWidth(f, JoinWords(lines), DefaultMultilineSpacing)
  }

  /** `centered_box_corner`: the left edge of a box of the measured width
      centred in `width`, so the margins left and right of the box are
      equal, and the edge is inside the canvas exactly when the box fits. */
  function CenteredBoxCorner(m: Metrics, lines: seq<string>, f: Font, width: int): (x: real)
    ensures x + BoxWidth(m, lines, f) as real + x == width as real
    ensures 0.0 <= x <==> BoxWidth(m, lines, f) <= width
  {
    width as real / 2.0 - BoxWidth(m, lines, f) as real / 2.0
  }

  // ---------------------------------------------------------------------
  // Vertical stacking.

  /** The sum of a list of heights. */
  function Sum(xs: seq<int>): int
  {
    if |xs| == 0 then 0 else Sum(xs[..|xs| - 1]) + xs[|xs| - 1]
  }

  /** The height of one entry: its multi-line height at its own spacing. */
  function TextHeight(m: Metrics, t: SizedText): nat
  {
    m.multilineHeight(t.font, t.text, t.spacing)
  }

  function Heights(m: Metrics, texts: seq<SizedText>): (hs: seq<int>)
    ensures |hs| == |texts|
    ensures forall i :: 0 <= i < |hs| ==> hs[i] >= 0
  {
    seq(|texts|, i requires 0 <= i < |texts| => TextHeight(m, texts[i]))
  }

  /** The top of block `i`: the padding, the blocks above it and one spacing after each. */
  function StackTop(hs: seq<int>, vPadding: int, pSpacing: int, i: nat): int
    requires i <= |hs|
  {
    vPadding + Sum(hs[..i]) + i * pSpacing
  }

  function Offsets(hs: seq<int>, vPadding: int, pSpacing: int): seq<int>
  {
    seq(|hs|, i requires 0 <= i < |hs| => StackTop(hs, vPadding, pSpacing, i))
  }

  /** Passing one block moves the top down by its height and one spacing. */
  lemma StackTopStep(hs: seq<int>, vPadding: int, pSpacing: int, i: nat)
    requires i < |hs|
    ensures StackTop(hs, vPadding, pSpacing, i + 1) == StackTop(hs, vPadding, pSpacing, i) + hs[i] + pSpacing
  {
    assert hs[..i + 1][..i] == hs[..i];
  }

  /** The total height: padding above and below, every block, and one spacing between neighbours. */
  function TotalHeight(hs: seq<int>, vPadding: int, pSpacing: int): int
  {
    2 * vPadding + Sum(hs) + (|hs| - 1) * pSpacing
  }

  /** `image_height`: returns the total height and the top of every block. */
  method ImageHeight(m: Metrics, textFonts: seq<SizedText>, vPadding: int, pSpacing: int)
    returns (h: int, pts: seq<int>)
    ensures pts == Offsets(Heights(m, textFonts), vPadding, pSpacing)
    ensures h == TotalHeight(Heights(m, textFonts), vPadding, pSpacing)
  {
    ghost var hs := Heights(m, textFonts);
    h := vPadding;
    pts := [];
    var baseH := vPadding;
    assert hs[..0] == [];
    for i := 0 to |textFonts|
      invariant |pts| == i
      invariant baseH == StackTop(hs, vPadding, pSpacing, i)
      invariant forall j :: 0 <= j < i ==> pts[j] == StackTop(hs, vPadding, pSpacing, j)
    {
      pts := pts + [baseH];
      StackTopStep(hs, vPadding, pSpacing, i);
      baseH := baseH + m.multilineHeight(textFonts[i].font, textFonts[i].text, textFonts[i].spacing);
      baseH := baseH + pSpacing;
    }
    assert hs[..|textFonts|] == hs;
    h := h + baseH - pSpacing;
  }

  /** The offsets start at the padding and each next block starts one block
      height and one spacing below the previous one. */
  lemma OffsetsStep(hs: seq<int>, vPadding: int, pSpacing: int)
    ensures |Offsets(hs, vPadding, pSpacing)| == |hs|
    ensures |hs| > 0 ==> Offsets(hs, vPadding, pSpacing)[0] == vPadding
    ensures forall i :: 0 <= i < |hs| - 1 ==>
      Offsets(hs, vPadding, pSpacing)[i + 1] == Offsets(hs, vPadding, pSpacing)[i] + hs[i] + pSpacing
  {
    forall i | 0 <= i < |hs| - 1
      ensures Offsets(hs, vPadding, pSpacing)[i + 1] == Offsets(hs, vPadding, pSpacing)[i] + hs[i] + pSpacing
    {
      StackTopStep(hs, vPadding, pSpacing, i);
    }
    if |hs| > 0 {
      assert hs[..0] == [];
    }
  }

  /** The sum of non-negative heights does not shrink when a list is extended. */
  lemma {:induction false} SumPrefix(hs: seq<int>, i: nat, j: nat)
    requires i <= j <= |hs|
    requires forall k :: 0 <= k < |hs| ==> hs[k] >= 0
    ensures Sum(hs[..i]) <= Sum(hs[..j])
    decreases j - i
  {
    if i < j {
      SumPrefix(hs, i, j - 1);
      assert hs[..j][..j - 1] == hs[..j - 1];
    }
  }

  /** With non-negative heights and spacing the offsets never decrease. */
  lemma OffsetsMonotone(hs: seq<int>, vPadding: int, pSpacing: int, i: nat, j: nat)
    requires forall k :: 0 <= k < |hs| ==> hs[k] >= 0
    requires pSpacing >= 0
    requires i <= j < |hs|
    ensures Offsets(hs, vPadding, pSpacing)[i] <= Offsets(hs, vPadding, pSpacing)[j]
  {
    SumPrefix(hs, i, j);
    assert i * pSpacing <= j * pSpacing by {
      assert (j - i) * pSpacing >= 0;
    }
  }

  /** The last block ends one vertical padding above the bottom of the total height. */
  lemma LastBlockEndsAtPadding(hs: seq<int>, vPadding: int, pSpacing: int)
    requires |hs| >= 1
    ensures Offsets(hs, vPadding, pSpacing)[|hs| - 1] + hs[|hs| - 1] + vPadding == TotalHeight(hs, vPadding, pSpacing)
  {
  }

  /** With non-negative heights, padding and spacing, every block starts
      below the top and ends at least one padding above the total height. */
  lemma BlockInsideTotal(hs: seq<int>, vPadding: int, pSpacing: int, i: nat)
    requires forall k :: 0 <= k < |hs| ==> hs[k] >= 0
    requires vPadding >= 0 && pSpacing >= 0
    requires i < |hs|
    ensures 0 <= Offsets(hs, vPadding, pSpacing)[i]
    ensures Offsets(hs, vPadding, pSpacing)[i] + hs[i] + vPadding <= TotalHeight(hs, vPadding, pSpacing)
  {
    var n := |hs| - 1;
    OffsetsStep(hs, vPadding, pSpacing);
    OffsetsMonotone(hs, vPadding, pSpacing, 0, i);
    LastBlockEndsAtPadding(hs, vPadding, pSpacing);
    if i < n {
      OffsetsMonotone(hs, vPadding, pSpacing, i + 1, n);
    }
  }

  /** Taller blocks never give a shorter total height, and a strictly taller block a strictly taller one. */
  lemma {:induction false} SumMonotone(hs: seq<int>, gs: seq<int>)
    requires |hs| == |gs|
    requires forall k :: 0 <= k < |hs| ==> hs[k] <= gs[k]
    ensures Sum(hs) <= Sum(gs)
    ensures (exists k :: 0 <= k < |hs| && hs[k] < gs[k]) ==> Sum(hs) < Sum(gs)
  {
    if |hs| > 0 {
      var n := |hs| - 1;
      SumMonotone(hs[..n], gs[..n]);
      if exists k :: 0 <= k < |hs| && hs[k] < gs[k] {
        var k :| 0 <= k < |hs| && hs[k] < gs[k];
        if k < n {
          assert hs[..n][k] < gs[..n][k];
        }
      }
    }
  }

  lemma TotalHeightMonotone(hs: seq<int>, gs: seq<int>, vPadding: int, pSpacing: int)
    requires |hs| == |gs|
    requires forall k :: 0 <= k < |hs| ==> hs[k] <= gs[k]
    ensures TotalHeight(hs, vPadding, pSpacing) <= TotalHeight(gs, vPadding, pSpacing)
    ensures (exists k :: 0 <= k < |hs| && hs[k] < gs[k]) ==>
      TotalHeight(hs, vPadding, pSpacing) < TotalHeight(gs, vPadding, pSpacing)
  {
    SumMonotone(hs, gs);
  }

  // ---------------------------------------------------------------------
  // The canvas.

  /** The clamp of `assemble_image`: never shorter than `min_height` when
      one is given, otherwise exactly the stacked height. */
  function CanvasHeight(total: int, minHeight: Option<int>): (h: int)
    ensures h >= total
    ensures minHeight.None? ==> h == total
    ensures minHeight.Some? ==> h >= minHeight.value && (h == total || h == minHeight.value)
  {
    match minHeight
    case None => total
    case Some(mh) => if total >= mh then total else mh
  }

  /** A raster canvas: fixed size and background; each draw call adds one
      command to what has been drawn, in order. */
  class Canvas {
    const width: int
    const height: int
    const background: Rgb
    var commands: seq<DrawCommand>

    /** `Image.new("RGB", size=(width, height), color=background)`. */
    constructor (width: int, height: int, background: Rgb)
      ensures this.width == width && this.height == height && this.background == background
      ensures commands == []
    {
      this.width := width;
      this.height := height;
      this.background := background;
      commands := [];
    }

    /** `multiline_text`. */
    method MultilineText(x: real, y: int, text: string, font: Font, align: Align, fill: Rgb, spacing: int)
      modifies this
      ensures commands == old(commands) + [DrawCommand(x, y, text, font, align, fill, spacing)]
    {
      commands := commands + [DrawCommand(x, y, text, font, align, fill, spacing)];
    }
  }

  // ---------------------------------------------------------------------
  // What `assemble_image` computes for each section.

  /** The wrapped lines of a section. */
  function SectionLines(m: Metrics, s: Section, width: int, wPadding: int): seq<string>
  {
    SplitLinesSpec(m, s.font, width, wPadding, s.text)
  }

  /** The text drawn for a section: its lines concatenated. */
  function SectionText(m: Metrics, s: Section, width: int, wPadding: int): string
  {
    JoinWith("", SectionLines(m, s, width, wPadding))
  }

  /** The left edge of a section. */
  function SectionX(m: Metrics, s: Section, width: int, wPadding: int): real
  {
    if s.centered then CenteredBoxCorner(m, SectionLines(m, s, width, wPadding), s.font, width)
    else wPadding as real
  }

  /** The entries `assemble_image` hands to `image_height`. */
  function SizedTexts(m: Metrics, sections: seq<Section>, width: int, wPadding: int): seq<SizedText>
  {
    seq(|sections|, i requires 0 <= i < |sections| =>
      SizedText(SectionText(m, sections[i], width, wPadding), sections[i].font, sections[i].spacing))
  }

  /** The heights of the sections as drawn. */
  function SectionHeights(m: Metrics, sections: seq<Section>, width: int, wPadding: int): seq<int>
  {
    Heights(m, SizedTexts(m, sections, width, wPadding))
  }

  /** The height of the canvas `assemble_image` allocates. */
  function AssembledHeight(m: Metrics, sections: seq<Section>, width: int, wPadding: int, vPadding: int,
                           sectionSpacing: int, minHeight: Option<int>): int
  {
    CanvasHeight(TotalHeight(SectionHeights(m, sections, width, wPadding), vPadding, sectionSpacing), minHeight)
  }

  /** The draw commands `assemble_image` issues, one per section, in order. */
  function AssembledCommands(m: Metrics, sections: seq<Section>, width: int, wPadding: int, vPadding: int,
                             sectionSpacing: int): seq<DrawCommand>
  {
    var ys := Offsets(SectionHeights(m, sections, width, wPadding), vPadding, sectionSpacing);
    seq(|sections|, i requires 0 <= i < |sections| =>
      DrawCommand(SectionX(m, sections[i], width, wPadding), ys[i], SectionText(m, sections[i], width, wPadding),
                  sections[i].font, AlignOf(sections[i].centered), Black, sections[i].spacing))
  }

  /** The first loop of `assemble_image`: wraps every section and records,
      per section, the drawn text, the font, the left edge, whether it is
      centred and its line spacing. */
  method WrapSections(m: Metrics, sections: seq<Section>, width: int, wPadding: int)
    returns (linesEach: seq<string>, fntsEach: seq<Font>, xPts: seq<real>, centeredEach: seq<bool>,
             spacingEach: seq<int>)
    ensures |linesEach| == |fntsEach| == |xPts| == |centeredEach| == |spacingEach| == |sections|
    ensures forall j :: 0 <= j < |sections| ==>
      && linesEach[j] == SectionText(m, sections[j], width, wPadding)
      && fntsEach[j] == sections[j].font
      && centeredEach[j] == sections[j].centered
      && xPts[j] == SectionX(m, sections[j], width, wPadding)
      && spacingEach[j] == sections[j].spacing
  {
    linesEach, fntsEach, xPts, centeredEach, spacingEach := [], [], [], [], [];
    for i := 0 to |sections|
      invariant |linesEach| == |fntsEach| == |xPts| == |centeredEach| == |spacingEach| == i
      invariant forall j :: 0 <= j < i ==>
        && linesEach[j] == SectionText(m, sections[j], width, wPadding)
        && fntsEach[j] == sections[j].font
        && centeredEach[j] == sections[j].centered
        && xPts[j] == SectionX(m, sections[j], width, wPadding)
        && spacingEach[j] == sections[j].spacing
    {
      var s := sections[i];
      var lines := SplitLines(m, s.font, s.text, width, wPadding);
      linesEach := linesEach + [JoinWith("", lines)];
      fntsEach := fntsEach + [s.font];
      centeredEach := centeredEach + [s.centered];
      var wCorner: real;
      if s.centered {
        wCorner := CenteredBoxCorner(m, lines, s.font, width);
      } else {
        wCorner := wPadding as real;
      }
      xPts := xPts + [wCorner];
      spacingEach := spacingEach + [s.spacing];
    }
  }

  /** `assemble_image`: wraps and places every section, allocates a white
      canvas of the clamped height and draws the sections on it in order. */
  method AssembleImage(m: Metrics, textFontCtrSpacing: seq<Section>, width: int, wPadding: int, vPadding: int,
                       sectionSpacing: int, minHeight: Option<int>)
    returns (img: Canvas)
    ensures fresh(img)
    ensures img.width == width && img.background == White
    ensures img.height == AssembledHeight(m, textFontCtrSpacing, width, wPadding, vPadding, sectionSpacing, minHeight)
    ensures img.commands == AssembledCommands(m, textFontCtrSpacing, width, wPadding, vPadding, sectionSpacing)
  {
    var sections := textFontCtrSpacing;
    var linesEach, fntsEach, xPts, centeredEach, spacingEach := WrapSections(m, sections, width, wPadding);

    var textFonts := seq(|sections|, i requires 0 <= i < |sections| => SizedText(linesEach[i], fntsEach[i], spacingEach[i]));
    assert textFonts == SizedTexts(m, sections, width, wPadding);
    var hAll, hEach := ImageHeight(m, textFonts, vPadding, sectionSpacing);
    if minHeight.Some? {
      hAll := if hAll >= minHeight.value then hAll else minHeight.value;
    }

    img := new Canvas(width, hAll, White);
    DrawSections(img, xPts, hEach, linesEach, fntsEach, centeredEach, spacingEach);
    assert img.commands == DrawList(xPts, hEach, linesEach, fntsEach, centeredEach, spacingEach);
  }

  /** The commands of the drawing loop, built from its parallel lists. */
  function DrawList(xPts: seq<real>, ys: seq<int>, linesEach: seq<string>, fntsEach: seq<Font>,
                    centeredEach: seq<bool>, spacingEach: seq<int>): (cs: seq<DrawCommand>)
    requires |xPts| == |ys| == |linesEach| == |fntsEach| == |centeredEach| == |spacingEach|
    ensures |cs| == |xPts|
  {
    seq(|xPts|, i requires 0 <= i < |xPts| =>
      DrawCommand(xPts[i], ys[i], linesEach[i], fntsEach[i], AlignOf(centeredEach[i]), Black, spacingEach[i]))
  }

  /** The second loop of `assemble_image`: one black multi-line draw per
      section, in order. */
  method DrawSections(img: Canvas, xPts: seq<real>, ys: seq<int>, linesEach: seq<string>, fntsEach: seq<Font>,
                      centeredEach: seq<bool>, spacingEach: seq<int>)
    requires |xPts| == |ys| == |linesEach| == |fntsEach| == |centeredEach| == |spacingEach|
    modifies img
    ensures img.commands == old(img.commands) + DrawList(xPts, ys, linesEach, fntsEach, centeredEach, spacingEach)
  {
    ghost var expected := DrawList(xPts, ys, linesEach, fntsEach, centeredEach, spacingEach);
    for i := 0 to |xPts|
      invariant img.commands == old(img.commands) + expected[..i]
    {
      img.MultilineText(xPts[i], ys[i], linesEach[i], fntsEach[i], AlignOf(centeredEach[i]), Black, spacingEach[i]);
      assert expected[..i + 1] == expected[..i] + [expected[i]];
    }
    assert expected[..|xPts|] == expected;
  }

  // ---------------------------------------------------------------------
  // Properties of the assembled picture.

  /** One command per section, in input order, each drawing that section's
      wrapped text with its font and spacing, centred exactly when the
      section is, in black. */
  lemma CommandsFollowSections(m: Metrics, sections: seq<Section>, width: int, wPadding: int, vPadding: int,
                               sectionSpacing: int)
    ensures var cs := AssembledCommands(m, sections, width, wPadding, vPadding, sectionSpacing);
      && |cs| == |sections|
      && forall i :: 0 <= i < |cs| ==>
           && cs[i].text == SectionText(m, sections[i], width, wPadding)
           && cs[i].font == sections[i].font
           && cs[i].spacing == sections[i].spacing
           && (cs[i].align == Center <==> sections[i].centered)
           && cs[i].fill == Black
  {
  }

  /** Horizontal placement: a centred section leaves equal margins on both
      sides of its measured box, and a left-aligned one starts at the padding. */
  lemma SectionsPlacedHorizontally(m: Metrics, sections: seq<Section>, width: int, wPadding: int, vPadding: int,
                                   sectionSpacing: int, i: nat)
    requires i < |sections|
    ensures var c := AssembledCommands(m, sections, width, wPadding, vPadding, sectionSpacing)[i];
      var box := BoxWidth(m, SectionLines(m, sections[i], width, wPadding), sections[i].font);
      && (sections[i].centered ==> c.x + box as real + c.x == width as real && (0.0 <= c.x <==> box <= width))
      && (!sections[i].centered ==> c.x == wPadding as real)
  {
  }

  /** Vertical placement: the first section starts at the vertical padding,
      each next one one section height and one spacing below the previous
      one; with non-negative padding and spacing every section lies inside
      the canvas, above its bottom padding. */
  lemma SectionsStackInsideCanvas(m: Metrics, sections: seq<Section>, width: int, wPadding: int, vPadding: int,
                                  sectionSpacing: int, minHeight: Option<int>)
    ensures var cs := AssembledCommands(m, sections, width, wPadding, vPadding, sectionSpacing);
      var hs := SectionHeights(m, sections, width, wPadding);
      && (|cs| > 0 ==> cs[0].y == vPadding)
      && (forall i :: 0 <= i < |cs| - 1 ==> cs[i + 1].y == cs[i].y + hs[i] + sectionSpacing)
      && (vPadding >= 0 && sectionSpacing >= 0 ==>
            forall i :: 0 <= i < |cs| ==>
              0 <= cs[i].y && cs[i].y + hs[i] + vPadding
                <= AssembledHeight(m, sections, width, wPadding, vPadding, sectionSpacing, minHeight))
  {
    var cs := AssembledCommands(m, sections, width, wPadding, vPadding, sectionSpacing);
    var hs := SectionHeights(m, sections, width, wPadding);
    OffsetsStep(hs, vPadding, sectionSpacing);
    if vPadding >= 0 && sectionSpacing >= 0 {
      forall i | 0 <= i < |cs|
        ensures 0 <= cs[i].y && cs[i].y + hs[i] + vPadding
          <= AssembledHeight(m, sections, width, wPadding, vPadding, sectionSpacing, minHeight)
      {
        BlockInsideTotal(hs, vPadding, sectionSpacing, i);
      }
    }
  }
}
