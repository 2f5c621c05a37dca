/**
 * Placing one section's label inside its wedge (the text part of
 * `drawWheel`): the font size chosen from the label's length, the fall-back
 * to wrapping a many-word label or shrinking a one-word label, and the
 * vertical stacking of wrapped lines about the wedge's midline.
 */
module Labels {
  import opened Words
  import opened Wrap

  /** The smallest font size the one-word shrink loop goes down to. */
  const MIN_FONT_SIZE: int := 8

  /** The font size for a label of this length: 18, 14 past 15 characters, 12 past 20. */
  function InitialFontSize(text: string): (size: int)
    ensures |text| <= 15 ==> size == 18
    ensures 15 < |text| <= 20 ==> size == 14
    ensures 20 < |text| ==> size == 12
  {
    var size := 18;
    var size := if |text| > 15 then 14 else size;
    if |text| > 20 then 12 else size
  }

  /** A longer label never gets a larger font. */
  lemma InitialFontSizeAntitone(shorter: string, longer: string)
    requires |shorter| <= |longer|
    ensures InitialFontSize(longer) <= InitialFontSize(shorter)
    ensures MIN_FONT_SIZE < InitialFontSize(longer)
  {
  }

  /**
   * The shrink loop for a one-word label: measure at `initial`, then step
   * the font down by one while the word is too wide and the font is above
   * 8. The loop ends; the font only goes down, and not below 8 (nor below
   * `initial` when that is already under 8); the returned width is the
   * word's width at the returned size; the word fits unless the floor was
   * reached; and every larger size up to `initial` was too wide, so the
   * result is the largest size that fits.
   */
  method ShrinkToFit(text: string, initial: int, maxWidth: real, width: Measure)
    returns (fontSize: int, textWidth: real)
    ensures fontSize <= initial
    ensures fontSize >= MIN_FONT_SIZE || fontSize == initial
    ensures textWidth == width(text, fontSize)
    ensures textWidth <= maxWidth || fontSize <= MIN_FONT_SIZE
    ensures forall f :: fontSize < f <= initial ==> width(text, f) > maxWidth
  {
    fontSize := initial;
    textWidth := width(text, fontSize);
    while textWidth > maxWidth && fontSize > MIN_FONT_SIZE
      invariant fontSize <= initial
      invariant fontSize >= MIN_FONT_SIZE || fontSize == initial
      invariant textWidth == width(text, fontSize)
      invariant forall f :: fontSize < f <= initial ==> width(text, f) > maxWidth
      decreases fontSize
    {
      fontSize := fontSize - 1;
      textWidth := width(text, fontSize);
    }
  }

  /**
   * The vertical offsets of `count` stacked lines: line height
   * `fontSize + 2`, the first line at `-totalHeight / 2 + lineHeight / 2`.
   */
  function LineOffsets(count: nat, fontSize: int): (ys: seq<real>)
    ensures |ys| == count
    ensures forall i :: 0 <= i < count ==>
      ys[i] == (2 * i - count + 1) as real * (fontSize + 2) as real / 2.0
  {
    var lineHeight := (fontSize + 2) as real;
    var totalHeight := count as real * lineHeight;
    var startY := -totalHeight / 2.0 + lineHeight / 2.0;
    seq(count, i => startY + i as real * lineHeight)
  }

  /**
   * Stacked lines are one line height apart and centred on the wedge's
   * midline: the i-th line from the top and the i-th from the bottom sit
   * at opposite offsets.
   */
  lemma StackedLinesCentred(count: nat, fontSize: int)
    ensures var ys := LineOffsets(count, fontSize);
      && (forall i :: 0 <= i < count - 1 ==> ys[i + 1] - ys[i] == (fontSize + 2) as real)
      && (forall i :: 0 <= i < count ==> ys[i] + ys[count - 1 - i] == 0.0)
  {
    var ys := LineOffsets(count, fontSize);
    var h := (fontSize + 2) as real;
    var n := count as real;
    forall i | 0 <= i < count - 1
      ensures ys[i + 1] - ys[i] == h
    {
      assert (i + 1) as real * h == i as real * h + h;
    }
    forall i | 0 <= i < count
      ensures ys[i] + ys[count - 1 - i] == 0.0
    {
      var a, b := i as real, (count - 1 - i) as real;
      assert a * h + b * h == (a + b) * h;
      assert (n - 1.0) * h == n * h - h;
    }
  }

  /** A line of text drawn at (`x`, `y`) in the wedge's rotated frame. */
  datatype Placement = Placement(text: string, x: real, y: real)

  /** The font size and the lines that draw one label. */
  datatype LabelLayout = LabelLayout(fontSize: int, lines: seq<Placement>)

  /** The texts of the placed lines, top to bottom. */
  function Texts(lines: seq<Placement>): (texts: seq<string>)
    ensures |texts| == |lines|
    ensures forall i :: 0 <= i < |lines| ==> texts[i] == lines[i].text
  {
    if |lines| == 0 then [] else [lines[0].text] + Texts(lines[1..])
  }

  /**
   * The lines of an overwide label with a space: the greedy wrap of its
   * words, at least two lines, every line of several words within the
   * width, stacked about the midline at offsets LineOffsets.
   */
  ghost predicate Wrapped(text: string, radius: real, width: Measure, layout: LabelLayout)
  {
    && |layout.lines| >= 2
    && (exists runs :: GreedyWrap(Split(text), runs, radius * 0.5, layout.fontSize, width)
                       && Texts(layout.lines) == JoinEach(runs))
    && (forall p <- layout.lines :: ' ' in p.text ==> width(p.text, layout.fontSize) <= radius * 0.5)
    && (forall i :: 0 <= i < |layout.lines| ==> layout.lines[i].y == LineOffsets(|layout.lines|, layout.fontSize)[i])
    && (forall p <- layout.lines :: p.x == radius * 0.65)
    && Join(Texts(layout.lines)) == text
  }

  /**
   * The many-word branch: wrap the words of an overwide label and stack
   * the lines about the midline.
   */
  method WrapLabel(text: string, fontSize: int, radius: real, width: Measure) returns (layout: LabelLayout)
    requires ' ' in text
    requires width(text, fontSize) > radius * 0.5
    ensures layout.fontSize == fontSize
    ensures Wrapped(text, radius, width, layout)
  {
    var maxWidth := radius * 0.5;
    var words := Split(text);
    JoinSplit(text);
    var lines, runs := WrapText(words, maxWidth, fontSize, width);
    var ys := LineOffsets(|lines|, fontSize);
    var placed := seq(|lines|, i requires 0 <= i < |lines| => Placement(lines[i], radius * 0.65, ys[i]));
    assert Texts(placed) == lines;
    forall p <- placed | ' ' in p.text
      ensures width(p.text, fontSize) <= maxWidth
    {
      var k :| 0 <= k < |placed| && placed[k] == p;
      MultiWordRunFits(words, runs, maxWidth, fontSize, width, k);
    }
    layout := LabelLayout(fontSize, placed);
  }

  /**
   * The label part of `drawWheel` for one wedge of a wheel of radius
   * `radius`. The label is always drawn in full (the lines joined with
   * spaces give it back), at the radial offset 0.65 × radius, in a font no
   * larger than its length allows and no smaller than 8. A label that fits
   * is one line at the initial size. An overwide label with a space is
   * wrapped (see Wrapped). An overwide single word is one line at the
   * largest size that fits, or at size 8 when none down to 8 does.
   */
  method LayoutLabel(text: string, radius: real, width: Measure) returns (layout: LabelLayout)
    ensures Join(Texts(layout.lines)) == text
    ensures |layout.lines| >= 1
    ensures forall p <- layout.lines :: p.x == radius * 0.65
    ensures MIN_FONT_SIZE <= layout.fontSize <= InitialFontSize(text)
    ensures width(text, InitialFontSize(text)) <= radius * 0.5 ==>
      layout == LabelLayout(InitialFontSize(text), [Placement(text, radius * 0.65, 5.0)])
    ensures width(text, InitialFontSize(text)) > radius * 0.5 && ' ' in text ==>
      layout.fontSize == InitialFontSize(text) && Wrapped(text, radius, width, layout)
    ensures ' ' !in text ==>
      && layout.lines == [Placement(text, radius * 0.65, 5.0)]
      && (width(text, layout.fontSize) <= radius * 0.5 || layout.fontSize == MIN_FONT_SIZE)
    ensures ' ' !in text ==>
      forall f :: layout.fontSize < f <= InitialFontSize(text) ==> width(text, f) > radius * 0.5
  {
    var maxWidth := radius * 0.5;
    var fontSize := InitialFontSize(text);
    var textWidth := width(text, fontSize);
    if textWidth > maxWidth {
      var words := Split(text);
      if |words| > 1 {
        layout := WrapLabel(text, fontSize, radius, width);
      } else {
        fontSize, textWidth := ShrinkToFit(text, fontSize, maxWidth, width);
        layout := LabelLayout(fontSize, [Placement(text, radius * 0.65, 5.0)]);
      }
    } else {
      layout := LabelLayout(fontSize, [Placement(text, radius * 0.65, 5.0)]);
    }
  }

  /** A wrapped line that contains a space holds several words, so it fits. */
  lemma MultiWordRunFits(words: seq<string>, runs: seq<seq<string>>, maxWidth: real, fontSize: int, width: Measure, k: int)
    requires forall w <- words :: IsWord(w)
    requires GreedyWrap(words, runs, maxWidth, fontSize, width)
    requires 0 <= k < |runs| && ' ' in Join(runs[k])
    ensures width(Join(runs[k]), fontSize) <= maxWidth
  {
    FlattenWords(runs, k);
    JoinHasSpace(runs[k]);
    MultiWordLinesFit(words, runs, maxWidth, fontSize, width, k);
  }

  /** Every word of a run is one of the flattened words. */
  lemma {:induction false} FlattenWords(runs: seq<seq<string>>, k: int)
    requires 0 <= k < |runs|
    ensures forall w <- runs[k] :: w in Flatten(runs)
  {
    if k > 0 {
      FlattenWords(runs[1..], k - 1);
    }
  }
}
