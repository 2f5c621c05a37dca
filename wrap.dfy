/**
 * `wrapText`: the greedy word wrap of a label that is too wide for its
 * wedge. Text measurement (`ctx.measureText`) is a parameter, so every
 * property here holds for any measurement whatsoever.
 */
module Wrap {
  import opened Words

  /**
   * `width(s, fontSize)` is the measured width of `s` drawn in a bold font
   * of `fontSize` pixels.
   */
  type Measure = (string, int) -> real

  /**
   * Every test line built while filling this run of words fitted: each
   * prefix of two or more of its words measures at most `maxWidth`.
   */
  predicate PrefixesFit(run: seq<string>, maxWidth: real, fontSize: int, width: Measure)
  {
    forall j :: 2 <= j <= |run| ==> width(Join(run[..j]), fontSize) <= maxWidth
  }

  /** The line of `run` with `next` appended would be wider than `maxWidth`. */
  predicate Overflows(run: seq<string>, next: string, maxWidth: real, fontSize: int, width: Measure)
  {
    width(Join(run) + " " + next, fontSize) > maxWidth
  }

  /**
   * `runs` is the greedy wrap of `words`: the runs, laid end to end, are
   * the words; each run is non-empty and was filled only by appends that
   * fitted; and each run was closed because the next word did not fit.
   */
  predicate GreedyWrap(words: seq<string>, runs: seq<seq<string>>, maxWidth: real, fontSize: int, width: Measure)
  {
    Flatten(runs) == words && GreedyRuns(runs, maxWidth, fontSize, width)
  }

  /** Each run is non-empty and filled by fitting appends, and each break was forced. */
  predicate GreedyRuns(runs: seq<seq<string>>, maxWidth: real, fontSize: int, width: Measure)
  {
    && (forall k :: 0 <= k < |runs| ==> |runs[k]| >= 1 && PrefixesFit(runs[k], maxWidth, fontSize, width))
    && (forall k :: 0 <= k < |runs| - 1 ==> Overflows(runs[k], runs[k + 1][0], maxWidth, fontSize, width))
  }

  /** Closing a fitting line whose first word did not fit after the last run keeps the runs greedy. */
  lemma AppendRun(runs: seq<seq<string>>, current: seq<string>, maxWidth: real, fontSize: int, width: Measure)
    requires GreedyRuns(runs, maxWidth, fontSize, width)
    requires |current| >= 1 && PrefixesFit(current, maxWidth, fontSize, width)
    requires |runs| > 0 ==> Overflows(runs[|runs| - 1], current[0], maxWidth, fontSize, width)
    ensures GreedyRuns(runs + [current], maxWidth, fontSize, width)
  {
    var runs' := runs + [current];
    forall k | 0 <= k < |runs'| - 1
      ensures Overflows(runs'[k], runs'[k + 1][0], maxWidth, fontSize, width)
    {
      if k < |runs| - 1 {
        assert runs'[k] == runs[k] && runs'[k + 1] == runs[k + 1];
      }
    }
  }

  lemma JoinEachSnoc(runs: seq<seq<string>>, current: seq<string>)
    ensures JoinEach(runs + [current]) == JoinEach(runs) + [Join(current)]
  {
    assert JoinEach(runs + [current])[..|runs|] == JoinEach(runs);
  }

  lemma {:induction false} FlattenSnoc(runs: seq<seq<string>>, run: seq<string>)
    ensures Flatten(runs + [run]) == Flatten(runs) + run
  {
    if |runs| > 0 {
      assert (runs + [run])[1..] == runs[1..] + [run];
      FlattenSnoc(runs[1..], run);
    } else {
      assert Flatten([run]) == run + [];
    }
  }

  /** Appending a word that fitted keeps every prefix of the run fitting. */
  lemma ExtendRun(run: seq<string>, w: string, maxWidth: real, fontSize: int, width: Measure)
    requires |run| >= 1
    requires PrefixesFit(run, maxWidth, fontSize, width)
    requires width(Join(run) + " " + w, fontSize) <= maxWidth
    ensures Join(run + [w]) == Join(run) + " " + w
    ensures PrefixesFit(run + [w], maxWidth, fontSize, width)
  {
    JoinAppend(run, [w]);
    var longer := run + [w];
    forall j | 2 <= j <= |longer|
      ensures width(Join(longer[..j]), fontSize) <= maxWidth
    {
      if j <= |run| {
        assert longer[..j] == run[..j];
      } else {
        assert longer[..j] == longer;
      }
    }
  }

  /**
   * Where WrapText stands after its first `i` words: `runs` holds the
   * finished lines' words and `current` the line being filled.
   */
  ghost predicate Partial(words: seq<string>, i: int, runs: seq<seq<string>>, current: seq<string>, maxWidth: real, fontSize: int, width: Measure)
  {
    && 1 <= i <= |words|
    && |current| >= 1
    && Flatten(runs) + current == words[..i]
    && GreedyRuns(runs, maxWidth, fontSize, width)
    && PrefixesFit(current, maxWidth, fontSize, width)
    && (|runs| > 0 ==> Overflows(runs[|runs| - 1], current[0], maxWidth, fontSize, width))
  }

  /** The next word does not fit: the current line is closed and a new one starts. */
  lemma PartialClose(words: seq<string>, i: int, runs: seq<seq<string>>, current: seq<string>, maxWidth: real, fontSize: int, width: Measure)
    requires Partial(words, i, runs, current, maxWidth, fontSize, width) && i < |words|
    requires Overflows(current, words[i], maxWidth, fontSize, width)
    ensures Partial(words, i + 1, runs + [current], [words[i]], maxWidth, fontSize, width)
    ensures JoinEach(runs + [current]) == JoinEach(runs) + [Join(current)]
  {
    FlattenSnoc(runs, current);
    assert words[..i + 1] == words[..i] + [words[i]];
    AppendRun(runs, current, maxWidth, fontSize, width);
    JoinEachSnoc(runs, current);
  }

  /** The next word fits: it is appended to the current line. */
  lemma PartialExtend(words: seq<string>, i: int, runs: seq<seq<string>>, current: seq<string>, maxWidth: real, fontSize: int, width: Measure)
    requires Partial(words, i, runs, current, maxWidth, fontSize, width) && i < |words|
    requires !Overflows(current, words[i], maxWidth, fontSize, width)
    ensures Partial(words, i + 1, runs, current + [words[i]], maxWidth, fontSize, width)
    ensures Join(current + [words[i]]) == Join(current) + " " + words[i]
  {
    ExtendRun(current, words[i], maxWidth, fontSize, width);
    assert words[..i + 1] == words[..i] + [words[i]];
  }

  /** All words read: closing the last line gives the greedy wrap. */
  lemma PartialDone(words: seq<string>, runs: seq<seq<string>>, current: seq<string>, maxWidth: real, fontSize: int, width: Measure)
    requires Partial(words, |words|, runs, current, maxWidth, fontSize, width)
    ensures GreedyWrap(words, runs + [current], maxWidth, fontSize, width)
    ensures JoinEach(runs + [current]) == JoinEach(runs) + [Join(current)]
  {
    FlattenSnoc(runs, current);
    assert words[..|words|] == words;
    AppendRun(runs, current, maxWidth, fontSize, width);
    JoinEachSnoc(runs, current);
  }

  /**
   * A greedy wrap that keeps two or more words on a single line does so
   * only when the whole text fits: an overwide text is broken at least once.
   */
  lemma SingleLineFits(words: seq<string>, runs: seq<seq<string>>, maxWidth: real, fontSize: int, width: Measure)
    requires GreedyWrap(words, runs, maxWidth, fontSize, width)
    requires |words| >= 2 && |runs| == 1
    ensures width(Join(words), fontSize) <= maxWidth
  {
    assert Flatten(runs) == runs[0] + [];
    assert runs[0][..|runs[0]|] == words;
  }

  /**
   * `wrapText(words, maxWidth)` with the font at `fontSize`: start a line
   * with the first word; for each further word, append it when the test
   * line fits and otherwise push the line and start a new one. The ghost
   * `runs` are the words of each line. The result is the greedy wrap; it
   * has between one line and one line per word; its lines joined with
   * spaces are the words joined with spaces; and a text of two or more
   * words that is too wide as a whole gets at least two lines.
   */
  method WrapText(words: seq<string>, maxWidth: real, fontSize: int, width: Measure)
    returns (lines: seq<string>, ghost runs: seq<seq<string>>)
    requires |words| >= 1
    ensures GreedyWrap(words, runs, maxWidth, fontSize, width)
    ensures lines == JoinEach(runs)
    ensures 1 <= |lines| <= |words|
    ensures Join(lines) == Join(words)
    ensures |words| >= 2 && width(Join(words), fontSize) > maxWidth ==> |lines| >= 2
  {
    lines := [];
    runs := [];
    var currentLine := words[0];
    ghost var current := [words[0]];
    assert Partial(words, 1, runs, current, maxWidth, fontSize, width);
    for i := 1 to |words|
      invariant Partial(words, i, runs, current, maxWidth, fontSize, width)
      invariant currentLine == Join(current)
      invariant lines == JoinEach(runs)
    {
      var testLine := currentLine + " " + words[i];
      var testWidth := width(testLine, fontSize);
      if testWidth > maxWidth {
        PartialClose(words, i, runs, current, maxWidth, fontSize, width);
        lines := lines + [currentLine];
        runs := runs + [current];
        currentLine := words[i];
        current := [words[i]];
      } else {
        PartialExtend(words, i, runs, current, maxWidth, fontSize, width);
        currentLine := testLine;
        current := current + [words[i]];
      }
    }
    PartialDone(words, runs, current, maxWidth, fontSize, width);
    lines := lines + [currentLine];
    runs := runs + [current];
    FlattenNonEmpty(runs);
    JoinFlatten(runs);
    if |words| >= 2 && |runs| == 1 {
      SingleLineFits(words, runs, maxWidth, fontSize, width);
    }
  }

  /** Every line of two or more words fits within `maxWidth`. */
  lemma MultiWordLinesFit(words: seq<string>, runs: seq<seq<string>>, maxWidth: real, fontSize: int, width: Measure, k: int)
    requires GreedyWrap(words, runs, maxWidth, fontSize, width)
    requires 0 <= k < |runs| && |runs[k]| >= 2
    ensures width(Join(runs[k]), fontSize) <= maxWidth
  {
    assert runs[k][..|runs[k]|] == runs[k];
  }

  /** The first run of a greedy wrap, and the greedy wrap of the rest. */
  lemma GreedyWrapTail(words: seq<string>, runs: seq<seq<string>>, maxWidth: real, fontSize: int, width: Measure)
    requires GreedyWrap(words, runs, maxWidth, fontSize, width) && |runs| >= 1
    ensures words[..|runs[0]|] == runs[0]
    ensures GreedyWrap(words[|runs[0]|..], runs[1..], maxWidth, fontSize, width)
  {
    assert words == runs[0] + Flatten(runs[1..]);
    assert words[|runs[0]|..] == Flatten(runs[1..]);
    forall k | 0 <= k < |runs| - 2
      ensures Overflows(runs[1..][k], runs[1..][k + 1][0], maxWidth, fontSize, width)
    {
      assert runs[1..][k] == runs[k + 1];
    }
  }

  /** Two greedy wraps of the same words cannot start with runs of different lengths. */
  lemma FirstRunNoLonger(words: seq<string>, r1: seq<seq<string>>, r2: seq<seq<string>>, maxWidth: real, fontSize: int, width: Measure)
    requires GreedyWrap(words, r1, maxWidth, fontSize, width)
    requires GreedyWrap(words, r2, maxWidth, fontSize, width)
    requires |r1| >= 1 && |r2| >= 1
    ensures |r2[0]| <= |r1[0]|
  {
    var a, b := |r1[0]|, |r2[0]|;
    GreedyWrapTail(words, r1, maxWidth, fontSize, width);
    GreedyWrapTail(words, r2, maxWidth, fontSize, width);
    if a < b {
      assert |Flatten(r1[1..])| > 0;
      assert |r1| >= 2;
      assert r1[1] == r1[1..][0];
      assert Flatten(r1[1..]) == r1[1] + Flatten(r1[2..]);
      assert r1[1][0] == words[a];
      assert r2[0][..a + 1] == r1[0] + [words[a]];
      JoinAppend(r1[0], [words[a]]);
      assert false;
    }
  }

  /**
   * The greedy wrap is unique: whatever the measurement, at most one way
   * of breaking the words into lines satisfies GreedyWrap, so WrapText's
   * contract pins down its result.
   */
  lemma {:induction false} GreedyWrapUnique(words: seq<string>, r1: seq<seq<string>>, r2: seq<seq<string>>, maxWidth: real, fontSize: int, width: Measure)
    requires GreedyWrap(words, r1, maxWidth, fontSize, width)
    requires GreedyWrap(words, r2, maxWidth, fontSize, width)
    ensures r1 == r2
    decreases |words|
  {
    FlattenNonEmpty(r1);
    FlattenNonEmpty(r2);
    if |r1| == 0 || |r2| == 0 {
      assert |r1| == 0 && |r2| == 0;
    } else {
      FirstRunNoLonger(words, r1, r2, maxWidth, fontSize, width);
      FirstRunNoLonger(words, r2, r1, maxWidth, fontSize, width);
      GreedyWrapTail(words, r1, maxWidth, fontSize, width);
      GreedyWrapTail(words, r2, maxWidth, fontSize, width);
      var a := |r1[0]|;
      GreedyWrapUnique(words[a..], r1[1..], r2[1..], maxWidth, fontSize, width);
      assert r1 == [r1[0]] + r1[1..];
      assert r2 == [r2[0]] + r2[1..];
    }
  }
}
