/**
 * Words of a label: JavaScript's `text.split(' ')` and the inverse that
 * glues words back together with single spaces.
 */
module Words {

  /** A word as `split(' ')` yields it: it holds no space (it may be empty). */
  predicate IsWord(w: string)
  {
    ' ' !in w
  }

  /**
   * `s.split(' ')`: the pieces between single spaces, empty pieces
   * included; even the empty string yields one (empty) piece.
   */
  function Split(s: string): (words: seq<string>)
    ensures |words| >= 1
    ensures forall w <- words :: IsWord(w)
    ensures |words| == 1 <==> ' ' !in s
  {
    if |s| == 0 then [""]
    else
      var rest := Split(s[1..]);
      if s[0] == ' ' then [""] + rest
      else
        assert rest[0] in rest && forall w <- rest[1..] :: w in rest;
        [[s[0]] + rest[0]] + rest[1..]
  }

  /** `words.join(' ')`. */
  function Join(words: seq<string>): string
  {
    if |words| == 0 then ""
    else if |words| == 1 then words[0]
    else words[0] + " " + Join(words[1..])
  }

  /** Splitting a label and joining the pieces gives back the label. */
  lemma {:induction false} JoinSplit(s: string)
    ensures Join(Split(s)) == s
  {
    if |s| > 0 {
      var rest := Split(s[1..]);
      JoinSplit(s[1..]);
      if s[0] != ' ' {
        if |rest| == 1 {
          assert Split(s) == [[s[0]] + rest[0]];
        } else {
          assert Split(s)[1..] == rest[1..];
          assert s == [s[0]] + s[1..];
        }
      }
    }
  }

  /** Joining words that hold no space and splitting again gives back the words. */
  lemma {:induction false} SplitJoin(words: seq<string>)
    requires |words| >= 1
    requires forall w <- words :: IsWord(w)
    ensures Split(Join(words)) == words
    decreases |words|, |words[0]|
  {
    var w := words[0];
    assert w in words;
    if |words| == 1 {
      SplitWord(w);
    } else if |w| == 0 {
      var tail := Join(words[1..]);
      assert Join(words) == [' '] + tail;
      assert Join(words)[1..] == tail;
      SplitJoin(words[1..]);
      assert [""] + words[1..] == words;
    } else {
      var shorter := [w[1..]] + words[1..];
      assert shorter[1..] == words[1..];
      assert Join(words) == [w[0]] + Join(shorter);
      assert Join(words)[1..] == Join(shorter);
      assert shorter[0] in shorter && forall v <- shorter[1..] :: v in words;
      SplitJoin(shorter);
      assert [w[0]] + w[1..] == w;
      assert [[w[0]] + w[1..]] + words[1..] == words;
    }
  }

  /** A single word splits into itself. */
  lemma {:induction false} SplitWord(w: string)
    requires IsWord(w)
    ensures Split(w) == [w]
  {
    if |w| > 0 {
      SplitWord(w[1..]);
      assert [w[0]] + w[1..] == w;
    }
  }

  /** Joining two non-empty runs of words puts one space between them. */
  lemma {:induction false} JoinAppend(a: seq<string>, b: seq<string>)
    requires |a| >= 1 && |b| >= 1
    ensures Join(a + b) == Join(a) + " " + Join(b)
    decreases |a|
  {
    if |a| == 1 {
      assert (a + b)[1..] == b;
    } else {
      assert (a + b)[1..] == a[1..] + b;
      JoinAppend(a[1..], b);
    }
  }

  /** The joined words contain a space exactly when there are two or more of them. */
  lemma {:induction false} JoinHasSpace(words: seq<string>)
    requires |words| >= 1
    requires forall w <- words :: IsWord(w)
    ensures ' ' in Join(words) <==> |words| >= 2
  {
    assert words[0] in words;
    if |words| >= 2 {
      assert Join(words)[|words[0]|] == ' ';
    }
  }

  /** The runs of words laid end to end. */
  function Flatten(groups: seq<seq<string>>): (words: seq<string>)
  {
    if |groups| == 0 then [] else groups[0] + Flatten(groups[1..])
  }

  /** Each run joined on its own. */
  function JoinEach(groups: seq<seq<string>>): (lines: seq<string>)
    ensures |lines| == |groups|
    ensures forall i :: 0 <= i < |groups| ==> lines[i] == Join(groups[i])
  {
    if |groups| == 0 then [] else [Join(groups[0])] + JoinEach(groups[1..])
  }

  /** Joining the joined runs is joining all their words. */
  lemma {:induction false} JoinFlatten(groups: seq<seq<string>>)
    requires forall g <- groups :: |g| >= 1
    ensures Join(JoinEach(groups)) == Join(Flatten(groups))
  {
    if |groups| > 1 {
      JoinFlatten(groups[1..]);
      assert JoinEach(groups)[1..] == JoinEach(groups[1..]);
      FlattenNonEmpty(groups[1..]);
      JoinAppend(groups[0], Flatten(groups[1..]));
    } else if |groups| == 1 {
      assert Flatten(groups) == groups[0] + [];
      assert groups[0] + [] == groups[0];
    }
  }

  /** Runs of at least one word flatten to at least as many words as there are runs. */
  lemma {:induction false} FlattenNonEmpty(groups: seq<seq<string>>)
    requires forall g <- groups :: |g| >= 1
    ensures |Flatten(groups)| >= |groups|
  {
    if |groups| > 0 {
      FlattenNonEmpty(groups[1..]);
    }
  }
}
