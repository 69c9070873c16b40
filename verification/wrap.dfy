/**
 * The greedy line packing of the CPLEX LP encoder: tokens are appended to the
 * open line while the line's text stays within `LpCplexLPLineSize` characters;
 * a token that does not fit flushes the line and opens a new one.
 */
module Wrap {
  import opened Text
  import opened Constants

  /** Packs `toks` after the open line `line`; the last element is the line left open. */
  function Pack(line: seq<string>, toks: seq<string>): (lines: seq<seq<string>>)
    ensures |lines| >= 1
    decreases |toks|
  {
    if toks == [] then [line]
    else if |Concat(line)| + |toks[0]| > LpCplexLPLineSize then [line] + Pack([toks[0]], toks[1..])
    else Pack(line + [toks[0]], toks[1..])
  }

  /** One step of packing, taken at position `i` of `toks`. */
  lemma {:induction false} PackStep(line: seq<string>, toks: seq<string>, i: nat)
    requires i < |toks|
    ensures Pack(line, toks[i..]) ==
      if |Concat(line)| + |toks[i]| > LpCplexLPLineSize then [line] + Pack([toks[i]], toks[i + 1..])
      else Pack(line + [toks[i]], toks[i + 1..])
  {
    assert toks[i..][0] == toks[i] && toks[i..][1..] == toks[i + 1..];
  }

  /**
   * One iteration of the encoders' packing loop: `done` are the finished lines,
   * `line` the open one, and the tokens from `i` on are still to be placed.
   */
  lemma {:induction false} PackLoopStep(done: seq<seq<string>>, line: seq<string>, toks: seq<string>, i: nat, p: seq<seq<string>>)
    requires i < |toks| && done + Pack(line, toks[i..]) == p
    ensures |Concat(line)| + |toks[i]| > LpCplexLPLineSize ==> (done + [line]) + Pack([toks[i]], toks[i + 1..]) == p
    ensures |Concat(line)| + |toks[i]| <= LpCplexLPLineSize ==> done + Pack(line + [toks[i]], toks[i + 1..]) == p
  {
    PackStep(line, toks, i);
  }

  /** A line within the column budget, or a single token that is longer on its own. */
  predicate WellWrapped(line: seq<string>)
  {
    |line| == 1 || |Concat(line)| <= LpCplexLPLineSize
  }

  function Flatten(lines: seq<seq<string>>): seq<string>
  {
    if lines == [] then [] else lines[0] + Flatten(lines[1..])
  }

  /** The text of each line: `implode("", $line)`. */
  function LineTexts(lines: seq<seq<string>>): seq<string>
  {
    seq(|lines|, i requires 0 <= i < |lines| => Concat(lines[i]))
  }

  lemma {:induction false} LineTextsSnoc(a: seq<seq<string>>, line: seq<string>)
    ensures LineTexts(a + [line]) == LineTexts(a) + [Concat(line)]
  {
    assert forall i :: 0 <= i <= |a| ==> LineTexts(a + [line])[i] == (LineTexts(a) + [Concat(line)])[i];
  }

  /** `implode("\n", $result) . "\n"`. */
  function Render(lines: seq<seq<string>>): string
  {
    Join(LineTexts(lines), "\n") + "\n"
  }

  /** Packing neither drops nor reorders tokens. */
  lemma {:induction false} PackKeepsTokens(line: seq<string>, toks: seq<string>)
    ensures Flatten(Pack(line, toks)) == line + toks
    decreases |toks|
  {
    if toks == [] {
      assert Flatten([line]) == line + Flatten([]);
    } else if |Concat(line)| + |toks[0]| > LpCplexLPLineSize {
      PackKeepsTokens([toks[0]], toks[1..]);
      var p := [line] + Pack([toks[0]], toks[1..]);
      assert p[1..] == Pack([toks[0]], toks[1..]);
      assert toks == [toks[0]] + toks[1..];
    } else {
      PackKeepsTokens(line + [toks[0]], toks[1..]);
      assert toks == [toks[0]] + toks[1..];
    }
  }

  /**
   * Every line after the first is within the budget or a single token; the first
   * line is the opening line unchanged or within the budget.
   */
  lemma {:induction false} PackWraps(line: seq<string>, toks: seq<string>)
    ensures Pack(line, toks)[0] == line || |Concat(Pack(line, toks)[0])| <= LpCplexLPLineSize
    ensures forall i :: 1 <= i < |Pack(line, toks)| ==> WellWrapped(Pack(line, toks)[i])
    decreases |toks|
  {
    if toks == [] {
    } else if |Concat(line)| + |toks[0]| > LpCplexLPLineSize {
      PackWraps([toks[0]], toks[1..]);
      var q := Pack([toks[0]], toks[1..]);
      assert WellWrapped(q[0]);
      assert Pack(line, toks) == [line] + q;
    } else {
      var l2 := line + [toks[0]];
      assert l2[..|l2| - 1] == line;
      assert |Concat(l2)| <= LpCplexLPLineSize;
      PackWraps(l2, toks[1..]);
    }
  }

  /**
   * Packing is greedy: every line is non-empty, keeps the opening line as its
   * prefix, and a line was closed only because the next line's first token
   * would have pushed it past the budget.
   */
  lemma {:induction false} PackIsGreedy(line: seq<string>, toks: seq<string>)
    requires line != []
    ensures |Pack(line, toks)[0]| >= |line| && Pack(line, toks)[0][..|line|] == line
    ensures forall i :: 0 <= i < |Pack(line, toks)| ==> Pack(line, toks)[i] != []
    ensures forall i :: 0 <= i < |Pack(line, toks)| - 1 ==>
      |Concat(Pack(line, toks)[i])| + |Pack(line, toks)[i + 1][0]| > LpCplexLPLineSize
    decreases |toks|
  {
    if toks == [] {
    } else if |Concat(line)| + |toks[0]| > LpCplexLPLineSize {
      PackIsGreedy([toks[0]], toks[1..]);
      var q := Pack([toks[0]], toks[1..]);
      assert Pack(line, toks) == [line] + q;
      assert q[0][0] == toks[0];
    } else {
      var l2 := line + [toks[0]];
      PackIsGreedy(l2, toks[1..]);
      var p := Pack(l2, toks[1..]);
      assert p[0][..|line|] == p[0][..|l2|][..|line|];
    }
  }

  /**
   * Packing can be resumed: packing `a + b` is packing `a`, then packing `b`
   * after the line that `a` left open.
   */
  lemma {:induction false} PackAppend(line: seq<string>, a: seq<string>, b: seq<string>)
    ensures var p := Pack(line, a);
      Pack(line, a + b) == p[..|p| - 1] + Pack(p[|p| - 1], b)
    decreases |a|
  {
    if a == [] {
      assert a + b == b;
    } else {
      assert (a + b)[0] == a[0] && (a + b)[1..] == a[1..] + b;
      if |Concat(line)| + |a[0]| > LpCplexLPLineSize {
        PackAppend([a[0]], a[1..], b);
        var q := Pack([a[0]], a[1..]);
        assert Pack(line, a) == [line] + q;
        assert ([line] + q)[..|q|] == [line] + q[..|q| - 1];
      } else {
        PackAppend(line + [a[0]], a[1..], b);
      }
    }
  }
}
