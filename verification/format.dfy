/**
 * The text forms of a term map: the one-line `toString` form (`2*x - 3*y + 5`)
 * and the line-wrapped CPLEX LP form (`name: 2.000000000000 x - 3.000000000000 y`).
 * Both list the entries sorted by variable name.
 */
module Format {
  import opened Results
  import opened Text
  import opened Sorting
  import opened Wrap
  import opened Constants
  import opened Terms
  import opened Variable

  function NameOf(t: Term): string
  {
    t.v.name
  }

  /** `sorted_terms()`: the entries in a stable order by variable name. */
  function Sorted(ts: seq<Term>): (r: seq<Term>)
    ensures |r| == |ts|
  {
    SortBy(ts, NameOf)
  }

  /** The sorted entries are ordered by name and are the same entries. */
  lemma {:induction false} SortedCorrect(ts: seq<Term>)
    ensures SortedBy(Sorted(ts), NameOf)
    ensures multiset(Sorted(ts)) == multiset(ts)
  {
    SortByCorrect(ts, NameOf);
  }

  // ---------------------------------------------------------------------------
  // toString
  // ---------------------------------------------------------------------------

  /**
   * The text one entry adds to `toString`: the sign goes into the separator
   * (`-` first, ` - ` or ` + ` later) and a unit coefficient is omitted.
   */
  function TermText(afterText: bool, t: Term): string
  {
    var sep := if t.coeff < 0.0 then (if afterText then " - " else "-") else if afterText then " + " else "";
    var val := Abs(t.coeff);
    sep + (if val == 1.0 then "" else Str(val) + "*") + t.v.name
  }

  /** The `foreach` of `toString` over the sorted entries, from the text `s` so far. */
  function TermsText(s: string, ts: seq<Term>): string
    decreases |ts|
  {
    if ts == [] then s else TermsText(s + TermText(s != "", ts[0]), ts[1..])
  }

  /** One step of the `foreach` of `toString`, taken at position `i` of `ts`. */
  lemma {:induction false} TermsTextStep(s: string, ts: seq<Term>, i: nat)
    requires i < |ts|
    ensures TermsText(s, ts[i..]) == TermsText(s + TermText(s != "", ts[i]), ts[i + 1..])
  {
    assert ts[i..][0] == ts[i] && ts[i..][1..] == ts[i + 1..];
  }

  /** The constant actually printed: the override when there is one. */
  function ShownConstant(c: real, overrideConstant: Option<real>): real
  {
    if overrideConstant.Some? then overrideConstant.value else c
  }

  /** The constant's part of `toString`, after the entries' text `s`. */
  function ConstantText(s: string, k: real, includeConstant: bool): string
  {
    if includeConstant then
      if s == "" then Str(k)
      else if k < 0.0 then s + " - " + Str(-k)
      else if k > 0.0 then s + " + " + Str(k)
      else s
    else if s == "" then "0"
    else s
  }

  /** `toString($include_constant, $override_constant)`. */
  function ExprText(ts: seq<Term>, c: real, includeConstant: bool, overrideConstant: Option<real>): string
  {
    ConstantText(TermsText("", Sorted(ts)), ShownConstant(c, overrideConstant), includeConstant)
  }

  // ---------------------------------------------------------------------------
  // CPLEX LP form
  // ---------------------------------------------------------------------------

  /**
   * One entry's token in the LP form: ` -` for a negative coefficient, ` +` after
   * the first entry, then the coefficient to 12 decimals and the name, or the
   * name alone for a unit coefficient.
   */
  function CplexToken(t: Term, notFirst: bool): string
  {
    var sign := if t.coeff < 0.0 then " -" else if notFirst then " +" else "";
    var val := Abs(t.coeff);
    if val == 1.0 then sign + " " + t.v.name
    else sign + " " + NumberFormat12(val) + " " + t.v.name
  }

  /** The tokens of the entries `ts`, the first one marked as following others when `notFirst`. */
  function CplexTokens(ts: seq<Term>, notFirst: bool): (r: seq<string>)
    ensures |r| == |ts|
  {
    seq(|ts|, i requires 0 <= i < |ts| => CplexToken(ts[i], notFirst || i > 0))
  }

  /** `asCplexVariablesOnly($name)`: the finished lines followed by the open line. */
  function VariablesOnly(name: string, ts: seq<Term>): seq<seq<string>>
  {
    Pack([name + ":"], CplexTokens(Sorted(ts), false))
  }

  /** The constant token of the LP form of an expression; empty for a zero constant. */
  function ConstantToken(k: real, includeConstant: bool): string
  {
    if includeConstant && k < 0.0 then " - " + Str(-k)
    else if includeConstant && k > 0.0 then " + " + Str(k)
    else ""
  }

  /** The lines of `asCplexLpAffineExpression`; a term-less expression gets ` 0` and no constant. */
  function AffineLines(name: string, ts: seq<Term>, c: real, includeConstant: bool,
                       overrideConstant: Option<real>): seq<seq<string>>
  {
    if ts == [] then [[name + ":", " 0"]]
    else
      var k := ShownConstant(c, overrideConstant);
      Pack([name + ":"], CplexTokens(Sorted(ts), false) + [ConstantToken(k, includeConstant)])
  }

  /**
   * How `asCplexLpAffineExpression` finishes the lines of `asCplexVariablesOnly`
   * (finished lines `front`, open line `line`): ` 0` for a term-less
   * expression, else the constant token, packed like the others.
   */
  lemma {:induction false} AffineLinesStep(name: string, ts: seq<Term>, c: real, includeConstant: bool,
                        overrideConstant: Option<real>, front: seq<seq<string>>, line: seq<string>)
    requires VariablesOnly(name, ts) == front + [line]
    ensures ts == [] ==> front == [] && AffineLines(name, ts, c, includeConstant, overrideConstant) == [line + [" 0"]]
    ensures ts != [] ==>
      var tok := ConstantToken(ShownConstant(c, overrideConstant), includeConstant);
      AffineLines(name, ts, c, includeConstant, overrideConstant) ==
        front + (if |Concat(line)| + |tok| > LpCplexLPLineSize then [line, [tok]] else [line + [tok]])
  {
    var p := front + [line];
    assert p[..|p| - 1] == front;
    if ts == [] {
      assert CplexTokens(Sorted(ts), false) == [];
      assert VariablesOnly(name, ts) == [[name + ":"]];
      assert |front| == 0 && line == [name + ":"];
      assert line + [" 0"] == [name + ":", " 0"];
    } else {
      var tok := ConstantToken(ShownConstant(c, overrideConstant), includeConstant);
      PackAppend([name + ":"], CplexTokens(Sorted(ts), false), [tok]);
      if |Concat(line)| + |tok| > LpCplexLPLineSize {
        assert Pack(line, [tok]) == [line] + Pack([tok], []);
      } else {
        assert Pack(line, [tok]) == Pack(line + [tok], []);
      }
    }
  }

  /** The right-hand-side token of a constraint: ` <= 10`. */
  function RhsToken(sense: int, constant: real): string
    requires IsSense(sense)
  {
    " " + SenseSymbol(sense) + " " + Str(-constant)
  }

  /** The lines of `asCplexLpConstraint`; a term-less constraint gets `0` with no leading space. */
  function ConstraintLines(name: string, ts: seq<Term>, sense: int, constant: real): seq<seq<string>>
    requires IsSense(sense)
  {
    if ts == [] then Pack([name + ":", "0"], [RhsToken(sense, constant)])
    else Pack([name + ":"], CplexTokens(Sorted(ts), false) + [RhsToken(sense, constant)])
  }

  // ---------------------------------------------------------------------------
  // Properties of the encoders
  // ---------------------------------------------------------------------------

  /**
   * The LP form of an expression lists the name, every entry in name order and
   * the constant token, and every line is within the 78-column budget or a
   * single token; only a term-less expression gets the unchecked ` 0`.
   */
  lemma {:induction false} AffineLinesWrapped(name: string, ts: seq<Term>, c: real, includeConstant: bool,
                           overrideConstant: Option<real>)
    ensures var lines := AffineLines(name, ts, c, includeConstant, overrideConstant);
      (ts == [] ==> lines == [[name + ":", " 0"]]) &&
      (ts != [] ==>
        Flatten(lines) == [name + ":"] + CplexTokens(Sorted(ts), false)
                          + [ConstantToken(ShownConstant(c, overrideConstant), includeConstant)] &&
        forall i :: 0 <= i < |lines| ==> WellWrapped(lines[i]))
  {
    if ts != [] {
      var toks := CplexTokens(Sorted(ts), false) + [ConstantToken(ShownConstant(c, overrideConstant), includeConstant)];
      PackKeepsTokens([name + ":"], toks);
      PackWraps([name + ":"], toks);
    }
  }

  /**
   * The LP form of a constraint lists the name, every entry in name order (or
   * `0` when there is none) and the right-hand side; every line is within the
   * budget or a single token, except a term-less constraint's opening line.
   */
  lemma {:induction false} ConstraintLinesWrapped(name: string, ts: seq<Term>, sense: int, constant: real)
    requires IsSense(sense)
    ensures var lines := ConstraintLines(name, ts, sense, constant);
      Flatten(lines) == [name + ":"] + (if ts == [] then ["0"] else CplexTokens(Sorted(ts), false))
                        + [RhsToken(sense, constant)] &&
      (forall i :: 1 <= i < |lines| ==> WellWrapped(lines[i])) &&
      (ts != [] ==> WellWrapped(lines[0]))
  {
    if ts == [] {
      PackKeepsTokens([name + ":", "0"], [RhsToken(sense, constant)]);
      PackWraps([name + ":", "0"], [RhsToken(sense, constant)]);
    } else {
      var toks := CplexTokens(Sorted(ts), false) + [RhsToken(sense, constant)];
      PackKeepsTokens([name + ":"], toks);
      PackWraps([name + ":"], toks);
    }
  }

  /** Sorting two entries swaps them exactly when the second name is smaller. */
  lemma {:induction false} SortedPair(a: Term, b: Term)
    ensures Sorted([a, b]) == if StrLt(b.v.name, a.v.name) then [b, a] else [a, b]
  {
    assert [a, b][..1] == [a];
    assert [a][..0] == [];
    assert SortBy([a], NameOf) == [a];
    assert SortBy([a, b], NameOf) == Insert(b, [a], NameOf);
    assert [a][1..] == [];
  }

  lemma {:induction false} TwoTermsText(a: Term, b: Term)
    requires TermText(false, a) != ""
    ensures TermsText("", [a, b]) == TermText(false, a) + TermText(true, b)
  {
    var s1 := TermText(false, a);
    assert TermsText("", [a, b]) == TermsText("" + s1, [b]);
    assert "" + s1 == s1;
    assert TermsText(s1, [b]) == TermsText(s1 + TermText(true, b), []);
  }

  /** Tokens that fit on the opening line all stay on it. */
  lemma {:induction false} ShortLine(line: seq<string>, toks: seq<string>)
    requires |Concat(line + toks)| <= LpCplexLPLineSize
    ensures Pack(line, toks) == [line + toks]
    decreases |toks|
  {
    if toks != [] {
      assert line + toks == (line + [toks[0]]) + toks[1..];
      ConcatAppend(line + [toks[0]], toks[1..]);
      ConcatAppend(line, [toks[0]]);
      assert Concat([toks[0]]) == toks[0] by {
        assert [toks[0]][..0] == [];
      }
      ShortLine(line + [toks[0]], toks[1..]);
    } else {
      assert line + toks == line;
    }
  }

  /**
   * Renderings from test_pulp.php: terms sorted by name with the sign
   * in the separator, and a coefficient that nets to zero still printed.
   */
  lemma {:induction false} ExprTextExample(x: LpVariable, y: LpVariable)
    requires x.name == "x" && y.name == "y"
    ensures ExprText([Term(y, -3.0), Term(x, 2.0)], 5.0, true, None) == "2*x - 3*y + 5"
  {
    SortedPair(Term(y, -3.0), Term(x, 2.0));
    assert StrLt("x", "y");
    StrOfInt(2);
    StrOfInt(3);
    StrOfInt(5);
    assert TermText(false, Term(x, 2.0)) == "2*x";
    assert TermText(true, Term(y, -3.0)) == " - 3*y";
    TwoTermsText(Term(x, 2.0), Term(y, -3.0));
  }

  /** A coefficient that nets to zero is still printed, as `0*z`. */
  lemma {:induction false} ZeroTermExample(x: LpVariable, z: LpVariable)
    requires x.name == "x" && z.name == "z"
    ensures ExprText([Term(x, 1.0), Term(z, 0.0)], 0.0, true, None) == "x + 0*z"
  {
    SortedPair(Term(x, 1.0), Term(z, 0.0));
    assert !StrLt("z", "x");
    StrOfInt(0);
    assert TermText(false, Term(x, 1.0)) == "x";
    assert TermText(true, Term(z, 0.0)) == " + 0*z";
    TwoTermsText(Term(x, 1.0), Term(z, 0.0));
  }

  /** The LP form of `x - y + 3` named `obj`: unit coefficients print as the bare name. */
  lemma {:induction false} CplexTextExample(x: LpVariable, y: LpVariable)
    requires x.name == "x" && y.name == "y"
    ensures AffineLines("obj", [Term(y, -1.0), Term(x, 1.0)], 3.0, true, None)
      == [["obj:", " x", " - y", " + 3"]]
  {
    SortedPair(Term(y, -1.0), Term(x, 1.0));
    assert StrLt("x", "y");
    StrOfInt(3);
    var ts := CplexTokens([Term(x, 1.0), Term(y, -1.0)], false);
    assert ts[0] == CplexToken(Term(x, 1.0), false) == " x";
    assert ts[1] == CplexToken(Term(y, -1.0), true) == " - y";
    assert ConstantToken(3.0, true) == " + 3";
    var toks := ts + [ConstantToken(3.0, true)];
    assert toks == [" x", " - y", " + 3"];
    assert ["obj:"] + toks == ["obj:", " x", " - y", " + 3"];
    var l1 := ["obj:"];
    assert l1[..0] == [];
    assert Concat(l1) == "obj:";
    var l2 := l1 + [" x"];
    assert l2[..1] == l1;
    assert Concat(l2) == "obj: x";
    var l3 := l2 + [" - y"];
    assert l3[..2] == l2;
    assert Concat(l3) == "obj: x - y";
    var l := l3 + [" + 3"];
    assert l[..3] == l3;
    assert Concat(l) == "obj: x - y + 3";
    assert ["obj:"] + toks == l;
    assert "obj" + ":" == "obj:";
    ShortLine(["obj:"], toks);
  }
}
