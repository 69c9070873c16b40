/**
 * `LpAffineExpression`: a constant plus a term map, updated in place by
 * `addterm` and `addInPlace`, copied by the binary operators, scaled into a
 * fresh expression by `__mul`, and rendered by `toString` and the CPLEX LP
 * encoder.
 */
module Expression {
  import opened Results
  import opened Text
  import opened Constants
  import opened Wrap
  import opened Variable
  import opened Terms
  import opened Format

  /**
   * The operand kinds pulp.php tells apart at run time: `null`, a number, a
   * variable, an expression, or an array of `[variable, coefficient]` pairs.
   */
  datatype Operand = Null | Num(x: real) | Var(v: LpVariable) | Expr(e: LpAffineExpression) | Pairs(ps: seq<Term>)

  class LpAffineExpression {
    var constant: real
    var name: Option<string>
    /** Insertion-ordered, keyed by the variables' identity tokens. */
    var terms: seq<Term>

    /** The term map holds at most one entry per identity token. */
    predicate Valid()
      reads this`terms
    {
      KeysDistinct(terms)
    }

    /**
     * `new LpAffineExpression($e, $constant, $name)`: an expression is copied
     * with its own constant (the given one is ignored), a variable becomes a
     * single unit term with constant 0, a number becomes the constant, and
     * pairs are added one `addterm` at a time.
     */
    constructor (e: Operand, constant: real, name: Option<string>)
      requires e.Expr? ==> e.e.Valid()
      ensures Valid() && this.name == name
      ensures (e.Null? || e.Pairs?) ==> this.constant == constant
      ensures e.Null? ==> terms == []
      ensures e.Expr? ==> this.constant == e.e.constant && terms == e.e.terms
      ensures e.Var? ==> this.constant == 0.0 && terms == [Term(e.v, 1.0)] && IsAtomic() && Atom() == Some(e.v)
      ensures e.Num? ==> this.constant == e.x && terms == [] && IsNumericalConstant()
      ensures e.Pairs? ==> terms == WithTerms([], e.ps, 1.0)
    {
      this.name := name;
      this.constant := constant;
      this.terms := [];
      new;
      match e
      case Null =>
      case Expr(f) =>
        this.constant := f.constant;
        this.terms := f.terms;
      case Var(v) =>
        this.constant := 0.0;
        AddTerm(v, 1.0);
      case Num(x) =>
        this.constant := x;
      case Pairs(ps) =>
        for i := 0 to |ps|
          invariant Valid() && this.name == name && this.constant == constant
          invariant WithTerms(terms, ps[i..], 1.0) == WithTerms([], ps, 1.0)
        {
          WithTermsStep(terms, ps, i, 1.0);
          assert ps[i].coeff * 1.0 == ps[i].coeff;
          AddTerm(ps[i].v, ps[i].coeff);
        }
    }

    /**
     * `addterm($v, $a)`: accumulates into the entry of `v`'s identity (keeping
     * the variable stored there), or appends a new entry; zero sums are kept.
     */
    method AddTerm(v: LpVariable, a: real)
      requires Valid()
      modifies this
      ensures Valid()
      ensures terms == WithTerm(old(terms), v, a)
      ensures constant == old(constant) && name == old(name)
    {
      WithTermKeys(terms, v, a);
      var i := IndexOf(terms, v.id);
      if i >= 0 {
        terms := terms[i := Term(terms[i].v, terms[i].coeff + a)];
      } else {
        terms := terms + [Term(v, a)];
      }
    }

    predicate IsNumericalConstant()
      reads this
    {
      |terms| == 0
    }

    /** A single entry with coefficient within 1e-10 of 1 and a zero constant. */
    predicate IsAtomic()
      reads this
    {
      |terms| == 1 && constant == 0.0 && Abs(terms[0].coeff - 1.0) < 1.0 / 10_000_000_000.0
    }

    /** The variable of the first entry; none when the map is empty. */
    function Atom(): Option<LpVariable>
      reads this
    {
      if terms == [] then None else Some(terms[0].v)
    }

    /** `copy()`: a fresh expression with the same constant, name and entries. */
    method Copy() returns (e: LpAffineExpression)
      requires Valid()
      ensures fresh(e) && e.Valid()
      ensures e.constant == constant && e.name == name && e.terms == terms
    {
      e := new LpAffineExpression(Null, 0.0, None);
      e.constant := constant;
      e.name := name;
      e.terms := terms;
    }

    /** `value()`: the constant plus each value times its coefficient; none once a variable is unassigned. */
    method Value() returns (r: Option<real>)
      ensures r == Eval(constant, terms)
    {
      var s := constant;
      for i := 0 to |terms|
        invariant Assigned(terms[..i]) && s == constant + Dot(terms[..i])
      {
        if terms[i].v.varValue.None? {
          assert terms[i] in terms;
          return None;
        }
        DotAppend(terms[..i], terms[i]);
        assert terms[..i + 1] == terms[..i] + [terms[i]];
        s := s + Weight(terms[i]);
      }
      assert terms[..|terms|] == terms;
      return Some(s);
    }

    /** `valueOrDefault()`: as `value()`, with each variable's `valueOrDefault()`. */
    method ValueOrDefault() returns (r: real)
      ensures r == constant + DotDefault(terms)
      ensures Assigned(terms) ==> Some(r) == Eval(constant, terms)
    {
      var ts := terms;
      r := constant;
      for i := 0 to |ts|
        invariant r == constant + DotDefault(ts[..i])
      {
        DotDefaultPrefix(constant, ts, i, r);
        r := r + ts[i].v.ValueOrDefault() * ts[i].coeff;
      }
      assert ts[..|ts|] == ts;
      if Assigned(terms) {
        DotDefaultAssigned(terms);
      }
    }

    /**
     * `addInPlace($other, $sign)`: a number moves the constant by `sign` times
     * it, a variable is added with coefficient `sign`, an expression adds
     * `sign` times its constant and each of its entries; `null` and arrays
     * change nothing. Adding the receiver to itself reads its entries first.
     */
    method AddInPlace(other: Operand, sign: real)
      requires Valid()
      modifies this
      ensures Valid() && name == old(name)
      ensures (other.Null? || other.Pairs?) ==> constant == old(constant) && terms == old(terms)
      ensures other.Num? ==> constant == old(constant) + other.x * sign && terms == old(terms)
      ensures other.Var? ==> constant == old(constant) && terms == WithTerm(old(terms), other.v, sign)
      ensures other.Expr? ==>
        constant == old(constant) + old(other.e.constant) * sign &&
        terms == WithTerms(old(terms), old(other.e.terms), sign)
    {
      match other
      case Null =>
      case Pairs(_) =>
      case Num(x) =>
        constant := constant + x * sign;
      case Var(v) =>
        AddTerm(v, sign);
      case Expr(e) =>
        var oc, ots := e.constant, e.terms;
        constant := constant + oc * sign;
        for i := 0 to |ots|
          invariant Valid() && name == old(name) && constant == old(constant) + oc * sign
          invariant WithTerms(terms, ots[i..], sign) == WithTerms(old(terms), ots, sign)
        {
          WithTermsStep(terms, ots, i, sign);
          AddTerm(ots[i].v, ots[i].coeff * sign);
        }
    }

    /** `subInPlace($other)`: `addInPlace($other, -1)`. */
    method SubInPlace(other: Operand)
      requires Valid()
      modifies this
      ensures Valid() && name == old(name)
      ensures (other.Null? || other.Pairs?) ==> constant == old(constant) && terms == old(terms)
      ensures other.Num? ==> constant == old(constant) - other.x && terms == old(terms)
      ensures other.Var? ==> constant == old(constant) && terms == WithTerm(old(terms), other.v, -1.0)
      ensures other.Expr? ==>
        constant == old(constant) - old(other.e.constant) &&
        terms == WithTerms(old(terms), old(other.e.terms), -1.0)
    {
      AddInPlace(other, -1.0);
    }

    /** `__add($other)`: `addInPlace` on a copy; the receiver and the operand are unchanged. */
    method Add(other: Operand) returns (r: LpAffineExpression)
      requires Valid()
      ensures fresh(r) && r.Valid() && r.name == name
      ensures (other.Null? || other.Pairs?) ==> r.constant == constant && r.terms == terms
      ensures other.Num? ==> r.constant == constant + other.x && r.terms == terms
      ensures other.Var? ==> r.constant == constant && r.terms == WithTerm(terms, other.v, 1.0)
      ensures other.Expr? ==>
        r.constant == constant + other.e.constant && r.terms == WithTerms(terms, other.e.terms, 1.0)
    {
      r := Copy();
      r.AddInPlace(other, 1.0);
    }

    /** `__sub($other)`: `subInPlace` on a copy; the receiver and the operand are unchanged. */
    method Sub(other: Operand) returns (r: LpAffineExpression)
      requires Valid()
      ensures fresh(r) && r.Valid() && r.name == name
      ensures (other.Null? || other.Pairs?) ==> r.constant == constant && r.terms == terms
      ensures other.Num? ==> r.constant == constant - other.x && r.terms == terms
      ensures other.Var? ==> r.constant == constant && r.terms == WithTerm(terms, other.v, -1.0)
      ensures other.Expr? ==>
        r.constant == constant - other.e.constant && r.terms == WithTerms(terms, other.e.terms, -1.0)
    {
      r := Copy();
      r.SubInPlace(other);
    }

    /**
     * `__mul($k)`: a fresh, unnamed expression with constant and every
     * coefficient multiplied by `k`, same identities in the same order; a
     * non-number is a type error.
     */
    method Mul(k: Operand) returns (r: Result<LpAffineExpression>)
      requires Valid()
      ensures !k.Num? ==> r == Err(TypeError("Cannot multiply LpAffineExpression by non-number"))
      ensures k.Num? ==> (r.Ok? && fresh(r.value) && r.value.Valid() && r.value.name.None? &&
                          r.value.constant == constant * k.x && r.value.terms == Scale(terms, k.x))
    {
      if !k.Num? {
        return Err(TypeError("Cannot multiply LpAffineExpression by non-number"));
      }
      var e := new LpAffineExpression(Null, 0.0, None);
      e.constant := constant * k.x;
      var ts := terms;
      for i := 0 to |ts|
        invariant e.terms == Scale(ts[..i], k.x)
        invariant e.constant == constant * k.x && e.name.None?
      {
        ScalePrefix(ts, i, k.x);
        e.terms := e.terms + [ScaleTerm(ts[i], k.x)];
      }
      assert ts[..|ts|] == ts;
      ScaleCoeff(ts, k.x, 0);
      return Ok(e);
    }

    /**
     * `__truediv($k)`: `__mul(1 / k)`; a non-number is a type error and a zero
     * divisor is PHP's division-by-zero error.
     */
    method TrueDiv(k: Operand) returns (r: Result<LpAffineExpression>)
      requires Valid()
      ensures !k.Num? ==> r == Err(TypeError("Cannot divide LpAffineExpression by non-number"))
      ensures k.Num? && k.x == 0.0 ==> r == Err(DivisionByZero)
      ensures k.Num? && k.x != 0.0 ==> (r.Ok? && fresh(r.value) && r.value.Valid() && r.value.name.None? &&
                                        r.value.constant == constant * (1.0 / k.x) &&
                                        r.value.terms == Scale(terms, 1.0 / k.x))
    {
      if !k.Num? {
        return Err(TypeError("Cannot divide LpAffineExpression by non-number"));
      }
      if k.x == 0.0 {
        return Err(DivisionByZero);
      }
      r := Mul(Num(1.0 / k.x));
    }

    /** `__neg()`: `__mul(-1)`. */
    method Neg() returns (r: LpAffineExpression)
      requires Valid()
      ensures fresh(r) && r.Valid() && r.name.None?
      ensures r.constant == -constant && r.terms == Scale(terms, -1.0)
    {
      var m := Mul(Num(-1.0));
      r := m.value;
    }

    /** `toString($includeConstant, $overrideConstant)`. */
    method ToString(includeConstant: bool, overrideConstant: Option<real>) returns (s: string)
      ensures s == ExprText(terms, constant, includeConstant, overrideConstant)
    {
      var sorted := Sorted(terms);
      s := "";
      for i := 0 to |sorted|
        invariant TermsText(s, sorted[i..]) == TermsText("", sorted)
      {
        var d := sorted[i];
        TermsTextStep(s, sorted, i);
        var sep := "";
        var val := d.coeff;
        if val < 0.0 {
          sep := if s != "" then " - " else "-";
          val := -val;
        } else if s != "" {
          sep := " + ";
        }
        var piece := sep + (if val == 1.0 then "" else Str(val) + "*") + d.v.name;
        assert piece == TermText(s != "", d);
        s := s + piece;
      }
      assert TermsText(s, sorted[|sorted|..]) == s;
      var c := if overrideConstant.Some? then overrideConstant.value else constant;
      assert c == ShownConstant(constant, overrideConstant);
      s := ConstantText(s, c, includeConstant);
    }

    /**
     * `asCplexVariablesOnly($name)`: the entry tokens, sorted by name, packed
     * into lines after `name:`; returns the finished lines' texts and the
     * open line.
     */
    method AsCplexVariablesOnly(name: string) returns (result: seq<string>, line: seq<string>)
      ensures var p := VariablesOnly(name, terms);
        result == LineTexts(p[..|p| - 1]) && line == p[|p| - 1]
    {
      var sorted := Sorted(terms);
      ghost var toks := CplexTokens(sorted, false);
      ghost var p := Pack([name + ":"], toks);
      ghost var done: seq<seq<string>> := [];
      result := [];
      line := [name + ":"];
      var notFirst := false;
      for i := 0 to |sorted|
        invariant notFirst == (i > 0)
        invariant result == LineTexts(done)
        invariant done + Pack(line, toks[i..]) == p
      {
        var d := sorted[i];
        var val := d.coeff;
        var sign;
        if val < 0.0 {
          sign := " -";
          val := -val;
        } else if notFirst {
          sign := " +";
        } else {
          sign := "";
        }
        notFirst := true;
        var term := if val == 1.0 then sign + " " + d.v.name
                    else sign + " " + NumberFormat12(val) + " " + d.v.name;
        assert term == toks[i];
        PackLoopStep(done, line, toks, i, p);
        if |Concat(line)| + |term| > LpCplexLPLineSize {
          LineTextsSnoc(done, line);
          result := result + [Concat(line)];
          done := done + [line];
          line := [term];
        } else {
          line := line + [term];
        }
      }
      assert toks[|sorted|..] == [];
    }

    /**
     * `asCplexLpAffineExpression($name, $includeConstant, $overrideConstant)`:
     * the packed entry tokens, then ` 0` for a term-less expression or the
     * constant token (packed like the others); lines joined and ended by `\n`.
     */
    method AsCplexLpAffineExpression(name: string, includeConstant: bool, overrideConstant: Option<real>)
      returns (s: string)
      ensures s == Render(AffineLines(name, terms, constant, includeConstant, overrideConstant))
    {
      var result, line := AsCplexVariablesOnly(name);
      ghost var p := VariablesOnly(name, terms);
      ghost var front := p[..|p| - 1];
      assert p == front + [line];
      if |terms| == 0 {
        AffineLinesStep(name, terms, constant, includeConstant, overrideConstant, front, line);
        line := line + [" 0"];
      } else {
        var c := if overrideConstant.Some? then overrideConstant.value else constant;
        assert c == ShownConstant(constant, overrideConstant);
        var term := ConstantToken(c, includeConstant);
        AffineLinesStep(name, terms, constant, includeConstant, overrideConstant, front, line);
        if |Concat(line)| + |term| > LpCplexLPLineSize {
          LineTextsSnoc(front, line);
          result := result + [Concat(line)];
          front := front + [line];
          line := [term];
        } else {
          line := line + [term];
        }
      }
      assert AffineLines(name, terms, constant, includeConstant, overrideConstant) == front + [line];
      LineTextsSnoc(front, line);
      result := result + [Concat(line)];
      s := Join(result, "\n") + "\n";
    }
  }

  /**
   * A numerical constant has no entries, hence no atom, and its value is its
   * constant; an atomic expression's atom is its single variable, and with a
   * coefficient of exactly 1 its value is that variable's value.
   */
  lemma ExpressionKinds(e: LpAffineExpression)
    ensures e.IsNumericalConstant() <==> e.Atom().None?
    ensures e.IsNumericalConstant() ==> Eval(e.constant, e.terms) == Some(e.constant)
    ensures e.IsAtomic() ==> !e.IsNumericalConstant() && e.Atom() == Some(e.terms[0].v) && Vars(e.terms) == {e.terms[0].v}
    ensures e.IsAtomic() && e.terms[0].coeff == 1.0 ==> Eval(e.constant, e.terms) == e.terms[0].v.varValue
  {
    if e.IsAtomic() {
      var t := e.terms[0];
      assert e.terms == [t];
      assert t.v in Vars(e.terms);
      if t.v.varValue.Some? {
        assert Dot(e.terms) == Weight(t) + Dot([]);
      } else {
        assert !Assigned(e.terms);
      }
    }
  }

}
