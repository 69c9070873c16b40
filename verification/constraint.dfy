/**
 * `LpConstraint`: a private copy of an expression plus its own `constant`
 * (the left-hand side minus the right-hand side) and a sense code. After
 * construction only `constant` is authoritative: `addInPlace` also moves the
 * copied expression's constant, but values, bounds and renderings read
 * `constant` alone. The comparison builders of `LpAffineExpression` live here.
 */
module Constraint {
  import opened Results
  import opened Text
  import opened Constants
  import opened Wrap
  import opened Variable
  import opened Terms
  import opened Format
  import opened Expression
  import opened Sorting

  // ---------------------------------------------------------------------------
  // Senses
  // ---------------------------------------------------------------------------

  /** `$a | $b` on the sense codes: PHP's bitwise or on two's-complement integers. */
  function SenseOr(a: int, b: int): (r: int)
    requires IsSense(a) && IsSense(b)
    ensures IsSense(r)
    ensures b == LpConstraintEQ ==> r == a
  {
    if a == LpConstraintEQ then b
    else if b == LpConstraintEQ then a
    else if a == b then a
    else LpConstraintLE
  }

  /** A sense code as an eight-bit two's-complement pattern: -1 is all ones. */
  function Bits(s: int): bv8
    requires IsSense(s)
  {
    if s == -1 then 0xFF else if s == 0 then 0x00 else 0x01
  }

  /** The table agrees with the bitwise or of the codes' bit patterns. */
  lemma {:induction false} SenseOrIsBitwiseOr(a: int, b: int)
    requires IsSense(a) && IsSense(b)
    ensures Bits(SenseOr(a, b)) == Bits(a) | Bits(b)
  {
    var all: bv8, one: bv8 := 0xFF, 0x01;
    assert all | one == all && one | all == all && all | all == all && one | one == one;
  }

  /**
   * The sign `addInPlace` uses for a constraint operand: the caller's sign,
   * flipped when the two senses have opposite signs.
   */
  function EffectiveSign(mine: int, theirs: int, sign: int): (s: int)
    requires sign == 1 || sign == -1
    ensures s == 1 || s == -1
    ensures s == sign <==> mine * theirs >= 0
  {
    if mine * theirs >= 0 then sign else -sign
  }

  /** The sense after adding a constraint with sense `theirs` and sign `sign`. */
  function CombinedSense(mine: int, theirs: int, sign: int): (r: int)
    requires IsSense(mine) && IsSense(theirs) && (sign == 1 || sign == -1)
    ensures IsSense(r)
  {
    SenseOr(mine, theirs * EffectiveSign(mine, theirs, sign))
  }

  /**
   * How senses combine: an equality operand never changes the receiver's
   * sense, adding a constraint of the same sense keeps it, an equality
   * receiver takes the operand's direction, and subtracting two inequalities
   * of the same sense (GE minus GE included) yields LE.
   */
  lemma {:induction false} CombinedSenseTable(mine: int, theirs: int, sign: int)
    requires IsSense(mine) && IsSense(theirs) && (sign == 1 || sign == -1)
    ensures theirs == LpConstraintEQ ==> CombinedSense(mine, theirs, sign) == mine
    ensures mine == theirs && sign == 1 ==> CombinedSense(mine, theirs, sign) == mine
    ensures mine == LpConstraintEQ ==> CombinedSense(mine, theirs, sign) == theirs * sign
    ensures mine == theirs != LpConstraintEQ && sign == -1 ==> CombinedSense(mine, theirs, sign) == LpConstraintLE
    ensures mine == LpConstraintLE && theirs == LpConstraintGE ==> CombinedSense(mine, theirs, sign) == LpConstraintLE
  {
  }

  // ---------------------------------------------------------------------------
  // Texts
  // ---------------------------------------------------------------------------

  /** `__toString` of a constraint: the entries without constant, the relation, and `-constant`. */
  function ConstraintText(ts: seq<Term>, sense: int, constant: real): string
    requires IsSense(sense)
  {
    ExprText(ts, 0.0, false, None) + " " + SenseSymbol(sense) + " " + Str(-constant)
  }

  /** The operand of a constraint's `addInPlace`: another constraint or any expression operand. */
  datatype Addend = Con(c: LpConstraint) | Plain(o: Operand)

  class LpConstraint {
    /** The private copy of the left-hand side. */
    var expr: LpAffineExpression
    /** Left-hand side minus right-hand side; the only constant that is read. */
    var constant: real
    var sense: int
    var name: Option<string>
    var modified: bool

    predicate Valid()
      reads this`sense, this`expr, expr
    {
      IsSense(sense) && expr.Valid()
    }

    /**
     * `new LpConstraint($e, $sense, $name, $rhs)`: an expression is copied, any
     * other operand becomes a new expression; `constant` starts as that
     * expression's constant, minus `rhs` when one is given.
     */
    constructor (e: Operand, sense: int, name: Option<string>, rhs: Option<real>)
      requires IsSense(sense)
      requires e.Expr? ==> e.e.Valid()
      ensures Valid() && fresh(expr)
      ensures this.sense == sense && this.name == name && modified
      ensures constant == expr.constant - (if rhs.Some? then rhs.value else 0.0)
      ensures e.Expr? ==> expr.terms == e.e.terms && expr.constant == e.e.constant && expr.name == e.e.name
      ensures e.Var? ==> expr.terms == [Term(e.v, 1.0)] && expr.constant == 0.0
      ensures e.Num? ==> expr.terms == [] && expr.constant == e.x
      ensures e.Null? ==> expr.terms == [] && expr.constant == 0.0
      ensures e.Pairs? ==> expr.terms == WithTerms([], e.ps, 1.0) && expr.constant == 0.0
    {
      var x: LpAffineExpression;
      if e.Expr? {
        x := e.e.Copy();
      } else {
        x := new LpAffineExpression(e, 0.0, None);
      }
      var k := x.constant;
      if rhs.Some? {
        k := k - rhs.value;
      }
      expr := x;
      constant := k;
      this.name := name;
      this.sense := sense;
      modified := true;
    }

    /** `getLb()`: `-constant` for GE and EQ, none otherwise. */
    function GetLb(): (r: Option<real>)
      reads this
      ensures r.Some? <==> sense == LpConstraintGE || sense == LpConstraintEQ
      ensures r.Some? ==> r.value == -constant
    {
      if sense == LpConstraintGE || sense == LpConstraintEQ then Some(-constant) else None
    }

    /** `getUb()`: `-constant` for LE and EQ, none otherwise. */
    function GetUb(): (r: Option<real>)
      reads this
      ensures r.Some? <==> sense == LpConstraintLE || sense == LpConstraintEQ
      ensures r.Some? ==> r.value == -constant
    {
      if sense == LpConstraintLE || sense == LpConstraintEQ then Some(-constant) else None
    }

    /**
     * A constraint has both bounds exactly when it is an equality, and then
     * they coincide; an inequality has exactly one.
     */
    lemma {:induction false} BoundsOfSense()
      requires Valid()
      ensures GetLb().Some? && GetUb().Some? <==> sense == LpConstraintEQ
      ensures sense == LpConstraintEQ ==> GetLb() == GetUb()
      ensures GetLb().Some? || GetUb().Some?
    {
    }

    /** `addterm($v, $a)`: delegated to the expression copy. */
    method AddTerm(v: LpVariable, a: real)
      requires Valid()
      modifies expr
      ensures Valid()
      ensures expr.terms == WithTerm(old(expr.terms), v, a) && expr.constant == old(expr.constant)
    {
      expr.AddTerm(v, a);
    }

    /**
     * `copy()`: a constraint over a copy of the expression with the right-hand
     * side `-constant + expr.constant`, which restores the same `constant`.
     */
    method Copy() returns (c: LpConstraint)
      requires Valid()
      ensures fresh(c) && fresh(c.expr) && c.Valid()
      ensures c.constant == constant && c.sense == sense && c.name == name
      ensures c.expr.terms == expr.terms && c.expr.constant == expr.constant
    {
      var x := expr.Copy();
      c := new LpConstraint(Expr(x), sense, name, Some(-constant + expr.constant));
    }

    /**
     * `addInPlace($other, $sign)`: a constraint operand is added with the
     * effective sign (its constant to `constant`, its expression to the copy,
     * its sense or-ed in); a number moves `constant` only; an expression moves
     * `constant` and is added to the copy; a variable is added to the copy;
     * anything else changes nothing.
     */
    method AddInPlace(other: Addend, sign: int)
      requires Valid() && (sign == 1 || sign == -1)
      requires other.Con? ==> other.c.Valid()
      modifies this, expr
      ensures Valid() && expr == old(expr) && name == old(name) && modified == old(modified)
      ensures other.Con? ==>
        var s := EffectiveSign(old(sense), old(other.c.sense), sign);
        && constant == old(constant) + old(other.c.constant) * s as real
        && sense == CombinedSense(old(sense), old(other.c.sense), sign)
        && expr.terms == WithTerms(old(expr.terms), old(other.c.expr.terms), s as real)
        && expr.constant == old(expr.constant) + old(other.c.expr.constant) * s as real
      ensures other.Plain? ==> sense == old(sense)
      ensures other.Plain? && other.o.Num? ==>
        constant == old(constant) + other.o.x * sign as real
        && expr.terms == old(expr.terms) && expr.constant == old(expr.constant)
      ensures other.Plain? && other.o.Expr? ==>
        constant == old(constant) + old(other.o.e.constant) * sign as real
        && expr.terms == WithTerms(old(expr.terms), old(other.o.e.terms), sign as real)
        && expr.constant == old(expr.constant) + old(other.o.e.constant) * sign as real
      ensures other.Plain? && other.o.Var? ==>
        constant == old(constant)
        && expr.terms == WithTerm(old(expr.terms), other.o.v, sign as real)
        && expr.constant == old(expr.constant)
      ensures other.Plain? && (other.o.Null? || other.o.Pairs?) ==>
        constant == old(constant) && expr.terms == old(expr.terms) && expr.constant == old(expr.constant)
    {
      match other
      case Con(c) =>
        AddConstraintOperand(c, sign);
      case Plain(o) =>
        match o
        case Num(x) =>
          constant := constant + x * sign as real;
        case Expr(e) =>
          constant := constant + e.constant * sign as real;
          expr.AddInPlace(o, sign as real);
        case Var(_) =>
          expr.AddInPlace(o, sign as real);
        case Null =>
        case Pairs(_) =>
    }

    /** The constraint case of `addInPlace`. */
    method AddConstraintOperand(c: LpConstraint, sign: int)
      requires Valid() && c.Valid() && (sign == 1 || sign == -1)
      modifies this, expr
      ensures Valid() && expr == old(expr) && name == old(name) && modified == old(modified)
      ensures
        var s := EffectiveSign(old(sense), old(c.sense), sign);
        && constant == old(constant) + old(c.constant) * s as real
        && sense == CombinedSense(old(sense), old(c.sense), sign)
        && expr.terms == WithTerms(old(expr.terms), old(c.expr.terms), s as real)
        && expr.constant == old(expr.constant) + old(c.expr.constant) * s as real
    {
      var s := EffectiveSign(sense, c.sense, sign);
      var theirs := c.sense;
      constant := constant + c.constant * s as real;
      expr.AddInPlace(Expr(c.expr), s as real);
      sense := SenseOr(sense, theirs * s);
    }

    /** `subInPlace($other)`: `addInPlace($other, -1)`. */
    method SubInPlace(other: Addend)
      requires Valid()
      requires other.Con? ==> other.c.Valid()
      modifies this, expr
      ensures Valid() && expr == old(expr) && name == old(name) && modified == old(modified)
      ensures other.Con? ==>
        var s := EffectiveSign(old(sense), old(other.c.sense), -1);
        && constant == old(constant) + old(other.c.constant) * s as real
        && sense == CombinedSense(old(sense), old(other.c.sense), -1)
        && expr.terms == WithTerms(old(expr.terms), old(other.c.expr.terms), s as real)
        && expr.constant == old(expr.constant) + old(other.c.expr.constant) * s as real
      ensures other.Plain? ==> sense == old(sense)
      ensures other.Plain? && other.o.Num? ==>
        constant == old(constant) - other.o.x
        && expr.terms == old(expr.terms) && expr.constant == old(expr.constant)
      ensures other.Plain? && other.o.Expr? ==>
        constant == old(constant) - old(other.o.e.constant)
        && expr.terms == WithTerms(old(expr.terms), old(other.o.e.terms), -1.0)
        && expr.constant == old(expr.constant) - old(other.o.e.constant)
      ensures other.Plain? && other.o.Var? ==>
        constant == old(constant)
        && expr.terms == WithTerm(old(expr.terms), other.o.v, -1.0)
        && expr.constant == old(expr.constant)
      ensures other.Plain? && (other.o.Null? || other.o.Pairs?) ==>
        constant == old(constant) && expr.terms == old(expr.terms) && expr.constant == old(expr.constant)
    {
      AddInPlace(other, -1);
    }

    /** `changeRHS($rhs)`: the right-hand side becomes `rhs`; sense and expression stay. */
    method ChangeRHS(rhs: real)
      modifies this
      ensures constant == -rhs && modified
      ensures sense == old(sense) && expr == old(expr) && name == old(name)
    {
      constant := -rhs;
      modified := true;
    }

    /**
     * `value()`: `constant` plus each value times its coefficient; none once
     * a variable is unassigned. The expression copy's own constant is not read.
     */
    method Value() returns (r: Option<real>)
      ensures r == Eval(constant, expr.terms)
    {
      var ts := expr.terms;
      var s := constant;
      for i := 0 to |ts|
        invariant Assigned(ts[..i]) && s == constant + Dot(ts[..i])
      {
        if ts[i].v.varValue.None? {
          assert ts[i] in ts;
          return None;
        }
        DotAppend(ts[..i], ts[i]);
        assert ts[..i + 1] == ts[..i] + [ts[i]];
        s := s + Weight(ts[i]);
      }
      assert ts[..|ts|] == ts;
      return Some(s);
    }

    /**
     * `valid($eps)`: the value is known and, within `eps`, zero for EQ, at most
     * zero for LE and at least zero for GE.
     */
    method IsValid(eps: real) returns (b: bool)
      requires Valid()
      ensures b <==> (Eval(constant, expr.terms).Some? &&
        var x := Eval(constant, expr.terms).value;
        && (sense == LpConstraintEQ ==> -eps <= x <= eps)
        && (sense == LpConstraintLE ==> x <= eps)
        && (sense == LpConstraintGE ==> x >= -eps))
    {
      var val := Value();
      if val.None? {
        return false;
      }
      if sense == LpConstraintEQ {
        return Abs(val.value) <= eps;
      }
      return val.value * sense as real >= -eps;
    }

    /** `__toString()`: e.g. `x + y <= 10`. */
    method ToString() returns (s: string)
      requires Valid()
      ensures s == ConstraintText(expr.terms, sense, constant)
    {
      s := expr.ToString(false, Some(constant));
      s := s + " " + SenseSymbol(sense) + " " + Str(-constant);
    }

    /**
     * `asCplexLpConstraint($name)`: the packed entry tokens (`0` when there are
     * none), then the relation and right-hand side, packed like the others.
     */
    method AsCplexLpConstraint(name: string) returns (s: string)
      requires Valid()
      ensures s == Render(ConstraintLines(name, expr.terms, sense, constant))
    {
      var result, line := expr.AsCplexVariablesOnly(name);
      ghost var p := VariablesOnly(name, expr.terms);
      ghost var front := p[..|p| - 1];
      assert p == front + [line];
      ConstraintLinesStep(name, expr.terms, sense, constant, front, line);
      if |expr.terms| == 0 {
        line := line + ["0"];
      }
      var term := RhsToken(sense, constant);
      if |Concat(line)| + |term| > LpCplexLPLineSize {
        LineTextsSnoc(front, line);
        result := result + [Concat(line)];
        front := front + [line];
        line := [term];
      } else {
        line := line + [term];
      }
      assert ConstraintLines(name, expr.terms, sense, constant) == front + [line];
      LineTextsSnoc(front, line);
      result := result + [Concat(line)];
      s := Join(result, "\n") + "\n";
    }

    /** `asCplexLpAffineExpression($name, $includeConstant)`: the expression's form with `constant` shown. */
    method AsCplexLpAffineExpression(name: string, includeConstant: bool) returns (s: string)
      ensures s == Render(AffineLines(name, expr.terms, constant, includeConstant, None))
    {
      s := expr.AsCplexLpAffineExpression(name, includeConstant, Some(constant));
    }
  }

  /**
   * How `asCplexLpConstraint` finishes the lines of `asCplexVariablesOnly`
   * (finished lines `front`, open line `line`, with `0` already appended when
   * there are no entries): the right-hand-side token is packed like the others.
   */
  lemma {:induction false} ConstraintLinesStep(name: string, ts: seq<Term>, sense: int, constant: real,
                                               front: seq<seq<string>>, open: seq<string>)
    requires IsSense(sense)
    requires VariablesOnly(name, ts) == front + [open]
    ensures var tok := RhsToken(sense, constant);
      var line := if ts == [] then open + ["0"] else open;
      ConstraintLines(name, ts, sense, constant) ==
        front + (if |Concat(line)| + |tok| > LpCplexLPLineSize then [line, [tok]] else [line + [tok]])
  {
    var tok := RhsToken(sense, constant);
    var line := if ts == [] then open + ["0"] else open;
    var p := VariablesOnly(name, ts);
    if ts == [] {
      assert CplexTokens(Sorted(ts), false) == [];
      assert p == [[name + ":"]];
      assert |p| == |front| + 1 && p[|p| - 1] == open;
      assert |front| == 0 && open == [name + ":"];
      assert line == [name + ":", "0"];
    } else {
      assert p[..|p| - 1] == front;
      PackAppend([name + ":"], CplexTokens(Sorted(ts), false), [tok]);
    }
    if |Concat(line)| + |tok| > LpCplexLPLineSize {
      assert Pack(line, [tok]) == [line] + Pack([tok], []);
    } else {
      assert Pack(line, [tok]) == Pack(line + [tok], []);
    }
  }

  // ---------------------------------------------------------------------------
  // Comparison builders (__le, __ge, __eq)
  // ---------------------------------------------------------------------------

  /**
   * `$e <op> $other`: against a number the constraint keeps `e`'s entries and
   * gets `constant = e.constant - other`; otherwise it holds `e - other` (a
   * variable is first wrapped in an expression) with right-hand side 0. `e`
   * itself is left unchanged.
   */
  method Compare(e: LpAffineExpression, other: Operand, sense: int) returns (c: LpConstraint)
    requires IsSense(sense) && e.Valid()
    ensures fresh(c) && fresh(c.expr) && c.Valid() && c.sense == sense && c.name.None?
    ensures other.Num? ==> c.constant == e.constant - other.x && c.expr.terms == e.terms
    ensures other.Var? ==> c.constant == e.constant && c.expr.terms == WithTerms(e.terms, [Term(other.v, 1.0)], -1.0)
    ensures other.Expr? ==> c.constant == e.constant - other.e.constant && c.expr.terms == WithTerms(e.terms, other.e.terms, -1.0)
    ensures other.Null? || other.Pairs? ==> c.constant == e.constant && c.expr.terms == e.terms
  {
    if other.Num? {
      c := new LpConstraint(Expr(e), sense, None, Some(other.x));
      return;
    }
    var diff := e.Copy();
    if other.Var? {
      var w := new LpAffineExpression(other, 0.0, None);
      diff.SubInPlace(Expr(w));
    } else {
      diff.SubInPlace(other);
    }
    c := new LpConstraint(Expr(diff), sense, None, None);
  }

  /** `__le($other)`. */
  method Le(e: LpAffineExpression, other: Operand) returns (c: LpConstraint)
    requires e.Valid()
    ensures fresh(c) && fresh(c.expr) && c.Valid() && c.sense == LpConstraintLE && c.name.None?
    ensures other.Num? ==>
      c.constant == e.constant - other.x && c.expr.terms == e.terms && c.GetUb() == Some(other.x - e.constant) && c.GetLb().None?
    ensures other.Var? ==> c.constant == e.constant && c.expr.terms == WithTerms(e.terms, [Term(other.v, 1.0)], -1.0)
    ensures other.Expr? ==> c.constant == e.constant - other.e.constant && c.expr.terms == WithTerms(e.terms, other.e.terms, -1.0)
    ensures other.Null? || other.Pairs? ==> c.constant == e.constant && c.expr.terms == e.terms
  {
    c := Compare(e, other, LpConstraintLE);
  }

  /** `__ge($other)`. */
  method Ge(e: LpAffineExpression, other: Operand) returns (c: LpConstraint)
    requires e.Valid()
    ensures fresh(c) && fresh(c.expr) && c.Valid() && c.sense == LpConstraintGE && c.name.None?
    ensures other.Num? ==>
      c.constant == e.constant - other.x && c.expr.terms == e.terms && c.GetLb() == Some(other.x - e.constant) && c.GetUb().None?
    ensures other.Var? ==> c.constant == e.constant && c.expr.terms == WithTerms(e.terms, [Term(other.v, 1.0)], -1.0)
    ensures other.Expr? ==> c.constant == e.constant - other.e.constant && c.expr.terms == WithTerms(e.terms, other.e.terms, -1.0)
    ensures other.Null? || other.Pairs? ==> c.constant == e.constant && c.expr.terms == e.terms
  {
    c := Compare(e, other, LpConstraintGE);
  }

  /** `__eq($other)`. */
  method Eq(e: LpAffineExpression, other: Operand) returns (c: LpConstraint)
    requires e.Valid()
    ensures fresh(c) && fresh(c.expr) && c.Valid() && c.sense == LpConstraintEQ && c.name.None?
    ensures other.Num? ==>
      c.constant == e.constant - other.x && c.expr.terms == e.terms && c.GetLb() == c.GetUb() == Some(other.x - e.constant)
    ensures other.Var? ==> c.constant == e.constant && c.expr.terms == WithTerms(e.terms, [Term(other.v, 1.0)], -1.0)
    ensures other.Expr? ==> c.constant == e.constant - other.e.constant && c.expr.terms == WithTerms(e.terms, other.e.terms, -1.0)
    ensures other.Null? || other.Pairs? ==> c.constant == e.constant && c.expr.terms == e.terms
  {
    c := Compare(e, other, LpConstraintEQ);
  }

  // ---------------------------------------------------------------------------
  // Properties
  // ---------------------------------------------------------------------------

  /** `x + y <= 10` prints as written. */
  lemma {:induction false} ConstraintTextExample(x: LpVariable, y: LpVariable)
    requires x.name == "x" && y.name == "y"
    ensures ConstraintText([Term(x, 1.0), Term(y, 1.0)], LpConstraintLE, -10.0) == "x + y <= 10"
  {
    var ts := [Term(x, 1.0), Term(y, 1.0)];
    assert ExprText(ts, 0.0, false, None) == "x + y" by {
      SortedPair(Term(x, 1.0), Term(y, 1.0));
      assert !StrLt("y", "x");
      assert TermText(false, Term(x, 1.0)) == "x";
      assert TermText(true, Term(y, 1.0)) == " + y";
      TwoTermsText(Term(x, 1.0), Term(y, 1.0));
    }
    assert Str(-(-10.0)) == "10" by {
      assert -(-10.0) == 10 as real;
      StrOfInt(10);
    }
  }
}
