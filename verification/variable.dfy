/**
 * Decision variables (`LpVariable`): a named, bounded, typed unknown whose
 * bounds and assigned value are updated in place and shared by every
 * expression that refers to it.
 */
module Variable {
  import opened Results
  import opened Constants
  import opened Text

  /**
   * PHP's loose `$bound == $x` between an optional bound and a number: `null`
   * is equal to 0 and to nothing else.
   */
  function LooseEq(bound: Option<real>, x: real): bool
  {
    match bound
    case None => x == 0.0
    case Some(b) => b == x
  }

  class LpVariable {
    /** The identity token (`spl_object_hash`), distinct from the display name. */
    const id: nat
    const name: string
    /** Never `Binary`: the constructor normalises it to `Integer` with bounds 0 and 1. */
    const cat: Category
    var lowBound: Option<real>
    var upBound: Option<real>
    var varValue: Option<real>
    var modified: bool
    /** The bounds captured at construction, restored by `UnfixValue`. */
    const lowBoundOriginal: Option<real>
    const upBoundOriginal: Option<real>

    constructor (id: nat, name: string, lowBound: Option<real>, upBound: Option<real>, cat: Category)
      ensures this.id == id && this.name == name
      ensures this.cat == (if cat == Binary then Integer else cat)
      ensures this.lowBound == lowBoundOriginal == (if cat == Binary then Some(0.0) else lowBound)
      ensures this.upBound == upBoundOriginal == (if cat == Binary then Some(1.0) else upBound)
      ensures varValue == None && modified
      ensures cat == Binary ==> IsBinary() && !IsConstant()
    {
      this.id := id;
      this.name := name;
      this.lowBound, this.lowBoundOriginal := lowBound, lowBound;
      this.upBound, this.upBoundOriginal := upBound, upBound;
      this.cat := cat;
      if cat == Binary {
        this.lowBound, this.lowBoundOriginal := Some(0.0), Some(0.0);
        this.upBound, this.upBoundOriginal := Some(1.0), Some(1.0);
        this.cat := Integer;
      }
      this.varValue := None;
      this.modified := true;
    }

    predicate IsInteger()
    {
      cat == Integer
    }

    /** Integer with bounds loosely equal to 0 and 1 (a missing lower bound counts as 0). */
    predicate IsBinary()
      reads this
    {
      cat == Integer && LooseEq(lowBound, 0.0) && LooseEq(upBound, 1.0)
    }

    predicate IsFree()
      reads this
    {
      lowBound.None? && upBound.None?
    }

    /** A lower bound and an upper bound loosely equal to it (a missing upper bound equals 0). */
    predicate IsConstant()
      reads this
    {
      lowBound.Some? && LooseEq(upBound, lowBound.value)
    }

    predicate InBounds(x: real)
      reads this
    {
      (lowBound.Some? ==> lowBound.value <= x) && (upBound.Some? ==> x <= upBound.value)
    }

    predicate BoundsConsistent()
      reads this
    {
      lowBound.Some? && upBound.Some? ==> lowBound.value <= upBound.value
    }

    /**
     * The assigned value, or else the feasible value closest to zero.
     */
    function ValueOrDefault(): (r: real)
      reads this
      ensures varValue.Some? ==> r == varValue.value
      ensures varValue.None? && BoundsConsistent() ==> InBounds(r)
      ensures varValue.None? && BoundsConsistent() ==> forall x :: InBounds(x) ==> Abs(r) <= Abs(x)
    {
      if varValue.Some? then varValue.value
      else if lowBound.Some? then
        if upBound.Some? then
          if 0.0 >= lowBound.value && 0.0 <= upBound.value then 0.0
          else if lowBound.value >= 0.0 then lowBound.value else upBound.value
        else if 0.0 >= lowBound.value then 0.0 else lowBound.value
      else if upBound.Some? then
        if 0.0 <= upBound.value then 0.0 else upBound.value
      else 0.0
    }

    method Bounds(low: Option<real>, up: Option<real>)
      modifies this
      ensures lowBound == low && upBound == up && modified
      ensures varValue == old(varValue)
    {
      lowBound, upBound, modified := low, up, true;
    }

    /** Pins both bounds to the assigned value, if there is one. */
    method FixValue()
      modifies this
      ensures old(varValue).Some? ==> lowBound == upBound == varValue && modified && IsConstant()
      ensures old(varValue).None? ==> lowBound == old(lowBound) && upBound == old(upBound) && modified == old(modified)
      ensures varValue == old(varValue)
    {
      if varValue.Some? {
        Bounds(varValue, varValue);
      }
    }

    /** Restores the construction-time bounds (not those of a later `Bounds` call). */
    method UnfixValue()
      modifies this
      ensures lowBound == lowBoundOriginal && upBound == upBoundOriginal && modified
      ensures varValue == old(varValue)
    {
      Bounds(lowBoundOriginal, upBoundOriginal);
    }

    /**
     * Whether the assigned value is within `eps` of the bounds and, for an
     * integer variable, of an integer. The placeholder `__dummy` is valid unassigned.
     */
    function IsValid(eps: real): (r: bool)
      reads this
      ensures varValue.None? ==> (r <==> name == "__dummy")
      ensures varValue.Some? ==>
        (r <==> (upBound.Some? ==> varValue.value <= upBound.value + eps)
                && (lowBound.Some? ==> varValue.value >= lowBound.value - eps)
                && (cat == Integer ==> Abs(Round(varValue.value) as real - varValue.value) <= eps))
      ensures (varValue.Some? && eps >= 0.0 && InBounds(varValue.value)
               && (cat == Integer ==> IsIntegral(varValue.value))) ==> r
      ensures r && varValue.Some? && eps == 0.0 ==>
                InBounds(varValue.value) && (cat == Integer ==> IsIntegral(varValue.value))
    {
      if name == "__dummy" && varValue.None? then true
      else if varValue.None? then false
      else
        var x := varValue.value;
        if upBound.Some? && x > upBound.value + eps then false
        else if lowBound.Some? && x < lowBound.value - eps then false
        else if cat == Integer && Abs(Round(x) as real - x) > eps then false
        else true
    }

    /**
     * The assigned value, snapped to the nearest integer when the variable is an
     * integer and the value lies within `eps` of it.
     */
    function RoundedValue(eps: real): (r: Option<real>)
      reads this
      ensures r.None? <==> varValue.None?
      ensures r.Some? && eps >= 0.0 ==> Abs(r.value - varValue.value) <= eps
      ensures (r.Some? && cat == Integer && Abs(varValue.value - Round(varValue.value) as real) <= eps)
                ==> r.value == Round(varValue.value) as real && IsIntegral(r.value)
      ensures (cat != Integer || varValue.None? || Abs(varValue.value - Round(varValue.value) as real) > eps)
                ==> r == varValue
    {
      if cat == Integer && varValue.Some? && Abs(varValue.value - Round(varValue.value) as real) <= eps
      then Some(Round(varValue.value) as real)
      else varValue
    }

    /** The variable's line in the VARIABLES section of the problem dump (without the category). */
    function AsCplexLpVariable(): string
      reads this
    {
      if IsFree() then name + " free"
      else if IsConstant() then name + " = " + Str(lowBound.value)
      else
        var prefix :=
          if lowBound.None? then "-inf <= "
          else if lowBound.value == 0.0 && cat == Continuous then ""
          else Str(lowBound.value) + " <= ";
        prefix + name + (if upBound.Some? then " <= " + Str(upBound.value) else "")
    }
  }

  /**
   * Shape of a variable's line: `name free` for a free variable, `name = lb` for a
   * fixed one, and otherwise the name between the lower-bound text (`-inf <= `,
   * nothing for a continuous variable bounded below by 0, or `lb <= `) and the
   * upper-bound text (` <= ub`, or nothing).
   */
  lemma AsCplexLpVariableShape(v: LpVariable)
    ensures v.IsFree() ==> v.AsCplexLpVariable() == v.name + " free"
    ensures !v.IsFree() && v.IsConstant() ==> v.AsCplexLpVariable() == v.name + " = " + Str(v.lowBound.value)
    ensures !v.IsFree() && !v.IsConstant() && v.upBound.Some? ==>
      EndsWith(v.AsCplexLpVariable(), v.name + " <= " + Str(v.upBound.value))
    ensures !v.IsFree() && !v.IsConstant() && v.upBound.None? ==> EndsWith(v.AsCplexLpVariable(), v.name)
    ensures !v.IsFree() && !v.IsConstant() && v.lowBound.None? ==>
      StartsWith(v.AsCplexLpVariable(), "-inf <= " + v.name)
    ensures !v.IsFree() && !v.IsConstant() && v.lowBound == Some(0.0) && v.cat == Continuous ==>
      StartsWith(v.AsCplexLpVariable(), v.name)
    ensures !v.IsFree() && !v.IsConstant() && v.lowBound.Some? && (v.lowBound.value != 0.0 || v.cat != Continuous) ==>
      StartsWith(v.AsCplexLpVariable(), Str(v.lowBound.value) + " <= " + v.name)
    ensures !v.IsFree() && !v.IsConstant() && v.lowBound.None? ==>
      v.AsCplexLpVariable() == "-inf <= " + v.name + " <= " + Str(v.upBound.value)
    ensures !v.IsFree() && !v.IsConstant() && v.lowBound == Some(0.0) && v.cat == Continuous ==>
      v.AsCplexLpVariable() == v.name + " <= " + Str(v.upBound.value)
    ensures !v.IsFree() && !v.IsConstant() && v.lowBound.Some? && (v.lowBound.value != 0.0 || v.cat != Continuous) ==>
      v.AsCplexLpVariable() ==
        if v.upBound.Some? then Str(v.lowBound.value) + " <= " + v.name + " <= " + Str(v.upBound.value)
        else Str(v.lowBound.value) + " <= " + v.name
  {
    if !v.IsFree() && !v.IsConstant() {
      var prefix :=
        if v.lowBound.None? then "-inf <= "
        else if v.lowBound.value == 0.0 && v.cat == Continuous then ""
        else Str(v.lowBound.value) + " <= ";
      var suffix := if v.upBound.Some? then " <= " + Str(v.upBound.value) else "";
      var r := v.AsCplexLpVariable();
      assert r == prefix + v.name + suffix;
      assert StartsWith(r, prefix + v.name) && EndsWith(r, v.name + suffix) by {
        Framed(prefix, v.name, suffix);
      }
      if v.upBound.None? {
        assert v.name + suffix == v.name;
      } else {
        assert v.name + suffix == v.name + " <= " + Str(v.upBound.value);
      }
      if v.lowBound == Some(0.0) && v.cat == Continuous {
        assert prefix + v.name == v.name;
      }
      if v.upBound.Some? {
        assert r == prefix + v.name + " <= " + Str(v.upBound.value);
      }
    }
  }

  /**
   * The rounding cases of test_pulp.php with the default tolerance 1e-5:
   * 4.9999999 snaps to 5, while 4.5 is too far from a whole number and is kept.
   */
  method RoundedValueExample() returns (near: Option<real>, far: Option<real>)
    ensures near == Some(5.0) && far == Some(4.5)
  {
    var iv := new LpVariable(0, "iv", Some(0.0), Some(10.0), Integer);
    iv.varValue := Some(4.9999999);
    assert Round(4.9999999) == 5;
    near := iv.RoundedValue(0.00001);
    iv.varValue := Some(4.5);
    far := iv.RoundedValue(0.00001);
  }

  /**
   * How the category and bound predicates relate: a binary variable is an
   * integer with upper bound 1 and lower bound 0 or none; a variable is free
   * exactly when every value is within its bounds; a fixed variable has equal
   * bounds (or, by the loose comparison, lower bound 0 and no upper bound), and
   * with both bounds present admits exactly one value.
   */
  lemma VariableKinds(v: LpVariable)
    ensures v.IsBinary() <==> v.IsInteger() && v.upBound == Some(1.0) && v.lowBound in {None, Some(0.0)}
    ensures v.IsBinary() ==> !v.IsFree() && !v.IsConstant()
    ensures v.IsFree() <==> forall x :: v.InBounds(x)
    ensures v.IsFree() ==> !v.IsConstant()
    ensures v.IsConstant() <==>
              v.lowBound.Some? && (v.upBound == v.lowBound || (v.upBound.None? && v.lowBound == Some(0.0)))
    ensures v.IsConstant() && v.upBound.Some? ==> forall x :: v.InBounds(x) <==> x == v.lowBound.value
  {
    if !v.IsFree() {
      if v.lowBound.Some? {
        assert !v.InBounds(v.lowBound.value - 1.0);
      } else {
        assert !v.InBounds(v.upBound.value + 1.0);
      }
    }
  }

  /**
   * Renderings of the variables of test_pulp.php, including the loose
   * comparison that renders a variable with lower bound 0 and no upper bound
   * as fixed at 0.
   */
  lemma {:induction false} AsCplexLpVariableExamples(xf: LpVariable, xfr: LpVariable, xlo: LpVariable, xcx: LpVariable,
                                  b: LpVariable, z: LpVariable)
    requires xf.name == "xf" && xf.cat == Continuous && xf.lowBound == Some(0.0) && xf.upBound == Some(4.0)
    requires xfr.name == "xfr" && xfr.lowBound.None? && xfr.upBound.None?
    requires xlo.name == "xlo" && xlo.cat == Continuous && xlo.lowBound == Some(-5.0) && xlo.upBound.None?
    requires xcx.name == "xcx" && xcx.lowBound == Some(3.0) && xcx.upBound == Some(3.0)
    requires b.name == "b" && b.cat == Integer && b.lowBound == Some(0.0) && b.upBound == Some(1.0)
    requires z.name == "z" && z.lowBound == Some(0.0) && z.upBound.None?
    ensures xf.AsCplexLpVariable() == "xf <= 4"
    ensures xfr.AsCplexLpVariable() == "xfr free"
    ensures xlo.AsCplexLpVariable() == "-5 <= xlo"
    ensures xcx.AsCplexLpVariable() == "xcx = 3"
    ensures b.AsCplexLpVariable() == "0 <= b <= 1" && b.IsBinary()
    ensures z.IsConstant() && z.AsCplexLpVariable() == "z = 0"
  {
    StrOfInt(4);
    StrOfInt(-5);
    StrOfInt(3);
    StrOfInt(1);
    StrOfInt(0);
  }

  /** The name `dicts` gives the variable for index `i`: `<name>_<i>`. */
  function IndexedName(name: string, i: int): string
  {
    name + "_" + IntToString(i)
  }

  /**
   * `LpVariable::dicts`: one variable per index, named `<name>_<index>`, all
   * with the same bounds and category; a repeated index keeps its last variable.
   * Identity tokens are drawn from `firstId` onwards, one per index.
   */
  method Dicts(name: string, indices: seq<int>, firstId: nat, lowBound: Option<real>, upBound: Option<real>, cat: Category)
    returns (d: map<int, LpVariable>)
    ensures d.Keys == set i | i in indices
    ensures forall i :: i in d ==> fresh(d[i]) && d[i].name == IndexedName(name, i)
    ensures forall i :: i in d ==>
      d[i].cat == (if cat == Binary then Integer else cat) &&
      d[i].lowBound == (if cat == Binary then Some(0.0) else lowBound) &&
      d[i].upBound == (if cat == Binary then Some(1.0) else upBound) &&
      d[i].varValue.None?
    ensures forall i, j :: i in d && j in d && i != j ==> d[i].id != d[j].id
  {
    d := map[];
    for k := 0 to |indices|
      invariant forall i :: i in d <==> i in indices[..k]
      invariant forall i :: i in d ==> fresh(d[i]) && d[i].name == IndexedName(name, i)
      invariant forall i :: i in d ==>
        d[i].cat == (if cat == Binary then Integer else cat) &&
        d[i].lowBound == (if cat == Binary then Some(0.0) else lowBound) &&
        d[i].upBound == (if cat == Binary then Some(1.0) else upBound) &&
        d[i].varValue.None?
      invariant forall i :: i in d ==> firstId <= d[i].id < firstId + k
      invariant forall i, j :: i in d && j in d && i != j ==> d[i].id != d[j].id
    {
      var v := new LpVariable(firstId + k, IndexedName(name, indices[k]), lowBound, upBound, cat);
      d := d[indices[k] := v];
      assert indices[..k + 1] == indices[..k] + [indices[k]];
    }
    assert indices[..|indices|] == indices;
    assert forall i :: i in d <==> i in indices;
  }
}
