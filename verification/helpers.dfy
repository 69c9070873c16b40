/**
 * The two helpers that build expressions from lists: `lpSum`, which adds the
 * items into a fresh expression one after the other, and `lpDot`, which adds
 * the pairwise products of two lists where one side of the pair is a number.
 *
 * Both are specified by a fold of `Merge` over affine forms (a constant and a
 * term map), one form per item or per pair, and the fold is shown to add the
 * coefficients and, when every variable is assigned, the values.
 */
module Helpers {
  import opened Results
  import opened Variable
  import opened Terms
  import opened Expression

  /** A constant plus a term map: what an expression holds, as a value. */
  datatype Affine = Affine(constant: real, terms: seq<Term>)

  /** `addInPlace` of an expression with the given constant and terms, sign 1. */
  function Merge(acc: Affine, f: Affine): Affine
  {
    Affine(acc.constant + f.constant, WithTerms(acc.terms, f.terms, 1.0))
  }

  /** The forms merged one after the other into an empty expression. */
  function Fold(fs: seq<Affine>): Affine
  {
    if fs == [] then Affine(0.0, []) else Merge(Fold(fs[..|fs| - 1]), fs[|fs| - 1])
  }

  /** Every form's term map is keyed by distinct identities. */
  predicate AllDistinct(fs: seq<Affine>)
  {
    forall i :: 0 <= i < |fs| ==> KeysDistinct(fs[i].terms)
  }

  /** The identities used by the forms. */
  function AllKeys(fs: seq<Affine>): set<nat>
  {
    if fs == [] then {} else AllKeys(fs[..|fs| - 1]) + Keys(fs[|fs| - 1].terms)
  }

  /** The variables used by the forms. */
  function AllVars(fs: seq<Affine>): set<LpVariable>
  {
    if fs == [] then {} else AllVars(fs[..|fs| - 1]) + Vars(fs[|fs| - 1].terms)
  }

  /** The sum of the forms' constants. */
  function ConstantTotal(fs: seq<Affine>): real
  {
    if fs == [] then 0.0 else ConstantTotal(fs[..|fs| - 1]) + fs[|fs| - 1].constant
  }

  /** The sum of the forms' coefficients under one identity. */
  function CoeffTotal(fs: seq<Affine>, id: nat): real
  {
    if fs == [] then 0.0 else CoeffTotal(fs[..|fs| - 1], id) + Coeff(fs[|fs| - 1].terms, id)
  }

  /** Sum of two values that may be unknown: unknown if either is. */
  function AddOpt(a: Option<real>, b: Option<real>): (r: Option<real>)
    ensures r.Some? <==> a.Some? && b.Some?
  {
    if a.Some? && b.Some? then Some(a.value + b.value) else None
  }

  /** The sum of the forms' values, unknown when one of them is. */
  function ValueTotal(fs: seq<Affine>): Option<real>
    reads AllVars(fs)
  {
    if fs == [] then Some(0.0)
    else
      var k := |fs| - 1;
      assert AllVars(fs) == AllVars(fs[..k]) + Vars(fs[k].terms);
      AddOpt(ValueTotal(fs[..k]), Eval(fs[k].constant, fs[k].terms))
  }

  /** The folded term map has the identities of all forms, once each. */
  lemma {:induction false} FoldKeys(fs: seq<Affine>)
    ensures Keys(Fold(fs).terms) == AllKeys(fs)
    ensures KeysDistinct(Fold(fs).terms)
    ensures Vars(Fold(fs).terms) <= AllVars(fs)
  {
    if fs != [] {
      var k := |fs| - 1;
      FoldKeys(fs[..k]);
      WithTermsKeys(Fold(fs[..k]).terms, fs[k].terms, 1.0);
    }
  }

  /** The fold adds constants, and under every identity it adds coefficients. */
  lemma {:induction false} FoldCoeff(fs: seq<Affine>, id: nat)
    requires AllDistinct(fs)
    ensures Fold(fs).constant == ConstantTotal(fs)
    ensures Coeff(Fold(fs).terms, id) == CoeffTotal(fs, id)
  {
    if fs != [] {
      var k := |fs| - 1;
      assert AllDistinct(fs[..k]);
      FoldCoeff(fs[..k], id);
      WithTermsCoeff(Fold(fs[..k]).terms, fs[k].terms, 1.0, id);
    }
  }

  /** The known case of `FoldValue`. */
  lemma {:induction false} FoldValueKnown(fs: seq<Affine>)
    requires UniqueIds(AllVars(fs))
    requires ValueTotal(fs).Some?
    ensures Eval(Fold(fs).constant, Fold(fs).terms) == ValueTotal(fs)
  {
    if fs != [] {
      var k := |fs| - 1;
      var acc, f := Fold(fs[..k]), fs[k];
      assert AllVars(fs) == AllVars(fs[..k]) + Vars(f.terms);
      assert ValueTotal(fs) == AddOpt(ValueTotal(fs[..k]), Eval(f.constant, f.terms));
      assert Eval(acc.constant, acc.terms) == ValueTotal(fs[..k]) by {
        UniqueIdsSubset(AllVars(fs[..k]), AllVars(fs));
        FoldValueKnown(fs[..k]);
      }
      assert UniqueIds(Vars(acc.terms) + Vars(f.terms)) by {
        FoldKeys(fs[..k]);
        UniqueIdsSubset(Vars(acc.terms) + Vars(f.terms), AllVars(fs));
      }
      MergeValue(acc, f);
    }
  }

  /** Merging adds the values, when identities are not shared between distinct variables. */
  lemma {:induction false} MergeValue(acc: Affine, f: Affine)
    requires Eval(acc.constant, acc.terms).Some? && Eval(f.constant, f.terms).Some?
    requires UniqueIds(Vars(acc.terms) + Vars(f.terms))
    ensures Eval(Merge(acc, f).constant, Merge(acc, f).terms)
            == AddOpt(Eval(acc.constant, acc.terms), Eval(f.constant, f.terms))
  {
    var c := acc.constant + f.constant;
    assert c == acc.constant + f.constant * 1.0;
    EvalWithTerms(acc.constant, acc.terms, f.constant, f.terms, 1.0, c);
    var m := Merge(acc, f);
    assert m.constant == c && m.terms == WithTerms(acc.terms, f.terms, 1.0);
    var u, v := Eval(acc.constant, acc.terms).value, Eval(f.constant, f.terms).value;
    var r := Eval(m.constant, m.terms);
    assert r.Some? && r.value == u + 1.0 * v;
    assert 1.0 * v == v;
    assert AddOpt(Eval(acc.constant, acc.terms), Eval(f.constant, f.terms)).value == u + v;
  }

  /** The expressions among the operands. */
  function ExprsOf(items: seq<Operand>): set<LpAffineExpression>
  {
    set i | 0 <= i < |items| && items[i].Expr? :: items[i].e
  }

  /** Every expression among the operands is well formed. */
  predicate ExprsValid(items: seq<Operand>)
    reads ExprsOf(items)
  {
    forall i :: 0 <= i < |items| && items[i].Expr? ==> items[i].e.Valid()
  }

  /**
   * What `addInPlace($o)` adds to an expression: a number to the constant, a
   * variable with coefficient 1, an expression's constant and terms, and
   * nothing for `null` or an array.
   */
  function Form(o: Operand): Affine
    reads if o.Expr? then {o.e} else {}
  {
    match o
    case Num(x) => Affine(x, [])
    case Var(v) => Affine(0.0, [Term(v, 1.0)])
    case Expr(e) => Affine(e.constant, e.terms)
    case _ => Affine(0.0, [])
  }

  function Forms(items: seq<Operand>): (fs: seq<Affine>)
    reads ExprsOf(items)
    ensures |fs| == |items|
    ensures forall i :: 0 <= i < |items| ==> fs[i] == Form(items[i])
  {
    if items == [] then []
    else
      var n := |items| - 1;
      assert ExprsOf(items[..n]) <= ExprsOf(items);
      Forms(items[..n]) + [Form(items[n])]
  }

  /** The variables the operands mention. */
  function VarsOf(items: seq<Operand>): set<LpVariable>
    reads ExprsOf(items)
  {
    AllVars(Forms(items))
  }

  /** Merging a single entry is `addterm`. */
  lemma {:induction false} WithTermsSingle(ts: seq<Term>, v: LpVariable, a: real)
    ensures WithTerms(ts, [Term(v, a)], 1.0) == WithTerm(ts, v, a)
  {
    assert [Term(v, a)][1..] == [];
    assert ScaleTerm(Term(v, a), 1.0) == Term(v, a);
  }

  /**
   * `lpSum($items)`: a fresh expression with each item added in turn; the
   * result is the fold of the items' forms.
   */
  method LpSum(items: seq<Operand>) returns (e: LpAffineExpression)
    ensures fresh(e) && e.Valid() && e.name.None?
    ensures Affine(e.constant, e.terms) == Fold(old(Forms(items)))
  {
    ghost var fs := Forms(items);
    e := new LpAffineExpression(Null, 0.0, None);
    for i := 0 to |items|
      invariant fresh(e) && e.Valid() && e.name.None?
      invariant Affine(e.constant, e.terms) == Fold(fs[..i])
    {
      assert fs[..i + 1][..i] == fs[..i];
      AddItem(e, items[i]);
    }
    assert fs[..|items|] == fs;
  }

  /** One iteration of `lpSum`: the item added to `e` in place. */
  method AddItem(e: LpAffineExpression, o: Operand)
    requires e.Valid()
    modifies e
    ensures e.Valid() && e.name == old(e.name)
    ensures Affine(e.constant, e.terms) == Merge(old(Affine(e.constant, e.terms)), old(Form(o)))
  {
    ghost var next := Merge(Affine(e.constant, e.terms), Form(o));
    if o.Var? {
      WithTermsSingle(e.terms, o.v, 1.0);
    }
    e.AddInPlace(o, 1.0);
    assert Affine(e.constant, e.terms) == next;
  }

  /** `$v2[$k]`: an index past the end reads as `null`. */
  function At(items: seq<Operand>, k: nat): (o: Operand)
    ensures o.Expr? ==> o.e in ExprsOf(items)
  {
    if k < |items| then items[k] else Null
  }

  /** The form multiplied by `k`: `__mul($k)` of an expression holding it. */
  function Scaled(f: Affine, k: real): Affine
  {
    Affine(f.constant * k, Scale(f.terms, k))
  }

  /**
   * What `lpDot` adds for one pair: the product of two numbers to the
   * constant, or the other side's form times the number; nothing when
   * neither side is a number.
   */
  function PairForm(a: Operand, b: Operand): Affine
    reads (if a.Expr? then {a.e} else {}), (if b.Expr? then {b.e} else {})
  {
    if a.Num? && b.Num? then Affine(a.x * b.x, [])
    else if b.Num? && (a.Var? || a.Expr?) then Scaled(Form(a), b.x)
    else if a.Num? && (b.Var? || b.Expr?) then Scaled(Form(b), a.x)
    else Affine(0.0, [])
  }

  function PairForms(v1: seq<Operand>, v2: seq<Operand>): (fs: seq<Affine>)
    reads ExprsOf(v1), ExprsOf(v2)
    ensures |fs| == |v1|
    ensures forall k :: 0 <= k < |v1| ==> fs[k] == PairForm(v1[k], At(v2, k))
  {
    if v1 == [] then []
    else
      var n := |v1| - 1;
      assert ExprsOf(v1[..n]) <= ExprsOf(v1);
      PairForms(v1[..n], v2) + [PairForm(v1[n], At(v2, n))]
  }

  /** `addterm($v, $k)` is the merge of the variable's own form times `k`. */
  lemma {:induction false} WithTermsScaledSingle(ts: seq<Term>, v: LpVariable, k: real)
    ensures WithTerms(ts, Scaled(Form(Var(v)), k).terms, 1.0) == WithTerm(ts, v, k)
  {
    assert Scale([Term(v, 1.0)], k) == [Term(v, k)];
    WithTermsSingle(ts, v, k);
  }

  /** One iteration of `lpDot`: the pair's product added to `e` in place. */
  method AddPair(e: LpAffineExpression, a: Operand, b: Operand)
    requires e.Valid()
    requires a.Expr? ==> a.e.Valid()
    requires b.Expr? ==> b.e.Valid()
    modifies e
    ensures e.Valid() && e.name == old(e.name)
    ensures Affine(e.constant, e.terms) == Merge(old(Affine(e.constant, e.terms)), old(PairForm(a, b)))
  {
    if a.Num? && b.Num? {
      e.constant := e.constant + a.x * b.x;
    } else if b.Num? {
      if a.Var? {
        WithTermsScaledSingle(e.terms, a.v, b.x);
        e.AddTerm(a.v, b.x);
      } else if a.Expr? {
        var m := a.e.Mul(b);
        e.AddInPlace(Expr(m.value), 1.0);
      }
    } else if a.Num? {
      if b.Var? {
        WithTermsScaledSingle(e.terms, b.v, a.x);
        e.AddTerm(b.v, a.x);
      } else if b.Expr? {
        var m := b.e.Mul(a);
        e.AddInPlace(Expr(m.value), 1.0);
      }
    }
  }

  /**
   * `lpDot($v1, $v2)`: for each position of `v1`, the pair with the same
   * position of `v2` adds its product to a fresh expression; the result is the
   * fold of the pairs' forms.
   */
  method LpDot(v1: seq<Operand>, v2: seq<Operand>) returns (e: LpAffineExpression)
    requires ExprsValid(v1) && ExprsValid(v2)
    ensures fresh(e) && e.Valid() && e.name.None?
    ensures Affine(e.constant, e.terms) == Fold(old(PairForms(v1, v2)))
  {
    ghost var fs := PairForms(v1, v2);
    e := new LpAffineExpression(Null, 0.0, None);
    for k := 0 to |v1|
      invariant fresh(e) && e.Valid() && e.name.None?
      invariant Affine(e.constant, e.terms) == Fold(fs[..k])
    {
      assert fs[..k + 1][..k] == fs[..k];
      var b := if k < |v2| then v2[k] else Null;
      assert PairForm(v1[k], b) == fs[k];
      AddPair(e, v1[k], b);
    }
    assert fs[..|v1|] == fs;
  }

  /** The objects the value of an operand depends on. */
  function ItemRefs(o: Operand): set<object>
    reads if o.Expr? then {o.e} else {}
  {
    match o
    case Var(v) => {v}
    case Expr(e) => var vs: set<object> := Vars(e.terms); vs + {e}
    case _ => {}
  }

  /**
   * The value of an operand on its own: a number is itself, a variable its
   * assigned value, an expression its `value()`; `null` and arrays count as 0.
   */
  function ItemValue(o: Operand): Option<real>
    reads ItemRefs(o)
  {
    match o
    case Num(x) => Some(x)
    case Var(v) => v.varValue
    case Expr(e) => Eval(e.constant, e.terms)
    case _ => Some(0.0)
  }

  function Refs(items: seq<Operand>): (r: set<object>)
    reads ExprsOf(items)
    ensures forall k :: 0 <= k < |items| ==> ItemRefs(items[k]) <= r
  {
    if items == [] then {}
    else
      var n := |items| - 1;
      assert ExprsOf(items[..n]) <= ExprsOf(items);
      Refs(items[..n]) + ItemRefs(items[n])
  }

  /** The sum of the operands' values, unknown when one of them is. */
  function SumValues(items: seq<Operand>): Option<real>
    reads ExprsOf(items), Refs(items)
  {
    if items == [] then Some(0.0)
    else
      var n := |items| - 1;
      assert ExprsOf(items[..n]) <= ExprsOf(items);
      AddOpt(SumValues(items[..n]), ItemValue(items[n]))
  }

  /** A variable of some form has its identity among the forms' identities. */
  lemma {:induction false} AllVarsKeys(fs: seq<Affine>, u: LpVariable)
    requires u in AllVars(fs)
    ensures u.id in AllKeys(fs)
  {
    var k := |fs| - 1;
    if u in Vars(fs[k].terms) {
      var t :| t in fs[k].terms && t.v == u;
      assert u.id in Keys(fs[k].terms);
    } else {
      AllVarsKeys(fs[..k], u);
    }
  }

  /** An unknown total has an unassigned variable behind it. */
  lemma {:induction false} ValueTotalUnknown(fs: seq<Affine>) returns (u: LpVariable)
    requires ValueTotal(fs).None?
    ensures u in AllVars(fs) && u.varValue.None?
  {
    var k := |fs| - 1;
    assert AllVars(fs) == AllVars(fs[..k]) + Vars(fs[k].terms);
    if ValueTotal(fs[..k]).None? {
      u := ValueTotalUnknown(fs[..k]);
    } else {
      var t :| t in fs[k].terms && t.v.varValue.None?;
      u := t.v;
    }
  }

  /**
   * When distinct variables have distinct identities, the folded form's value
   * is the sum of the forms' values, and unknown exactly when one of them is.
   */
  lemma {:induction false} FoldValue(fs: seq<Affine>)
    requires UniqueIds(AllVars(fs))
    ensures Eval(Fold(fs).constant, Fold(fs).terms) == ValueTotal(fs)
  {
    if ValueTotal(fs).Some? {
      FoldValueKnown(fs);
    } else {
      var u := ValueTotalUnknown(fs);
      var r := Fold(fs).terms;
      AllVarsKeys(fs, u);
      FoldKeys(fs);
      var t :| t in r && t.v.id == u.id;
      assert t.v in Vars(r);
      assert t.v == u;
    }
  }

  /** An operand's form has the operand's own value. */
  lemma {:induction false} FormValue(o: Operand)
    ensures Eval(Form(o).constant, Form(o).terms) == ItemValue(o)
  {
    if o.Var? {
      var t := Term(o.v, 1.0);
      assert Form(o).terms == [t] && [t][1..] == [];
      assert Assigned([t]) <==> o.v.varValue.Some?;
      if o.v.varValue.Some? {
        assert Dot([t]) == Weight(t) + Dot([]);
        assert Weight(t) == o.v.varValue.value * 1.0;
      }
    }
  }

  /** Summing the forms' values is summing the operands' values. */
  lemma {:induction false} FormsValues(items: seq<Operand>)
    ensures ValueTotal(Forms(items)) == SumValues(items)
  {
    if items != [] {
      var n := |items| - 1;
      var fs := Forms(items);
      assert fs[..n] == Forms(items[..n]);
      FormsValues(items[..n]);
      FormValue(items[n]);
    }
  }

  /**
   * The value of `lpSum($items)` is the sum of the items' values, unknown
   * exactly when one of them is, when distinct variables have distinct
   * identities.
   */
  lemma {:induction false} LpSumValue(items: seq<Operand>)
    requires UniqueIds(VarsOf(items))
    ensures Eval(Fold(Forms(items)).constant, Fold(Forms(items)).terms) == SumValues(items)
  {
    FoldValue(Forms(items));
    FormsValues(items);
  }

  /** What an operand adds to the constant. */
  function ItemConstant(o: Operand): real
    reads if o.Expr? then {o.e} else {}
  {
    match o
    case Num(x) => x
    case Expr(e) => e.constant
    case _ => 0.0
  }

  /** What an operand adds to the coefficient of the variable with identity `id`. */
  function ItemCoeff(o: Operand, id: nat): real
    reads if o.Expr? then {o.e} else {}
  {
    match o
    case Var(v) => if v.id == id then 1.0 else 0.0
    case Expr(e) => Coeff(e.terms, id)
    case _ => 0.0
  }

  function SumConstants(items: seq<Operand>): real
    reads ExprsOf(items)
  {
    if items == [] then 0.0
    else
      var n := |items| - 1;
      assert ExprsOf(items[..n]) <= ExprsOf(items);
      SumConstants(items[..n]) + ItemConstant(items[n])
  }

  function SumCoeffs(items: seq<Operand>, id: nat): real
    reads ExprsOf(items)
  {
    if items == [] then 0.0
    else
      var n := |items| - 1;
      assert ExprsOf(items[..n]) <= ExprsOf(items);
      SumCoeffs(items[..n], id) + ItemCoeff(items[n], id)
  }

  /**
   * `lpSum($items)` is linear: its constant is the sum of the items'
   * constants, and each variable's coefficient the sum of the items'
   * coefficients of that variable; its term map is keyed once per variable.
   */
  lemma {:induction false} LpSumCoeff(items: seq<Operand>, id: nat)
    requires ExprsValid(items)
    ensures KeysDistinct(Fold(Forms(items)).terms)
    ensures Fold(Forms(items)).constant == SumConstants(items)
    ensures Coeff(Fold(Forms(items)).terms, id) == SumCoeffs(items, id)
  {
    FoldKeys(Forms(items));
    FormsCoeff(items, id);
    FoldCoeff(Forms(items), id);
  }

  lemma {:induction false} FormsCoeff(items: seq<Operand>, id: nat)
    requires ExprsValid(items)
    ensures AllDistinct(Forms(items))
    ensures ConstantTotal(Forms(items)) == SumConstants(items)
    ensures CoeffTotal(Forms(items), id) == SumCoeffs(items, id)
  {
    if items != [] {
      var n := |items| - 1;
      assert Forms(items)[..n] == Forms(items[..n]);
      assert ExprsValid(items[..n]);
      FormsCoeff(items[..n], id);
      FormCoeff(items[n], id);
    }
  }

  /** An operand's form holds the operand's constant and coefficients, keyed once each. */
  lemma {:induction false} FormCoeff(o: Operand, id: nat)
    requires o.Expr? ==> o.e.Valid()
    ensures KeysDistinct(Form(o).terms)
    ensures Form(o).constant == ItemConstant(o)
    ensures Coeff(Form(o).terms, id) == ItemCoeff(o, id)
  {
    if o.Var? {
      assert IndexOf(Form(o).terms, id) == (if o.v.id == id then 0 else -1);
    }
  }

  /** A number, a variable or an expression: the operands `lpDot` multiplies. */
  predicate Linear(o: Operand)
  {
    o.Num? || o.Var? || o.Expr?
  }

  function Product(x: real, y: real): real
  {
    x * y
  }

  /** Product of two values that may be unknown: unknown if either is. */
  function MulOpt(a: Option<real>, b: Option<real>): (r: Option<real>)
    ensures r.Some? <==> a.Some? && b.Some?
  {
    if a.Some? && b.Some? then Some(Product(a.value, b.value)) else None
  }

  /**
   * The value of one `lpDot` pair: the product of the two values when one side
   * is a number and the other a number, a variable or an expression; 0 otherwise.
   */
  function PairValue(a: Operand, b: Operand): Option<real>
    reads ItemRefs(a), ItemRefs(b)
  {
    if (a.Num? && Linear(b)) || (b.Num? && Linear(a)) then MulOpt(ItemValue(a), ItemValue(b)) else Some(0.0)
  }

  /** The sum of the pairs' values, unknown when one of them is. */
  function DotValues(v1: seq<Operand>, v2: seq<Operand>): Option<real>
    reads ExprsOf(v1), Refs(v1), ExprsOf(v2), Refs(v2)
  {
    if v1 == [] then Some(0.0)
    else
      var n := |v1| - 1;
      assert ExprsOf(v1[..n]) <= ExprsOf(v1);
      AddOpt(DotValues(v1[..n], v2), PairValue(v1[n], At(v2, n)))
  }

  /** Scaling keeps the variables, so it keeps whether all of them are assigned. */
  lemma {:induction false} ScaleAssigned(ts: seq<Term>, k: real)
    ensures Assigned(Scale(ts, k)) <==> Assigned(ts)
  {
    var r := Scale(ts, k);
    if Assigned(ts) {
      forall t | t in r ensures t.v.varValue.Some? {
        var j :| 0 <= j < |r| && r[j] == t;
        assert ts[j] in ts;
      }
    }
    if Assigned(r) {
      forall t | t in ts ensures t.v.varValue.Some? {
        var j :| 0 <= j < |ts| && ts[j] == t;
        assert r[j] in r;
      }
    }
  }

  /** The scaled form's value is the form's value times `k`. */
  lemma {:induction false} ScaledValue(f: Affine, k: real)
    ensures Eval(Scaled(f, k).constant, Scaled(f, k).terms) == MulOpt(Eval(f.constant, f.terms), Some(k))
    ensures Eval(Scaled(f, k).constant, Scaled(f, k).terms) == MulOpt(Some(k), Eval(f.constant, f.terms))
  {
    var g := Scaled(f, k);
    ScaleAssigned(f.terms, k);
    if Eval(f.constant, f.terms).Some? {
      var v := Eval(f.constant, f.terms).value;
      EvalScale(f.constant, f.terms, k, f.constant * k);
      assert Eval(g.constant, g.terms).value == Product(k, v) == Product(v, k);
    }
  }

  /** A pair's form has the pair's value. */
  lemma {:induction false} PairFormValue(a: Operand, b: Operand)
    ensures Eval(PairForm(a, b).constant, PairForm(a, b).terms) == PairValue(a, b)
  {
    if a.Num? && b.Num? {
      assert Assigned([]) && Dot([]) == 0.0;
      assert Eval(PairForm(a, b).constant, []).value == Product(a.x, b.x);
    } else if b.Num? && (a.Var? || a.Expr?) {
      FormValue(a);
      ScaledValue(Form(a), b.x);
    } else if a.Num? && (b.Var? || b.Expr?) {
      FormValue(b);
      ScaledValue(Form(b), a.x);
    }
  }

  lemma {:induction false} PairFormsValues(v1: seq<Operand>, v2: seq<Operand>)
    ensures ValueTotal(PairForms(v1, v2)) == DotValues(v1, v2)
  {
    if v1 != [] {
      var n := |v1| - 1;
      var fs := PairForms(v1, v2);
      assert fs[..n] == PairForms(v1[..n], v2);
      PairFormsValues(v1[..n], v2);
      PairFormValue(v1[n], At(v2, n));
    }
  }

  /** The variables of one form are among the variables of all of them. */
  lemma {:induction false} AllVarsMember(fs: seq<Affine>, k: nat)
    requires k < |fs|
    ensures Vars(fs[k].terms) <= AllVars(fs)
  {
    var n := |fs| - 1;
    if k < n {
      AllVarsMember(fs[..n], k);
    }
  }

  /** The variables of an operand are among the variables of the list it is in. */
  lemma {:induction false} VarsOfMember(items: seq<Operand>, k: nat)
    requires k < |items|
    ensures Vars(Form(items[k]).terms) <= VarsOf(items)
  {
    AllVarsMember(Forms(items), k);
  }

  /** The pairs mention only variables of the two lists. */
  lemma {:induction false} PairFormsVars(v1: seq<Operand>, v2: seq<Operand>)
    ensures AllVars(PairForms(v1, v2)) <= VarsOf(v1) + VarsOf(v2)
  {
    if v1 != [] {
      var n := |v1| - 1;
      var fs := PairForms(v1, v2);
      assert fs[..n] == PairForms(v1[..n], v2);
      assert Forms(v1)[..n] == Forms(v1[..n]);
      AllVarsPrefix(Forms(v1), n);
      PairFormsVars(v1[..n], v2);
      var a, b := v1[n], At(v2, n);
      VarsOfMember(v1, n);
      if n < |v2| {
        VarsOfMember(v2, n);
      }
      ScaleVars(Form(a).terms, if b.Num? then b.x else 0.0);
      if a.Num? {
        ScaleVars(Form(b).terms, a.x);
      }
    }
  }

  /** A prefix of the forms uses a subset of their variables. */
  lemma {:induction false} AllVarsPrefix(fs: seq<Affine>, n: nat)
    requires n <= |fs|
    ensures AllVars(fs[..n]) <= AllVars(fs)
    decreases |fs|
  {
    if n < |fs| {
      var k := |fs| - 1;
      assert fs[..k][..n] == fs[..n];
      AllVarsPrefix(fs[..k], n);
    } else {
      assert fs[..n] == fs;
    }
  }

  /**
   * The value of `lpDot($v1, $v2)` is the sum of the pairs' values, unknown
   * exactly when one of them is, when distinct variables have distinct
   * identities.
   */
  lemma {:induction false} LpDotValue(v1: seq<Operand>, v2: seq<Operand>)
    requires UniqueIds(VarsOf(v1) + VarsOf(v2))
    ensures Eval(Fold(PairForms(v1, v2)).constant, Fold(PairForms(v1, v2)).terms) == DotValues(v1, v2)
  {
    PairFormsVars(v1, v2);
    UniqueIdsSubset(AllVars(PairForms(v1, v2)), VarsOf(v1) + VarsOf(v2));
    FoldValue(PairForms(v1, v2));
    PairFormsValues(v1, v2);
  }

  /**
   * What one `lpDot` pair adds to the constant: the product of the two
   * constants when one side is a number and the other a number, a variable
   * or an expression; 0 otherwise.
   */
  function PairConstant(a: Operand, b: Operand): real
    reads (if a.Expr? then {a.e} else {}), (if b.Expr? then {b.e} else {})
  {
    if (a.Num? && Linear(b)) || (b.Num? && Linear(a)) then Product(ItemConstant(a), ItemConstant(b)) else 0.0
  }

  /**
   * What one `lpDot` pair adds to a coefficient: the product rule for two
   * affine forms one of which is constant.
   */
  function PairCoeff(a: Operand, b: Operand, id: nat): real
    reads (if a.Expr? then {a.e} else {}), (if b.Expr? then {b.e} else {})
  {
    if (a.Num? && Linear(b)) || (b.Num? && Linear(a))
    then Product(ItemCoeff(a, id), ItemConstant(b)) + Product(ItemConstant(a), ItemCoeff(b, id))
    else 0.0
  }

  function DotConstants(v1: seq<Operand>, v2: seq<Operand>): real
    reads ExprsOf(v1), ExprsOf(v2)
  {
    if v1 == [] then 0.0
    else
      var n := |v1| - 1;
      assert ExprsOf(v1[..n]) <= ExprsOf(v1);
      DotConstants(v1[..n], v2) + PairConstant(v1[n], At(v2, n))
  }

  function DotCoeffs(v1: seq<Operand>, v2: seq<Operand>, id: nat): real
    reads ExprsOf(v1), ExprsOf(v2)
  {
    if v1 == [] then 0.0
    else
      var n := |v1| - 1;
      assert ExprsOf(v1[..n]) <= ExprsOf(v1);
      DotCoeffs(v1[..n], v2, id) + PairCoeff(v1[n], At(v2, n), id)
  }

  /** An operand's form scaled by a number holds the scaled constant and coefficients. */
  lemma {:induction false} ScaledFormCoeff(o: Operand, k: real, id: nat)
    requires o.Expr? ==> o.e.Valid()
    ensures KeysDistinct(Scaled(Form(o), k).terms)
    ensures Scaled(Form(o), k).constant == Product(ItemConstant(o), k) == Product(k, ItemConstant(o))
    ensures Coeff(Scaled(Form(o), k).terms, id) == Product(ItemCoeff(o, id), k) == Product(k, ItemCoeff(o, id))
  {
    var f := Form(o);
    FormCoeff(o, id);
    ScaleCoeff(f.terms, k, id);
    var c, d := ItemConstant(o), ItemCoeff(o, id);
    assert f.constant == c && Coeff(f.terms, id) == d;
    assert Product(c, k) == c * k == k * c == Product(k, c);
    assert Product(d, k) == d * k == k * d == Product(k, d);
  }

  /** A pair's form holds the pair's constant and coefficients, keyed once each. */
  lemma {:induction false} PairFormCoeff(a: Operand, b: Operand, id: nat)
    requires a.Expr? ==> a.e.Valid()
    requires b.Expr? ==> b.e.Valid()
    ensures KeysDistinct(PairForm(a, b).terms)
    ensures PairForm(a, b).constant == PairConstant(a, b)
    ensures Coeff(PairForm(a, b).terms, id) == PairCoeff(a, b, id)
  {
    if a.Num? && b.Num? {
      assert PairForm(a, b).constant == Product(a.x, b.x);
    } else if b.Num? && (a.Var? || a.Expr?) {
      ScaledFormCoeff(a, b.x, id);
    } else if a.Num? && (b.Var? || b.Expr?) {
      ScaledFormCoeff(b, a.x, id);
    }
  }

  lemma {:induction false} PairFormsCoeff(v1: seq<Operand>, v2: seq<Operand>, id: nat)
    requires ExprsValid(v1) && ExprsValid(v2)
    ensures AllDistinct(PairForms(v1, v2))
    ensures ConstantTotal(PairForms(v1, v2)) == DotConstants(v1, v2)
    ensures CoeffTotal(PairForms(v1, v2), id) == DotCoeffs(v1, v2, id)
  {
    if v1 != [] {
      var n := |v1| - 1;
      var fs := PairForms(v1, v2);
      assert fs[..n] == PairForms(v1[..n], v2);
      assert ExprsValid(v1[..n]);
      PairFormsCoeff(v1[..n], v2, id);
      PairFormCoeff(v1[n], At(v2, n), id);
    }
  }

  /**
   * `lpDot($v1, $v2)` is bilinear: its constant is the sum of the pairs'
   * constants and each variable's coefficient the sum of the pairs'
   * coefficients; its term map is keyed once per variable.
   */
  lemma {:induction false} LpDotCoeff(v1: seq<Operand>, v2: seq<Operand>, id: nat)
    requires ExprsValid(v1) && ExprsValid(v2)
    ensures KeysDistinct(Fold(PairForms(v1, v2)).terms)
    ensures Fold(PairForms(v1, v2)).constant == DotConstants(v1, v2)
    ensures Coeff(Fold(PairForms(v1, v2)).terms, id) == DotCoeffs(v1, v2, id)
  {
    FoldKeys(PairForms(v1, v2));
    PairFormsCoeff(v1, v2, id);
    FoldCoeff(PairForms(v1, v2), id);
  }

  /**
   * `lpDot([x + y, y + z, z], [1, 2, 3])` is `x + 3y + 5z`: each variable
   * collects its coefficients across the pairs it appears in.
   */
  lemma LpDotExample(x: LpVariable, y: LpVariable, z: LpVariable,
                     exy: LpAffineExpression, eyz: LpAffineExpression, ez: LpAffineExpression)
    requires x.id != y.id && y.id != z.id && x.id != z.id
    requires exy.terms == [Term(x, 1.0), Term(y, 1.0)] && exy.constant == 0.0
    requires eyz.terms == [Term(y, 1.0), Term(z, 1.0)] && eyz.constant == 0.0
    requires ez.terms == [Term(z, 1.0)] && ez.constant == 0.0
    ensures var d := Fold(PairForms([Expr(exy), Expr(eyz), Expr(ez)], [Num(1.0), Num(2.0), Num(3.0)]));
      d.constant == 0.0 && Coeff(d.terms, x.id) == 1.0 && Coeff(d.terms, y.id) == 3.0 && Coeff(d.terms, z.id) == 5.0
  {
    var v1 := [Expr(exy), Expr(eyz), Expr(ez)];
    var v2 := [Num(1.0), Num(2.0), Num(3.0)];
    assert ExprsValid(v1) by {
      assert IndexOf(exy.terms, y.id) == 1;
      assert IndexOf(eyz.terms, z.id) == 1;
    }
    assert ExprsValid(v2);
    assert v1[..2] == [Expr(exy), Expr(eyz)] && v1[..2][..1] == [Expr(exy)] && v1[..2][..1][..0] == [];
    assert IndexOf(exy.terms, x.id) == 0 && IndexOf(exy.terms, y.id) == 1 && IndexOf(exy.terms, z.id) == -1;
    assert IndexOf(eyz.terms, x.id) == -1 && IndexOf(eyz.terms, y.id) == 0 && IndexOf(eyz.terms, z.id) == 1;
    assert IndexOf(ez.terms, x.id) == -1 && IndexOf(ez.terms, y.id) == -1 && IndexOf(ez.terms, z.id) == 0;
    assert At(v2, 0) == Num(1.0) && At(v2, 1) == Num(2.0) && At(v2, 2) == Num(3.0);
    assert DotConstants(v1[..2][..1], v2) == 0.0;
    assert DotConstants(v1, v2) == 0.0;
    assert DotCoeffs(v1[..2][..1], v2, x.id) == 1.0;
    assert DotCoeffs(v1, v2, x.id) == 1.0;
    assert DotCoeffs(v1[..2][..1], v2, y.id) == 1.0;
    assert DotCoeffs(v1, v2, y.id) == 3.0;
    assert DotCoeffs(v1[..2][..1], v2, z.id) == 0.0;
    assert DotCoeffs(v1, v2, z.id) == 5.0;
    LpDotCoeff(v1, v2, x.id);
    LpDotCoeff(v1, v2, y.id);
    LpDotCoeff(v1, v2, z.id);
  }
}
