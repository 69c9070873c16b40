/**
 * The term map of a linear expression, as a value: an insertion-ordered list
 * of (variable, coefficient) entries keyed by the variable's identity token,
 * with the operations that the expression methods perform on it.
 */
module Terms {
  import opened Results
  import opened Text
  import opened Variable

  /** One entry of a term map: the shared variable and its accumulated coefficient. */
  datatype Term = Term(v: LpVariable, coeff: real)

  /** The identity tokens present in a term map. */
  function Keys(ts: seq<Term>): set<nat>
  {
    set t | t in ts :: t.v.id
  }

  /** Each identity token appears at most once. */
  predicate KeysDistinct(ts: seq<Term>)
  {
    forall i, j :: 0 <= i < j < |ts| ==> ts[i].v.id != ts[j].v.id
  }

  function Vars(ts: seq<Term>): set<LpVariable>
  {
    set t | t in ts :: t.v
  }

  /** Distinct variable objects carry distinct identity tokens. */
  predicate UniqueIds(vs: set<LpVariable>)
  {
    forall a, b :: a in vs && b in vs && a.id == b.id ==> a == b
  }

  /** The position of the entry keyed by `id`, or -1 when there is none (`isset`). */
  function IndexOf(ts: seq<Term>, id: nat): (i: int)
    ensures -1 <= i < |ts|
    ensures 0 <= i ==> ts[i].v.id == id
  {
    if ts == [] then -1
    else if ts[0].v.id == id then 0
    else
      var j := IndexOf(ts[1..], id);
      assert ts == [ts[0]] + ts[1..];
      if j < 0 then -1 else j + 1
  }

  lemma {:induction false} IndexOfKeys(ts: seq<Term>, id: nat)
    ensures IndexOf(ts, id) < 0 <==> id !in Keys(ts)
  {
    if ts != [] {
      KeysCons(ts);
      if ts[0].v.id != id {
        IndexOfKeys(ts[1..], id);
      }
    }
  }

  lemma {:induction false} KeysCons(ts: seq<Term>)
    requires ts != []
    ensures Keys(ts) == {ts[0].v.id} + Keys(ts[1..])
    ensures Vars(ts) == {ts[0].v} + Vars(ts[1..])
  {
    assert ts == [ts[0]] + ts[1..];
    assert forall t :: t in ts <==> t == ts[0] || t in ts[1..];
  }

  /** Term maps with the same identities position by position find every identity at the same place. */
  lemma {:induction false} IndexOfSameIds(a: seq<Term>, b: seq<Term>, id: nat)
    requires |a| == |b| && forall m :: 0 <= m < |a| ==> a[m].v.id == b[m].v.id
    ensures IndexOf(a, id) == IndexOf(b, id)
    decreases |a|
  {
    if a != [] && a[0].v.id != id {
      IndexOfSameIds(a[1..], b[1..], id);
    }
  }

  lemma {:induction false} IndexOfAppend(ts: seq<Term>, t: Term, id: nat)
    ensures IndexOf(ts + [t], id) ==
      if IndexOf(ts, id) >= 0 then IndexOf(ts, id) else if t.v.id == id then |ts| else -1
    decreases |ts|
  {
    if ts != [] && ts[0].v.id != id {
      assert (ts + [t])[1..] == ts[1..] + [t];
      IndexOfAppend(ts[1..], t, id);
    }
  }

  /** The coefficient stored under `id`, 0 when there is no entry. */
  function Coeff(ts: seq<Term>, id: nat): real
  {
    var i := IndexOf(ts, id);
    if i < 0 then 0.0 else ts[i].coeff
  }

  /** `addterm($v, $a)`: accumulate into the entry keyed by `v`, or append one. */
  function WithTerm(ts: seq<Term>, v: LpVariable, a: real): seq<Term>
  {
    var i := IndexOf(ts, v.id);
    if i < 0 then ts + [Term(v, a)] else ts[i := Term(ts[i].v, ts[i].coeff + a)]
  }

  /** `addterm($d['var'], $d['coeff'] * $s)` for each entry of `os`, in order. */
  function WithTerms(ts: seq<Term>, os: seq<Term>, s: real): seq<Term>
    decreases |os|
  {
    if os == [] then ts
    else
      var t := ScaleTerm(os[0], s);
      WithTerms(WithTerm(ts, t.v, t.coeff), os[1..], s)
  }

  /** One entry of `__mul`: same variable, coefficient times `k`. */
  function ScaleTerm(t: Term, k: real): Term
  {
    Term(t.v, t.coeff * k)
  }

  /** Every coefficient multiplied by `k`, identities and order kept. */
  function Scale(ts: seq<Term>, k: real): seq<Term>
  {
    seq(|ts|, i requires 0 <= i < |ts| => ScaleTerm(ts[i], k))
  }

  /** Every variable of the term map has an assigned value. */
  predicate Assigned(ts: seq<Term>)
    reads Vars(ts)
  {
    forall t :: t in ts ==> t.v.varValue.Some?
  }

  /** What one entry contributes to the value: the variable's value times the coefficient. */
  function Weight(t: Term): real
    requires t.v.varValue.Some?
    reads t.v
  {
    t.v.varValue.value * t.coeff
  }

  /** The sum of value times coefficient over the entries. */
  function Dot(ts: seq<Term>): real
    requires Assigned(ts)
    reads Vars(ts)
  {
    if ts == [] then 0.0
    else
      assert ts[0] in ts && forall t :: t in ts[1..] ==> t in ts;
      Weight(ts[0]) + Dot(ts[1..])
  }

  /** `value()`: the constant plus the terms' values, unknown when a variable is unassigned. */
  function Eval(c: real, ts: seq<Term>): Option<real>
    reads Vars(ts)
  {
    if Assigned(ts) then Some(c + Dot(ts)) else None
  }

  /** The sum over the entries with each variable's `ValueOrDefault()`. */
  function DotDefault(ts: seq<Term>): real
    reads Vars(ts)
  {
    if ts == [] then 0.0
    else
      assert ts[0] in ts && forall t :: t in ts[1..] ==> t in ts;
      ts[0].v.ValueOrDefault() * ts[0].coeff + DotDefault(ts[1..])
  }

  // ---------------------------------------------------------------------------
  // addterm
  // ---------------------------------------------------------------------------

  /**
   * `addterm` adds the identity of `v` to the keys, keeps the keys distinct, and
   * grows the map by one entry exactly when the identity was new.
   */
  lemma {:induction false} WithTermKeys(ts: seq<Term>, v: LpVariable, a: real)
    ensures Keys(WithTerm(ts, v, a)) == Keys(ts) + {v.id}
    ensures KeysDistinct(ts) ==> KeysDistinct(WithTerm(ts, v, a))
    ensures |WithTerm(ts, v, a)| == if v.id in Keys(ts) then |ts| else |ts| + 1
    ensures Vars(WithTerm(ts, v, a)) <= Vars(ts) + {v}
  {
    var i := IndexOf(ts, v.id);
    var r := WithTerm(ts, v, a);
    IndexOfKeys(ts, v.id);
    if i < 0 {
      assert forall t :: t in r <==> t in ts || t == Term(v, a);
    } else {
      forall k | k in Keys(ts) ensures k in Keys(r) {
        var t :| t in ts && t.v.id == k;
        var j :| 0 <= j < |ts| && ts[j] == t;
        assert r[j].v.id == k;
      }
      forall t | t in r ensures t in ts || t.v == ts[i].v {
        var j :| 0 <= j < |r| && r[j] == t;
      }
    }
  }

  /**
   * `addterm(v, a)` adds `a` to the coefficient stored under `v`'s identity and
   * leaves every other identity's coefficient as it was.
   */
  lemma {:induction false} WithTermCoeff(ts: seq<Term>, v: LpVariable, a: real, id: nat)
    ensures Coeff(WithTerm(ts, v, a), id) == Coeff(ts, id) + (if id == v.id then a else 0.0)
  {
    var i := IndexOf(ts, v.id);
    var r := WithTerm(ts, v, a);
    if i < 0 {
      IndexOfAppend(ts, Term(v, a), id);
    } else {
      IndexOfSameIds(r, ts, id);
    }
  }

  /**
   * Two `addterm` calls for the same variable leave one entry whose coefficient
   * is the sum: the same map as a single `addterm` with `a + b`.
   */
  lemma {:induction false} WithTermTwice(ts: seq<Term>, v: LpVariable, a: real, b: real)
    ensures WithTerm(WithTerm(ts, v, a), v, b) == WithTerm(ts, v, a + b)
  {
    var i := IndexOf(ts, v.id);
    var r := WithTerm(ts, v, a);
    if i < 0 {
      IndexOfAppend(ts, Term(v, a), v.id);
    } else {
      IndexOfSameIds(r, ts, v.id);
    }
  }

  /** An entry whose coefficient nets to zero is kept, not pruned. */
  lemma {:induction false} WithTermKeepsZero(ts: seq<Term>, v: LpVariable)
    requires v.id in Keys(ts)
    ensures v.id in Keys(WithTerm(ts, v, -Coeff(ts, v.id)))
    ensures Coeff(WithTerm(ts, v, -Coeff(ts, v.id)), v.id) == 0.0
    ensures |WithTerm(ts, v, -Coeff(ts, v.id))| == |ts|
  {
    WithTermKeys(ts, v, -Coeff(ts, v.id));
    WithTermCoeff(ts, v, -Coeff(ts, v.id), v.id);
  }

  // ---------------------------------------------------------------------------
  // addInPlace of an expression: a sequence of addterm calls
  // ---------------------------------------------------------------------------

  /** With distinct keys, the head entry and the rest contribute separately to a coefficient. */
  lemma {:induction false} CoeffCons(os: seq<Term>, id: nat)
    requires os != [] && KeysDistinct(os)
    ensures Coeff(os, id) == (if os[0].v.id == id then os[0].coeff else 0.0) + Coeff(os[1..], id)
  {
    assert forall j :: 0 <= j < |os[1..]| ==> os[1..][j].v.id != os[0].v.id;
  }

  /** Merging `os` scaled by `s` adds exactly the identities of `os` and keeps the keys distinct. */
  lemma {:induction false} WithTermsKeys(ts: seq<Term>, os: seq<Term>, s: real)
    ensures Keys(WithTerms(ts, os, s)) == Keys(ts) + Keys(os)
    ensures KeysDistinct(ts) ==> KeysDistinct(WithTerms(ts, os, s))
    ensures Vars(WithTerms(ts, os, s)) <= Vars(ts) + Vars(os)
    decreases |os|
  {
    if os != [] {
      var t := ScaleTerm(os[0], s);
      var ts' := WithTerm(ts, t.v, t.coeff);
      WithTermKeys(ts, t.v, t.coeff);
      WithTermsKeys(ts', os[1..], s);
      KeysCons(os);
    }
  }

  /**
   * Merging `os` scaled by `s` adds `s` times each of its coefficients to the
   * coefficient under the same identity.
   */
  lemma {:induction false} WithTermsCoeff(ts: seq<Term>, os: seq<Term>, s: real, id: nat)
    requires KeysDistinct(os)
    ensures Coeff(WithTerms(ts, os, s), id) == Coeff(ts, id) + s * Coeff(os, id)
    decreases |os|
  {
    if os != [] {
      var t := ScaleTerm(os[0], s);
      var ts' := WithTerm(ts, t.v, t.coeff);
      KeysDistinctTail(os);
      WithTermsCoeff(ts', os[1..], s, id);
      WithTermCoeff(ts, t.v, t.coeff, id);
      CoeffCons(os, id);
      if os[0].v.id == id {
        CoeffTail(os, id);
        ScaleSum(s, Coeff(os, id), os[0].coeff, Coeff(os[1..], id));
      } else {
        ScaleSum(s, Coeff(os, id), 0.0, Coeff(os[1..], id));
      }
    }
  }

  /** `s * (y + z)` distributed, with the product written as the merge writes it. */
  lemma {:induction false} ScaleSum(s: real, x: real, y: real, z: real)
    requires x == y + z
    ensures s * x == y * s + s * z
  {
  }

  lemma {:induction false} KeysDistinctTail(os: seq<Term>)
    requires os != [] && KeysDistinct(os)
    ensures KeysDistinct(os[1..])
  {
  }

  /** Past the entry keyed by `id`, a term map with distinct keys has no coefficient for `id`. */
  lemma {:induction false} CoeffTail(os: seq<Term>, id: nat)
    requires os != [] && KeysDistinct(os) && os[0].v.id == id
    ensures Coeff(os[1..], id) == 0.0
  {
    IndexOfKeys(os[1..], id);
  }

  // ---------------------------------------------------------------------------
  // Scaling (__mul, __truediv, __neg)
  // ---------------------------------------------------------------------------

  /** Scaling multiplies every coefficient and keeps the identities and their order. */
  lemma {:induction false} ScaleCoeff(ts: seq<Term>, k: real, id: nat)
    ensures Keys(Scale(ts, k)) == Keys(ts)
    ensures KeysDistinct(ts) ==> KeysDistinct(Scale(ts, k))
    ensures Vars(Scale(ts, k)) == Vars(ts)
    ensures Coeff(Scale(ts, k), id) == k * Coeff(ts, id)
  {
    var r := Scale(ts, k);
    ScaleVars(ts, k);
    IndexOfSameIds(r, ts, id);
  }

  lemma {:induction false} ScaleVars(ts: seq<Term>, k: real)
    ensures Keys(Scale(ts, k)) == Keys(ts)
    ensures Vars(Scale(ts, k)) == Vars(ts)
  {
    var r := Scale(ts, k);
    forall x | x in Keys(ts) ensures x in Keys(r) {
      var t :| t in ts && t.v.id == x;
      var j :| 0 <= j < |ts| && ts[j] == t;
      assert r[j].v.id == x;
    }
    forall x | x in Vars(ts) ensures x in Vars(r) {
      var t :| t in ts && t.v == x;
      var j :| 0 <= j < |ts| && ts[j] == t;
      assert r[j].v == x;
    }
    forall x | x in Keys(r) ensures x in Keys(ts) {
      var t :| t in r && t.v.id == x;
      var j :| 0 <= j < |r| && r[j] == t;
      assert ts[j].v.id == x;
    }
    forall x | x in Vars(r) ensures x in Vars(ts) {
      var t :| t in r && t.v == x;
      var j :| 0 <= j < |r| && r[j] == t;
      assert ts[j].v == x;
    }
  }

  lemma {:induction false} ScaleAppend(ts: seq<Term>, t: Term, k: real)
    ensures Scale(ts + [t], k) == Scale(ts, k) + [ScaleTerm(t, k)]
  {
    var a := Scale(ts + [t], k);
    var b := Scale(ts, k) + [ScaleTerm(t, k)];
    forall j | 0 <= j < |a| ensures a[j] == b[j] {
      if j < |ts| {
        assert (ts + [t])[j] == ts[j];
      }
    }
  }

  /** One step of the `__mul` loop: the scaled prefix grows by the scaled entry. */
  lemma {:induction false} ScalePrefix(ts: seq<Term>, i: nat, k: real)
    requires i < |ts|
    ensures Scale(ts[..i + 1], k) == Scale(ts[..i], k) + [ScaleTerm(ts[i], k)]
  {
    var a, b := ts[..i], ts[..i + 1];
    assert b == a + [ts[i]];
    ScaleAppend(a, ts[i], k);
  }

  /** Dividing by `k` and multiplying back by `k` restores the term map. */
  lemma {:induction false} ScaleRoundTrip(ts: seq<Term>, k: real)
    requires k != 0.0
    ensures Scale(Scale(ts, 1.0 / k), k) == ts
  {
    var r := Scale(Scale(ts, 1.0 / k), k);
    forall i | 0 <= i < |ts| ensures r[i] == ts[i] {
      assert ts[i].coeff * (1.0 / k) * k == ts[i].coeff;
    }
  }

  // ---------------------------------------------------------------------------
  // Values
  // ---------------------------------------------------------------------------

  /** A coefficient split in two splits the entry's contribution. */
  lemma {:induction false} WeightSplit(v: LpVariable, c: real, d: real)
    requires v.varValue.Some?
    ensures Weight(Term(v, c + d)) == Weight(Term(v, c)) + Weight(Term(v, d))
  {
    var x := v.varValue.value;
    assert x * (c + d) == x * c + x * d;
  }

  /** Scaling an entry by `k` scales its contribution by `k`. */
  lemma {:induction false} WeightScale(t: Term, k: real)
    requires t.v.varValue.Some?
    ensures Weight(ScaleTerm(t, k)) == k * Weight(t)
  {
    var x := t.v.varValue.value;
    assert x * (t.coeff * k) == k * (x * t.coeff);
  }

  lemma {:induction false} DotAppend(ts: seq<Term>, t: Term)
    requires Assigned(ts) && t.v.varValue.Some?
    ensures Assigned(ts + [t])
    ensures Dot(ts + [t]) == Dot(ts) + Weight(t)
    decreases |ts|
  {
    if ts != [] {
      assert (ts + [t])[1..] == ts[1..] + [t];
      DotAppend(ts[1..], t);
    }
  }

  lemma {:induction false} DotUpdate(ts: seq<Term>, i: nat, delta: real)
    requires i < |ts| && Assigned(ts)
    ensures Assigned(ts[i := Term(ts[i].v, ts[i].coeff + delta)])
    ensures Dot(ts[i := Term(ts[i].v, ts[i].coeff + delta)]) == Dot(ts) + Weight(Term(ts[i].v, delta))
    decreases i
  {
    var r := ts[i := Term(ts[i].v, ts[i].coeff + delta)];
    assert forall t :: t in r ==> t in ts || t.v == ts[i].v;
    if i > 0 {
      assert r[1..] == ts[1..][i - 1 := Term(ts[i].v, ts[i].coeff + delta)];
      DotUpdate(ts[1..], i - 1, delta);
    } else {
      assert r[1..] == ts[1..];
      WeightSplit(ts[0].v, ts[0].coeff, delta);
      assert Term(ts[0].v, ts[0].coeff) == ts[0];
    }
  }

  /** `addterm(v, a)` raises the value of the terms by `a` times `v`'s value. */
  lemma {:induction false} DotWithTerm(ts: seq<Term>, v: LpVariable, a: real)
    requires Assigned(ts) && v.varValue.Some?
    requires UniqueIds(Vars(ts) + {v})
    ensures Assigned(WithTerm(ts, v, a))
    ensures Dot(WithTerm(ts, v, a)) == Dot(ts) + Weight(Term(v, a))
  {
    var i := IndexOf(ts, v.id);
    if i < 0 {
      DotAppend(ts, Term(v, a));
    } else {
      assert ts[i] in ts;
      assert ts[i].v == v;
      DotUpdate(ts, i, a);
    }
  }

  lemma {:induction false} DotCons(ts: seq<Term>)
    requires ts != [] && Assigned(ts)
    ensures Assigned(ts[1..])
    ensures Dot(ts) == Weight(ts[0]) + Dot(ts[1..])
  {
    assert forall t :: t in ts[1..] ==> t in ts;
  }

  lemma {:induction false} UniqueIdsSubset(a: set<LpVariable>, b: set<LpVariable>)
    requires a <= b && UniqueIds(b)
    ensures UniqueIds(a)
  {
  }

  lemma {:induction false} ScaleCons(os: seq<Term>, s: real)
    requires os != []
    ensures Scale(os, s)[0] == ScaleTerm(os[0], s)
    ensures Scale(os, s)[1..] == Scale(os[1..], s)
  {
    assert forall i :: 0 <= i < |os| - 1 ==> Scale(os, s)[1..][i] == Scale(os[1..], s)[i];
  }

  lemma {:induction false} DotScaleCons(os: seq<Term>, s: real)
    requires os != [] && Assigned(os)
    ensures Assigned(Scale(os, s)) && Assigned(Scale(os[1..], s))
    ensures Dot(Scale(os, s)) == Weight(ScaleTerm(os[0], s)) + Dot(Scale(os[1..], s))
  {
    assert Assigned(Scale(os, s)) && Assigned(Scale(os[1..], s)) by {
      ScaleVars(os, s);
      ScaleVars(os[1..], s);
      assert forall t :: t in os[1..] ==> t in os;
    }
    ScaleCons(os, s);
    DotCons(Scale(os, s));
  }

  /** The merge step for one entry of `os`. */
  lemma {:induction false} DotWithTermsStep(ts: seq<Term>, os: seq<Term>, s: real)
    requires os != [] && Assigned(ts) && Assigned(os)
    requires UniqueIds(Vars(ts) + Vars(os))
    ensures var t := ScaleTerm(os[0], s);
      && Assigned(WithTerm(ts, t.v, t.coeff)) && Assigned(os[1..])
      && UniqueIds(Vars(WithTerm(ts, t.v, t.coeff)) + Vars(os[1..]))
      && Dot(WithTerm(ts, t.v, t.coeff)) == Dot(ts) + Weight(t)
  {
    var t := ScaleTerm(os[0], s);
    assert os[0] in os;
    assert Vars(os) == {os[0].v} + Vars(os[1..]) by { KeysCons(os); }
    UniqueIdsSubset(Vars(ts) + {t.v}, Vars(ts) + Vars(os));
    DotWithTerm(ts, t.v, t.coeff);
    assert Term(t.v, t.coeff) == t;
    assert Vars(WithTerm(ts, t.v, t.coeff)) <= Vars(ts) + {t.v} by {
      WithTermKeys(ts, t.v, t.coeff);
    }
    UniqueIdsSubset(Vars(WithTerm(ts, t.v, t.coeff)) + Vars(os[1..]), Vars(ts) + Vars(os));
    assert forall u :: u in os[1..] ==> u in os;
  }

  lemma {:induction false} DotWithTermsScaled(ts: seq<Term>, os: seq<Term>, s: real)
    requires Assigned(ts) && Assigned(os)
    requires UniqueIds(Vars(ts) + Vars(os))
    ensures Assigned(WithTerms(ts, os, s)) && Assigned(Scale(os, s))
    ensures Dot(WithTerms(ts, os, s)) == Dot(ts) + Dot(Scale(os, s))
    decreases |os|
  {
    if os != [] {
      var t := ScaleTerm(os[0], s);
      var ts' := WithTerm(ts, t.v, t.coeff);
      DotWithTermsStep(ts, os, s);
      DotScaleCons(os, s);
      DotWithTermsScaled(ts', os[1..], s);
    } else {
      assert Scale(os, s) == [];
    }
  }

  /**
   * Merging `os` scaled by `s` raises the value of the terms by `s` times the
   * value of `os`, when identities are not shared between distinct variables.
   */
  lemma {:induction false} DotWithTerms(ts: seq<Term>, os: seq<Term>, s: real)
    requires Assigned(ts) && Assigned(os)
    requires UniqueIds(Vars(ts) + Vars(os))
    ensures Assigned(WithTerms(ts, os, s))
    ensures Dot(WithTerms(ts, os, s)) == Dot(ts) + s * Dot(os)
  {
    DotWithTermsScaled(ts, os, s);
    DotScale(os, s);
  }

  /** `k * (a + b)` distributed. */
  lemma {:induction false} Distribute(k: real, a: real, b: real, e: real)
    requires e == a + b
    ensures k * e == k * a + k * b
  {
  }

  /** Scaling the terms by `k` scales their value by `k`. */
  lemma {:induction false} DotScale(ts: seq<Term>, k: real)
    requires Assigned(ts)
    ensures Assigned(Scale(ts, k))
    ensures Dot(Scale(ts, k)) == k * Dot(ts)
    decreases |ts|
  {
    if ts != [] {
      DotScaleCons(ts, k);
      DotCons(ts);
      DotScale(ts[1..], k);
      WeightScale(ts[0], k);
      Distribute(k, Weight(ts[0]), Dot(ts[1..]), Dot(ts));
    } else {
      ScaleVars(ts, k);
    }
  }

  /** The first `addterm` of a merge. */
  lemma {:induction false} WithTermsCons(ts: seq<Term>, os: seq<Term>, s: real)
    requires os != []
    ensures WithTerms(ts, os, s) == WithTerms(WithTerm(ts, os[0].v, os[0].coeff * s), os[1..], s)
  {
    assert ScaleTerm(os[0], s) == Term(os[0].v, os[0].coeff * s);
  }

  /** One `addterm` step of merging `os`, taken at position `i`. */
  lemma {:induction false} WithTermsStep(ts: seq<Term>, os: seq<Term>, i: nat, s: real)
    requires i < |os|
    ensures WithTerms(WithTerm(ts, os[i].v, os[i].coeff * s), os[i + 1..], s) == WithTerms(ts, os[i..], s)
  {
    var r := os[i..];
    WithTermsCons(ts, r, s);
    assert r[0] == os[i] && r[1..] == os[i + 1..];
    var a, b := r[0].coeff * s, os[i].coeff * s;
    assert a == b;
    assert WithTerm(ts, r[0].v, a) == WithTerm(ts, os[i].v, b);
  }

  lemma {:induction false} DotDefaultAppend(ts: seq<Term>, t: Term)
    ensures DotDefault(ts + [t]) == DotDefault(ts) + t.v.ValueOrDefault() * t.coeff
    decreases |ts|
  {
    if ts != [] {
      assert (ts + [t])[1..] == ts[1..] + [t];
      DotDefaultAppend(ts[1..], t);
    } else {
      assert ([] + [t])[1..] == [];
    }
  }

  /** One step of the `valueOrDefault()` loop: the running sum after entry `i`. */
  lemma {:induction false} DotDefaultPrefix(c: real, ts: seq<Term>, i: nat, r: real)
    requires i < |ts| && r == c + DotDefault(ts[..i])
    ensures r + ts[i].v.ValueOrDefault() * ts[i].coeff == c + DotDefault(ts[..i + 1])
  {
    assert ts[..i + 1] == ts[..i] + [ts[i]];
    DotDefaultAppend(ts[..i], ts[i]);
  }

  /** With every variable assigned, the defaulted sum is the sum of the assigned values. */
  lemma {:induction false} DotDefaultAssigned(ts: seq<Term>)
    requires Assigned(ts)
    ensures DotDefault(ts) == Dot(ts)
    decreases |ts|
  {
    if ts != [] {
      DotCons(ts);
      assert ts[0] in ts;
      DotDefaultAssigned(ts[1..]);
    }
  }

  /**
   * The value of `e1` merged with `e2` scaled by `s` (constant and terms) is the
   * value of `e1` plus `s` times the value of `e2`.
   */
  lemma {:induction false} EvalWithTerms(c1: real, ts1: seq<Term>, c2: real, ts2: seq<Term>, s: real, c: real)
    requires Eval(c1, ts1).Some? && Eval(c2, ts2).Some?
    requires UniqueIds(Vars(ts1) + Vars(ts2))
    requires c == c1 + c2 * s
    ensures Eval(c, WithTerms(ts1, ts2, s)).Some?
    ensures Eval(c, WithTerms(ts1, ts2, s)).value == Eval(c1, ts1).value + s * Eval(c2, ts2).value
  {
    var w := WithTerms(ts1, ts2, s);
    DotWithTerms(ts1, ts2, s);
    var v1, v2 := Eval(c1, ts1).value, Eval(c2, ts2).value;
    assert v1 == c1 + Dot(ts1) && v2 == c2 + Dot(ts2);
    Collect(c1, c2, s, c, Dot(w), Dot(ts1), Dot(ts2), v1, v2);
  }

  lemma {:induction false} Collect(c1: real, c2: real, s: real, c: real, dw: real, d1: real, d2: real, v1: real, v2: real)
    requires c == c1 + c2 * s && dw == d1 + s * d2 && v1 == c1 + d1 && v2 == c2 + d2
    ensures c + dw == v1 + s * v2
  {
  }

  /** Scaling the constant and the terms by `k` scales the value by `k`. */
  lemma {:induction false} EvalScale(c: real, ts: seq<Term>, k: real, ck: real)
    requires Eval(c, ts).Some?
    requires ck == c * k
    ensures Eval(ck, Scale(ts, k)).Some?
    ensures Eval(ck, Scale(ts, k)).value == k * Eval(c, ts).value
  {
    assert Assigned(Scale(ts, k)) && ck + Dot(Scale(ts, k)) == k * Eval(c, ts).value by {
      DotScale(ts, k);
      Factor(c, Dot(ts), k, Eval(c, ts).value, ck, Dot(Scale(ts, k)));
    }
  }

  lemma {:induction false} Factor(c: real, d: real, k: real, v: real, ck: real, dk: real)
    requires v == c + d && ck == c * k && dk == k * d
    ensures ck + dk == k * v
  {
  }

  /** The value is known exactly when every variable of the terms is assigned. */
  lemma {:induction false} EvalKnown(c: real, ts: seq<Term>)
    ensures Eval(c, ts).Some? <==> forall i :: 0 <= i < |ts| ==> ts[i].v.varValue.Some?
  {
  }
}
