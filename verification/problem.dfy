/**
 * `LpProblem`: a named objective and an insertion-ordered dictionary of named
 * constraints, the variable registry that `variables()` rebuilds from them,
 * automatic constraint names, and the text dump of the whole problem.
 */
module Problem {
  import opened Results
  import opened Text
  import opened Constants
  import opened Wrap
  import opened Variable
  import opened Terms
  import opened Format
  import opened Sorting
  import opened Expression
  import opened Constraint

  // ---------------------------------------------------------------------------
  // The variable registry
  // ---------------------------------------------------------------------------

  /** The identity tokens of a list of variables. */
  function Ids(vs: seq<LpVariable>): set<nat>
  {
    set v | v in vs :: v.id
  }

  /** No identity token occurs at two positions. */
  predicate IdsDistinct(vs: seq<LpVariable>)
  {
    forall i, j :: 0 <= i < |vs| && 0 <= j < |vs| && i != j ==> vs[i].id != vs[j].id
  }

  /** `_addVar($v)`: append `v` unless a variable with its identity is registered already. */
  function Register(vs: seq<LpVariable>, v: LpVariable): seq<LpVariable>
  {
    if v.id in Ids(vs) then vs else vs + [v]
  }

  /** `_addVar` on the variable of each entry of a term map, in order. */
  function RegisterAll(vs: seq<LpVariable>, ts: seq<Term>): seq<LpVariable>
    decreases |ts|
  {
    if ts == [] then vs else RegisterAll(Register(vs, ts[0].v), ts[1..])
  }

  /** `RegisterAll` over several term maps, in order. */
  function RegisterLists(vs: seq<LpVariable>, lists: seq<seq<Term>>): seq<LpVariable>
    decreases |lists|
  {
    if lists == [] then vs else RegisterLists(RegisterAll(vs, lists[0]), lists[1..])
  }

  /** The identity tokens occurring in any of the term maps. */
  function AllKeys(lists: seq<seq<Term>>): set<nat>
  {
    if lists == [] then {} else Keys(lists[0]) + AllKeys(lists[1..])
  }

  /** The variables occurring in any of the term maps. */
  function AllVars(lists: seq<seq<Term>>): set<LpVariable>
  {
    if lists == [] then {} else Vars(lists[0]) + AllVars(lists[1..])
  }

  /** The `usort` key of `variables()`: the variable's name. */
  function NameKey(v: LpVariable): string
  {
    v.name
  }

  /**
   * What `variables()` returns for the term maps of the objective and of the
   * constraints: the first variable seen per identity, sorted by name.
   */
  function VariablesOf(lists: seq<seq<Term>>): seq<LpVariable>
  {
    SortBy(RegisterLists([], lists), NameKey)
  }

  lemma {:induction false} RegisterCorrect(vs: seq<LpVariable>, v: LpVariable)
    ensures Ids(Register(vs, v)) == Ids(vs) + {v.id}
    ensures IdsDistinct(vs) ==> IdsDistinct(Register(vs, v))
    ensures forall w :: w in Register(vs, v) ==> w in vs || w == v
  {
    if v.id !in Ids(vs) {
      var r := vs + [v];
      assert forall w :: w in r <==> w in vs || w == v;
      assert Ids(r) == Ids(vs) + {v.id};
      if IdsDistinct(vs) {
        forall i, j | 0 <= i < |r| && 0 <= j < |r| && i != j
          ensures r[i].id != r[j].id
        {
          if i == |vs| {
            assert r[j] in vs;
          } else if j == |vs| {
            assert r[i] in vs;
          }
        }
      }
    }
  }

  /**
   * Registering the variables of a term map adds exactly its identity tokens,
   * keeps them distinct, and registers no variable from elsewhere.
   */
  lemma {:induction false} RegisterAllCorrect(vs: seq<LpVariable>, ts: seq<Term>)
    ensures Ids(RegisterAll(vs, ts)) == Ids(vs) + Keys(ts)
    ensures IdsDistinct(vs) ==> IdsDistinct(RegisterAll(vs, ts))
    ensures forall w :: w in RegisterAll(vs, ts) ==> w in vs || w in Vars(ts)
    decreases |ts|
  {
    if ts == [] {
      assert Keys(ts) == {};
    } else {
      var u := Register(vs, ts[0].v);
      RegisterCorrect(vs, ts[0].v);
      RegisterAllCorrect(u, ts[1..]);
      KeysCons(ts);
    }
  }

  lemma {:induction false} RegisterListsCorrect(vs: seq<LpVariable>, lists: seq<seq<Term>>)
    ensures Ids(RegisterLists(vs, lists)) == Ids(vs) + AllKeys(lists)
    ensures IdsDistinct(vs) ==> IdsDistinct(RegisterLists(vs, lists))
    ensures forall w :: w in RegisterLists(vs, lists) ==> w in vs || w in AllVars(lists)
    decreases |lists|
  {
    if lists != [] {
      RegisterAllCorrect(vs, lists[0]);
      RegisterListsCorrect(RegisterAll(vs, lists[0]), lists[1..]);
    }
  }

  /** A value occurring twice in a multiset occurs at two positions of the sequence. */
  lemma {:induction false} TwoPositions<T>(a: seq<T>, x: T)
    requires multiset(a)[x] >= 2
    ensures exists p, q :: 0 <= p < q < |a| && a[p] == x && a[q] == x
  {
    assert a == [a[0]] + a[1..];
    if a[0] == x {
      assert multiset(a[1..])[x] >= 1;
      var q :| 0 <= q < |a[1..]| && a[1..][q] == x;
      assert a[0] == x && a[q + 1] == x;
    } else {
      assert multiset(a[1..])[x] >= 2;
      TwoPositions(a[1..], x);
      var p, q :| 0 <= p < q < |a[1..]| && a[1..][p] == x && a[1..][q] == x;
      assert a[p + 1] == x && a[q + 1] == x;
    }
  }

  /** A value at two positions of a sequence occurs twice in its multiset. */
  lemma {:induction false} CountTwo<T>(b: seq<T>, lo: nat, hi: nat)
    requires lo < hi < |b| && b[lo] == b[hi]
    ensures multiset(b)[b[hi]] >= 2
  {
    assert b == b[..hi] + [b[hi]] + b[hi + 1..];
    assert b[lo] in b[..hi];
  }

  /** Reordering a registry keeps its members, its identity tokens and their distinctness. */
  lemma {:induction false} PermutationKeepsIds(a: seq<LpVariable>, b: seq<LpVariable>)
    requires multiset(a) == multiset(b)
    ensures forall v :: v in b <==> v in a
    ensures Ids(b) == Ids(a)
    ensures IdsDistinct(a) ==> IdsDistinct(b)
  {
    assert forall v :: v in b <==> v in multiset(b);
    assert forall v :: v in a <==> v in multiset(a);
    if IdsDistinct(a) {
      forall i, j | 0 <= i < |b| && 0 <= j < |b| && i != j
        ensures b[i].id != b[j].id
      {
        var lo, hi := if i < j then i else j, if i < j then j else i;
        if b[lo] == b[hi] {
          CountTwo(b, lo, hi);
          TwoPositions(a, b[hi]);
          assert false;
        } else {
          assert b[lo] in multiset(a) && b[hi] in multiset(a);
          MembersIdsDiffer(a, b[lo], b[hi]);
        }
      }
    }
  }

  lemma {:induction false} MembersIdsDiffer(a: seq<LpVariable>, x: LpVariable, y: LpVariable)
    requires IdsDistinct(a) && x in a && y in a && x != y
    ensures x.id != y.id
  {
    var p :| 0 <= p < |a| && a[p] == x;
    var q :| 0 <= q < |a| && a[q] == y;
    assert a[p].id != a[q].id;
  }

  /**
   * `variables()` lists every identity token that occurs in the objective or
   * in a constraint, zero coefficients included, exactly once, taking only
   * variables that occur there, in non-decreasing order of name.
   */
  lemma {:induction false} VariablesCorrect(lists: seq<seq<Term>>)
    ensures SortedBy(VariablesOf(lists), NameKey)
    ensures Ids(VariablesOf(lists)) == AllKeys(lists)
    ensures IdsDistinct(VariablesOf(lists))
    ensures forall v :: v in VariablesOf(lists) ==> v in AllVars(lists)
  {
    var u := RegisterLists([], lists);
    var r := SortBy(u, NameKey);
    assert r == VariablesOf(lists);
    RegisterListsCorrect([], lists);
    assert Ids([]) == {};
    SortByCorrect(u, NameKey);
    PermutationKeepsIds(u, r);
    forall w | w in r ensures w in AllVars(lists) {
      assert multiset(u) == multiset(r);
      assert w in multiset(r);
      assert w in multiset(u);
      assert w in u;
    }
  }

  /**
   * When distinct variables carry distinct identity tokens, the registry
   * holds an integer variable exactly when one of the term maps mentions one.
   */
  lemma {:induction false} IntegerRegistered(lists: seq<seq<Term>>)
    requires UniqueIds(AllVars(lists))
    ensures (exists v :: v in VariablesOf(lists) && v.IsInteger()) <==>
            (exists v :: v in AllVars(lists) && v.IsInteger())
  {
    var r := VariablesOf(lists);
    VariablesCorrect(lists);
    if v :| v in AllVars(lists) && v.IsInteger() {
      assert v.id in AllKeys(lists) by {
        AllVarsKeys(lists, v);
      }
      var w :| w in r && w.id == v.id;
      assert w == v;
    }
  }

  lemma {:induction false} AllVarsKeys(lists: seq<seq<Term>>, v: LpVariable)
    requires v in AllVars(lists)
    ensures v.id in AllKeys(lists)
    decreases |lists|
  {
    if v in Vars(lists[0]) {
      var t :| t in lists[0] && t.v == v;
      assert t.v.id in Keys(lists[0]);
    } else {
      AllVarsKeys(lists[1..], v);
    }
  }

  // ---------------------------------------------------------------------------
  // Automatic constraint names
  // ---------------------------------------------------------------------------

  /** `"_C{$n}"`: the automatic constraint name with counter `n`. */
  function AutoName(n: nat): string
  {
    "_C" + NatToString(n)
  }

  /** Distinct counters give distinct automatic names. */
  lemma {:induction false} AutoNameInjective(a: nat, b: nat)
    requires AutoName(a) == AutoName(b)
    ensures a == b
  {
    assert NatToString(a) == AutoName(a)[2..] == AutoName(b)[2..] == NatToString(b);
    NatToStringInjective(a, b);
  }

  /** The automatic names with a counter below `n`. */
  function Issued(n: nat): set<string>
  {
    set k: nat | k < n :: AutoName(k)
  }

  // ---------------------------------------------------------------------------
  // The problem dump
  // ---------------------------------------------------------------------------

  /** A constraint as the dump and the registry see it: its key, terms, sense and constant. */
  datatype Row = Row(key: string, terms: seq<Term>, sense: int, constant: real)

  function RowsTerms(rows: seq<Row>): seq<seq<Term>>
  {
    seq(|rows|, i requires 0 <= i < |rows| => rows[i].terms)
  }

  predicate RowsValid(rows: seq<Row>)
  {
    forall i :: 0 <= i < |rows| ==> IsSense(rows[i].sense)
  }

  /** A constraint's CPLEX LP lines under its key. */
  function RowText(r: Row): string
    requires IsSense(r.sense)
  {
    Render(ConstraintLines(r.key, r.terms, r.sense, r.constant))
  }

  /** The SUBJECT TO section: each constraint's lines, in order. */
  function ConstraintsText(rows: seq<Row>): string
    requires RowsValid(rows)
  {
    if rows == [] then "" else ConstraintsText(rows[..|rows| - 1]) + RowText(rows[|rows| - 1])
  }

  lemma {:induction false} ConstraintsTextStep(rows: seq<Row>, j: nat)
    requires RowsValid(rows) && j < |rows|
    ensures ConstraintsText(rows[..j + 1]) == ConstraintsText(rows[..j]) + RowText(rows[j])
  {
    assert rows[..j + 1][..j] == rows[..j];
  }

  /** One line of the VARIABLES section: the bounds and the category label. */
  function VariableLine(v: LpVariable): string
    reads v
  {
    v.AsCplexLpVariable() + " " + CategoryLabel(v.cat) + "\n"
  }

  function VariablesText(vs: seq<LpVariable>): string
    reads set v | v in vs
  {
    if vs == [] then "" else VariablesText(vs[..|vs| - 1]) + VariableLine(vs[|vs| - 1])
  }

  lemma {:induction false} VariablesTextStep(vs: seq<LpVariable>, i: nat)
    requires i < |vs|
    ensures VariablesText(vs[..i + 1]) == VariablesText(vs[..i]) + VariableLine(vs[i])
  {
    assert vs[..i + 1][..i] == vs[..i];
  }

  /** One `asCplexLpVariable() . " " . category . "\n"` line per variable, in order. */
  method VariablesSection(vs: seq<LpVariable>) returns (t: string)
    ensures t == VariablesText(vs)
  {
    t := "";
    for i := 0 to |vs|
      invariant t == VariablesText(vs[..i])
    {
      var line := vs[i].AsCplexLpVariable() + " " + CategoryLabel(vs[i].cat) + "\n";
      assert line == VariableLine(vs[i]);
      VariablesTextStep(vs, i);
      t := t + line;
    }
    assert vs[..|vs|] == vs;
  }

  /** The heading of the dump: the name, the sense and the objective's text (`0` when unset). */
  function DumpHead(name: string, sense: int, objective: Option<string>): string
  {
    name + ":\n" + (if sense == LpMinimize then "MINIMIZE" else "MAXIMIZE") + "\n"
      + (if objective.Some? then objective.value else "0") + "\n"
  }

  /** `__repr()`: heading, the SUBJECT TO section when there are constraints, the VARIABLES section. */
  function Dump(name: string, sense: int, objective: Option<string>, rows: seq<Row>, vs: seq<LpVariable>): string
    requires RowsValid(rows)
    reads set v | v in vs
  {
    var head := DumpHead(name, sense, objective);
    var body := if rows == [] then head else head + "SUBJECT TO\n" + ConstraintsText(rows);
    body + "VARIABLES\n" + VariablesText(vs)
  }

  // ---------------------------------------------------------------------------
  // LpProblem
  // ---------------------------------------------------------------------------

  class LpProblem {
    /** The name with spaces replaced by underscores. */
    var name: string
    var sense: int
    var objective: Option<LpAffineExpression>
    /** The constraint keys in insertion order (the order of the PHP array). */
    var names: seq<string>
    var constraints: map<string, LpConstraint>
    var status: int
    var solStatus: int
    /** `_variables` and `_variable_ids`, as last rebuilt by `variables()`. */
    var variables: seq<LpVariable>
    var variableIds: set<nat>
    var lastUnused: nat
    /** The stored constraints and their left-hand sides. */
    ghost var Footprint: set<object>

    function ObjectiveSet(): set<LpAffineExpression>
      reads this`objective
    {
      if objective.Some? then {objective.value} else {}
    }

    /** A constraint inside the footprint, with its left-hand side, and well formed. */
    ghost predicate Stored(c: LpConstraint)
      reads this`Footprint, Footprint
    {
      c in Footprint && c.expr in Footprint && c.Valid()
    }

    /** The keys are exactly the names, once each, and every stored constraint is well formed. */
    ghost predicate Keyed()
      reads this`names, this`constraints, this`Footprint, Footprint
    {
      && this !in Footprint
      && (forall j :: 0 <= j < |names| ==> names[j] in constraints && Stored(constraints[names[j]]))
      && (forall i, j :: 0 <= i < j < |names| ==> names[i] != names[j])
      && (forall n :: n in constraints ==> n in names)
    }

    /** The constraint dictionary is keyed; the registry is rebuilt on every use and constrains nothing. */
    ghost predicate Valid()
      reads this, Footprint
    {
      Keyed()
    }

    function RowOf(n: string): Row
      requires n in constraints && Stored(constraints[n])
      reads this`constraints, this`Footprint, Footprint
    {
      var c := constraints[n];
      Row(n, c.expr.terms, c.sense, c.constant)
    }

    function RowsOf(ns: seq<string>): (rows: seq<Row>)
      requires forall j :: 0 <= j < |ns| ==> ns[j] in constraints && Stored(constraints[ns[j]])
      reads this`constraints, this`Footprint, Footprint
      ensures |rows| == |ns|
      ensures forall j :: 0 <= j < |ns| ==> rows[j] == RowOf(ns[j])
    {
      if ns == [] then [] else RowsOf(ns[..|ns| - 1]) + [RowOf(ns[|ns| - 1])]
    }

    /** The constraints in insertion order. */
    function Rows(): (rows: seq<Row>)
      requires Keyed()
      reads this`names, this`constraints, this`Footprint, Footprint
      ensures |rows| == |names|
      ensures forall j :: 0 <= j < |names| ==> rows[j] == RowOf(names[j])
      ensures RowsValid(rows)
    {
      RowsOf(names)
    }

    /** The term maps `variables()` visits: the objective's first, then each constraint's. */
    function TermLists(): seq<seq<Term>>
      requires Keyed()
      reads this`objective, this`names, this`constraints, this`Footprint, Footprint, ObjectiveSet()
    {
      (if objective.Some? then [objective.value.terms] else []) + RowsTerms(Rows())
    }

    /** `(string)$this->objective`, or nothing when there is no objective. */
    function ObjectiveText(): Option<string>
      reads this`objective, ObjectiveSet()
    {
      if objective.Some? then Some(ExprText(objective.value.terms, objective.value.constant, true, None)) else None
    }

    /** `new LpProblem($name, $sense)`: no objective, no constraints, not solved. */
    constructor (name: string, sense: int)
      ensures Valid()
      ensures this.name == ReplaceChar(name, ' ', '_') && ' ' !in this.name
      ensures this.sense == sense && objective.None? && names == [] && constraints == map[]
      ensures status == LpStatusNotSolved && solStatus == LpSolutionNoSolutionFound
      ensures variables == [] && lastUnused == 0
    {
      this.name := ReplaceChar(name, ' ', '_');
      this.sense := sense;
      objective := None;
      names := [];
      constraints := map[];
      status := LpStatusNotSolved;
      solStatus := LpSolutionNoSolutionFound;
      variables := [];
      variableIds := {};
      lastUnused := 0;
      Footprint := {};
      new;
      assert Ids([]) == {};
    }

    /** `_addVar($v)`. */
    method AddVar(v: LpVariable)
      requires variableIds == Ids(variables)
      modifies this`variables, this`variableIds
      ensures variables == Register(old(variables), v) && variableIds == Ids(variables)
    {
      if v.id !in variableIds {
        RegisterCorrect(variables, v);
        variables := variables + [v];
        variableIds := variableIds + {v.id};
      }
    }

    /** `foreach ($ts as $d) $this->_addVar($d['var'])`. */
    method AddVars(ts: seq<Term>)
      requires variableIds == Ids(variables)
      modifies this`variables, this`variableIds
      ensures variables == RegisterAll(old(variables), ts) && variableIds == Ids(variables)
    {
      for i := 0 to |ts|
        invariant variableIds == Ids(variables)
        invariant RegisterAll(variables, ts[i..]) == RegisterAll(old(variables), ts)
      {
        assert ts[i..][1..] == ts[i + 1..];
        AddVar(ts[i].v);
      }
    }

    /** `AddVars` on each term map, in order. */
    method AddLists(lists: seq<seq<Term>>)
      requires variableIds == Ids(variables)
      modifies this`variables, this`variableIds
      ensures variables == RegisterLists(old(variables), lists) && variableIds == Ids(variables)
    {
      for j := 0 to |lists|
        invariant variableIds == Ids(variables)
        invariant RegisterLists(variables, lists[j..]) == RegisterLists(old(variables), lists)
      {
        assert lists[j..][1..] == lists[j + 1..];
        AddVars(lists[j]);
      }
      assert lists[|lists|..] == [];
    }

    /**
     * `variables()`: rebuild the registry from the objective and then each
     * constraint in insertion order, and sort it by name.
     */
    method Variables() returns (r: seq<LpVariable>)
      requires Valid()
      modifies this`variables, this`variableIds
      ensures Valid()
      ensures r == variables == VariablesOf(old(TermLists()))
    {
      var lists := TermLists();
      variables, variableIds := [], {};
      assert Ids([]) == {};
      AddLists(lists);
      var u := variables;
      variables := SortBy(u, NameKey);
      r := variables;

    }

    /**
     * `unusedConstraintName()`: advance the counter at least once and past
     * every automatic name that is already a key.
     */
    method UnusedConstraintName() returns (key: string)
      modifies this`lastUnused
      ensures lastUnused > old(lastUnused)
      ensures key == AutoName(lastUnused) && key !in constraints
      ensures forall k :: old(lastUnused) < k < lastUnused ==> AutoName(k) in constraints
    {
      lastUnused := lastUnused + 1;
      while AutoName(lastUnused) in constraints
        invariant lastUnused > old(lastUnused)
        invariant forall k :: old(lastUnused) < k < lastUnused ==> AutoName(k) in constraints
        decreases constraints.Keys - Issued(lastUnused)
      {
        assert AutoName(lastUnused) !in Issued(lastUnused) by {
          forall k: nat | k < lastUnused ensures AutoName(k) != AutoName(lastUnused) {
            if AutoName(k) == AutoName(lastUnused) {
              AutoNameInjective(k, lastUnused);
            }
          }
        }
        assert Issued(lastUnused + 1) == Issued(lastUnused) + {AutoName(lastUnused)};
        lastUnused := lastUnused + 1;
      }
      key := AutoName(lastUnused);
    }

    /**
     * `addConstraint($c, $name)`: anything but a constraint is a type error; a
     * given name is written onto the constraint; the key is the constraint's
     * name or else a fresh automatic one; an existing key is overwritten in
     * place, a new key goes last.
     */
    method AddConstraint(c: Addend, name: Option<string>) returns (r: Outcome)
      requires Valid()
      requires c.Con? ==> c.c.Valid()
      modifies this`names, this`constraints, this`lastUnused, this`Footprint, if c.Con? then {c.c} else {}
      ensures Valid()
      ensures !c.Con? ==> r == Fail(TypeError("Can only add LpConstraint objects"))
                          && names == old(names) && constraints == old(constraints)
      ensures c.Con? ==> r == Pass && c.c.name == (if name.Some? then name else old(c.c.name))
      ensures c.Con? ==>
        var key := if name.Some? then name.value
                   else if old(c.c.name).Some? then old(c.c.name).value
                   else AutoName(lastUnused);
        && constraints == old(constraints)[key := c.c]
        && names == (if key in old(constraints) then old(names) else old(names) + [key])
      ensures c.Con? ==> c.c.constant == old(c.c.constant) && c.c.sense == old(c.c.sense)
                         && c.c.expr == old(c.c.expr) && c.c.modified == old(c.c.modified)
      ensures c.Con? && name.None? && old(c.c.name).None? ==>
        && lastUnused > old(lastUnused) && AutoName(lastUnused) !in old(constraints)
        && forall k :: old(lastUnused) < k < lastUnused ==> AutoName(k) in old(constraints)
      ensures !(c.Con? && name.None? && old(c.c.name).None?) ==> lastUnused == old(lastUnused)
    {
      if !c.Con? {
        return Fail(TypeError("Can only add LpConstraint objects"));
      }
      var k := c.c;
      if name.Some? {
        k.name := name;
      }
      var key: string;
      if k.name.Some? {
        key := k.name.value;
      } else {
        key := UnusedConstraintName();
      }
      Store(key, k);
      r := Pass;
    }

    /** The dictionary write of `addConstraint`: a new key is also appended to the names. */
    method Store(key: string, k: LpConstraint)
      requires Keyed() && k.Valid()
      modifies this`names, this`constraints, this`Footprint
      ensures Keyed()
      ensures constraints == old(constraints)[key := k]
      ensures names == if key in old(constraints) then old(names) else old(names) + [key]
    {
      if key !in constraints {
        names := names + [key];
      }
      constraints := constraints[key := k];
      Footprint := Footprint + {k, k.expr};
    }

    /** `add($c, $name)`: `addConstraint`. */
    method Add(c: Addend, name: Option<string>) returns (r: Outcome)
      requires Valid()
      requires c.Con? ==> c.c.Valid()
      modifies this`names, this`constraints, this`lastUnused, this`Footprint, if c.Con? then {c.c} else {}
      ensures Valid()
      ensures !c.Con? ==> r == Fail(TypeError("Can only add LpConstraint objects"))
                          && names == old(names) && constraints == old(constraints)
      ensures c.Con? ==> r == Pass && c.c.name == (if name.Some? then name else old(c.c.name))
      ensures c.Con? ==>
        var key := if name.Some? then name.value
                   else if old(c.c.name).Some? then old(c.c.name).value
                   else AutoName(lastUnused);
        && constraints == old(constraints)[key := c.c]
        && names == (if key in old(constraints) then old(names) else old(names) + [key])
      ensures c.Con? ==> c.c.constant == old(c.c.constant) && c.c.sense == old(c.c.sense)
                         && c.c.expr == old(c.c.expr) && c.c.modified == old(c.c.modified)
      ensures c.Con? && name.None? && old(c.c.name).None? ==>
        && lastUnused > old(lastUnused) && AutoName(lastUnused) !in old(constraints)
        && forall k :: old(lastUnused) < k < lastUnused ==> AutoName(k) in old(constraints)
      ensures !(c.Con? && name.None? && old(c.c.name).None?) ==> lastUnused == old(lastUnused)
    {
      r := AddConstraint(c, name);
    }

    /** `setObjective($e)`: a variable is wrapped in a fresh expression; an expression is stored, not copied. */
    method SetObjective(e: Operand)
      requires e.Null? || e.Var? || e.Expr?
      modifies this`objective
      ensures e.Null? ==> objective.None?
      ensures e.Expr? ==> objective == Some(e.e)
      ensures e.Var? ==> objective.Some? && fresh(objective.value) && objective.value.Valid()
                         && objective.value.terms == [Term(e.v, 1.0)] && objective.value.constant == 0.0
    {
      match e
      case Null =>
        objective := None;
      case Expr(x) =>
        objective := Some(x);
      case Var(v) =>
        var x := new LpAffineExpression(e, 0.0, None);
        objective := Some(x);
    }

    /** `isMIP()`: whether the rebuilt registry holds an integer variable. */
    method IsMIP() returns (b: bool)
      requires Valid()
      modifies this`variables, this`variableIds
      ensures Valid() && variables == VariablesOf(old(TermLists()))
      ensures b <==> exists v :: v in variables && v.IsInteger()
    {
      var vs := Variables();
      for i := 0 to |vs|
        invariant forall k :: 0 <= k < i ==> !vs[k].IsInteger()
      {
        if vs[i].IsInteger() {
          return true;
        }
      }
      return false;
    }

    /** The heading of `__repr()`: the name, the sense and `(string)$this->objective` or `0`. */
    method Heading() returns (h: string)
      requires Keyed()
      ensures h == DumpHead(name, sense, old(ObjectiveText()))
      ensures Keyed() && Rows() == old(Rows()) && TermLists() == old(TermLists())
    {
      h := name + ":\n";
      h := h + (if sense == LpMinimize then "MINIMIZE" else "MAXIMIZE") + "\n";
      if objective.Some? {
        var t := objective.value.ToString(true, None);
        h := h + t;
      } else {
        h := h + "0";
      }
      h := h + "\n";
    }

    /** The SUBJECT TO section: `asCplexLpConstraint($n)` of each constraint, in insertion order. */
    method ConstraintsSection() returns (t: string)
      requires Keyed()
      ensures t == ConstraintsText(old(Rows()))
      ensures Keyed() && TermLists() == old(TermLists())
    {
      ghost var rows := Rows();
      t := "";
      for j := 0 to |names|
        invariant t == ConstraintsText(rows[..j])
        invariant unchanged(this, Footprint)
      {
        var n := names[j];
        var piece := constraints[n].AsCplexLpConstraint(n);
        assert piece == RowText(rows[j]);
        ConstraintsTextStep(rows, j);
        t := t + piece;
      }
      assert rows[..|names|] == rows;
    }

    /**
     * `__repr()`: the problem as text, heading first, each constraint's CPLEX
     * LP lines under its key, then one line per registered variable.
     */
    method Repr() returns (s: string)
      requires Valid()
      modifies this`variables, this`variableIds
      ensures Valid() && variables == VariablesOf(old(TermLists()))
      ensures s == Dump(name, sense, old(ObjectiveText()), old(Rows()), variables)
    {
      s := Heading();
      if names != [] {
        var t := ConstraintsSection();
        s := s + "SUBJECT TO\n" + t;
      }
      s := s + "VARIABLES\n";
      var vs := Variables();
      var t := VariablesSection(vs);
      s := s + t;
    }
  }

  /**
   * The automatic name of an unnamed constraint is the first unused one after
   * the counter: when `_C<n+1>` is free, the counter moves to exactly `n + 1`.
   */
  lemma NextAutoName(used: map<string, LpConstraint>, before: nat, after: nat)
    requires after > before && AutoName(after) !in used
    requires forall k :: before < k < after ==> AutoName(k) in used
    requires AutoName(before + 1) !in used
    ensures after == before + 1
  {
  }

  /**
   * `addConstraint` of an unnamed constraint when the name after the counter
   * is free: that name, `_C<n+1>`, is appended and the counter becomes `n + 1`;
   * the constraint itself stays unnamed.
   */
  method AddUnnamed(p: LpProblem, c: LpConstraint)
    requires p.Valid() && c.Valid() && c.name.None? && AutoName(p.lastUnused + 1) !in p.constraints
    modifies p`names, p`constraints, p`lastUnused, p`Footprint, c
    ensures p.Valid() && p.lastUnused == old(p.lastUnused) + 1 && c.name.None?
    ensures p.names == old(p.names) + [AutoName(p.lastUnused)]
    ensures p.constraints == old(p.constraints)[AutoName(p.lastUnused) := c]
  {
    ghost var before := p.constraints;
    var r := p.AddConstraint(Con(c), None);
    NextAutoName(before, old(p.lastUnused), p.lastUnused);
  }

  /**
   * Two unnamed constraints added to a new problem are stored under `_C1`
   * and `_C2`, in that order, as in test_pulp.php.
   */
  method AutoNamesExample(x: LpVariable) returns (keys: seq<string>)
    ensures keys == ["_C1", "_C2"]
  {
    var c1 := new LpConstraint(Var(x), LpConstraintLE, None, Some(5.0));
    var c2 := new LpConstraint(Var(x), LpConstraintLE, None, Some(6.0));
    var p := new LpProblem("p2", LpMinimize);
    assert AutoName(1) == "_C1" && AutoName(2) == "_C2" && "_C2"[2] != "_C1"[2];
    AddUnnamed(p, c1);
    assert p.names == ["_C1"] && p.constraints == map["_C1" := c1];
    AddUnnamed(p, c2);
    keys := p.names;
  }
}
