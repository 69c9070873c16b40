# pulp.php core in Dafny

A model of the modelling layer of `pulp.php`, a PHP port of the PuLP linear
programming modeller. It covers:

- decision variables (`LpVariable`) with bounds, a category and a value;
- affine expressions (`LpAffineExpression`), which keep a constant and an
  insertion-ordered term map keyed by variable identity;
- constraints (`LpConstraint`), which keep an expression, a sense (`<=`, `=`,
  `>=`) and their own constant;
- problems (`LpProblem`), which keep an objective, a dictionary of named
  constraints, a variable registry rebuilt on demand, automatic `_C<n>`
  constraint names and a text dump of the whole problem;
- the helpers `lpSum` and `lpDot`, which build an expression from lists.

Modules, in dependency order:

- `Results` holds the error types (`TypeError`, division by zero).
- `Constants` holds the category, sense and status codes.
- `Text` holds the number and string formatting: exact rounding to 12
  decimals, trailing-zero trimming and string replacement.
- `Sorting` holds the `strcmp` order and an insertion sort standing in for
  `usort`.
- `Wrap` holds the greedy packing of tokens into LP-file lines.
- `Terms` holds the term map as a sequence of `(variable, coefficient)` with
  distinct identity keys. It also holds `addterm`, scaling, and evaluation
  against the variables' values.
- `Format` holds the `toString` and LP-format renderings.
- `Variable` holds `LpVariable` and `dicts`.
- `Expression` holds `LpAffineExpression`.
- `Constraint` holds `LpConstraint` and the comparison builders `__le`,
  `__ge` and `__eq`.
- `Problem` holds `LpProblem`.
- `Helpers` holds `lpSum` and `lpDot`.

Objects whose fields pulp.php updates in place are classes: variables,
expressions, constraints and problems. `spl_object_hash` is replaced by a
constant identity token `id` on each variable. Reals stand in for PHP
floats, so arithmetic is exact.

## Model

| member | source | states |
|---|---|---|
| Variable.LpVariable.constructor | pulp.php:35-45 | the bounds and their originals are the given ones; a binary variable becomes integer on [0, 1] |
| Variable.LpVariable.ValueOrDefault | pulp.php:53-64 | the assigned value if there is one; otherwise a point within consistent bounds that is closest to zero |
| Variable.LpVariable.Bounds | pulp.php:66-68 | sets both bounds and marks the variable modified; the value is kept |
| Variable.LpVariable.FixValue | pulp.php:69 | with a value, both bounds become that value and the variable is constant; without one, nothing changes |
| Variable.LpVariable.UnfixValue | pulp.php:70 | restores the original bounds |
| Variable.LpVariable.IsValid | pulp.php:72-79 | an unassigned variable is valid exactly when it is named `__dummy`; an assigned one exactly when it is at most eps above the upper bound, at most eps below the lower bound and, for an integer variable, within eps of its rounding; so a value within the bounds, and whole for an integer variable, is valid for every eps >= 0, and at eps 0 that is the only way to be valid |
| Variable.LpVariable.RoundedValue | pulp.php:81-86 | unknown iff the value is; never more than eps from the value; an integer variable's value within eps of its rounding becomes exactly that whole number; any other value (non-integer variable, or farther than eps) is returned unchanged |
| Variable.RoundedValueExample | test_pulp.php:394-401 | with tolerance 1e-5, 4.9999999 rounds to 5 and 4.5 stays 4.5 |
| Variable.AsCplexLpVariableShape | pulp.php:88-96 | the exact line for every case: `name free` for a free variable, `name = lb` for a fixed one; otherwise `-inf <= name <= ub` with no lower bound, `name <= ub` for a continuous variable bounded below by 0, and `lb <= name <= ub` or `lb <= name` for any other lower bound; the prefix and suffix of the line are also stated separately |
| Variable.VariableKinds | pulp.php:48-51 | a variable is binary exactly when it is integer with upper bound 1 and lower bound 0 or none, and a binary variable is neither free nor fixed; free means every value is within bounds; fixed means equal bounds or, by the loose comparison, lower bound 0 and no upper bound, and with both bounds exactly one value is within them |
| Variable.AsCplexLpVariableExamples | pulp.php:88-96 | bound renderings `xf <= 4`, `xfr free`, `-5 <= xlo`, `xcx = 3`, `0 <= b <= 1`; the loose comparison prints lower bound 0 with no upper bound as `z = 0` |
| Variable.Dicts | pulp.php:98-102 | one fresh variable per index, named `<name>_<index>`, sharing the given bounds and category, with pairwise distinct identities |
| Terms.IndexOfKeys | pulp.php:131-135 | a variable is looked up in the term map exactly when its identity is a key |
| Terms.WithTermKeys | pulp.php:131-135 | `addterm` adds the key if it is missing and keeps the keys distinct; it grows the map only for a new key |
| Terms.WithTermCoeff | pulp.php:131-135 | `addterm` adds the coefficient to that variable's entry and leaves every other coefficient alone |
| Terms.WithTermTwice | pulp.php:131-135 | two `addterm` calls for one variable are one call with the summed coefficient |
| Terms.WithTermKeepsZero | pulp.php:131-135 | cancelling a coefficient keeps the variable in the map with coefficient 0 |
| Terms.WithTermsKeys | pulp.php:166-176 | adding a term map adds its keys and keeps the keys distinct |
| Terms.WithTermsCoeff | pulp.php:166-176 | adding a term map with a sign adds sign times each of its coefficients |
| Terms.ScaleCoeff | pulp.php:184-191 | scaling keeps the keys and multiplies every coefficient |
| Terms.ScaleRoundTrip | pulp.php:193-196 | scaling by 1/k and then by k gives the terms back |
| Terms.EvalKnown | pulp.php:150-157 | an expression's value is known iff every variable in it has a value |
| Terms.DotWithTerms | pulp.php:166-176 | the weighted sum of an addition is the first sum plus sign times the second |
| Terms.DotScale | pulp.php:184-191 | the weighted sum of a scaled map is the scale times the sum |
| Terms.EvalWithTerms | pulp.php:166-176 | when all variables are assigned, the value of a sum of expressions is the sum of their values |
| Terms.EvalScale | pulp.php:184-191 | when all variables are assigned, the value of a scaled expression is the scaled value |
| Terms.DotDefaultAssigned | pulp.php:150-163 | when every variable is assigned, `valueOrDefault` agrees with `value` |
| Expression.LpAffineExpression.constructor | pulp.php:114-129 | an expression is copied with its own constant; a variable gives one unit term, is atomic and its atom is that variable; a number gives the constant; pairs are added by `addterm` |
| Expression.ExpressionKinds | pulp.php:137-139 | a numerical constant has no atom and its value is its constant; an atomic expression has one variable, its atom, and with coefficient exactly 1 its value is that variable's value |
| Expression.LpAffineExpression.AddTerm | pulp.php:131-135 | the term map becomes the `addterm` update; the constant and name are kept |
| Expression.LpAffineExpression.Copy | pulp.php:142-148 | a fresh expression with the same constant, name and terms in the same order |
| Expression.LpAffineExpression.Value | pulp.php:150-157 | the constant plus the weighted values; unknown as soon as one variable is unassigned |
| Expression.LpAffineExpression.ValueOrDefault | pulp.php:159-163 | the constant plus the weighted default values; equal to `value()` when every variable is assigned |
| Expression.LpAffineExpression.AddInPlace | pulp.php:166-176 | a number moves the constant by sign times it; a variable gets `addterm` with the sign; an expression adds sign times its constant and terms; null changes nothing |
| Expression.LpAffineExpression.SubInPlace | pulp.php:178 | `addInPlace` with sign -1, case by case |
| Expression.LpAffineExpression.Add | pulp.php:180 | a fresh expression equal to this plus the operand; this is unchanged |
| Expression.LpAffineExpression.Sub | pulp.php:181 | a fresh expression equal to this minus the operand; this is unchanged |
| Expression.LpAffineExpression.Neg | pulp.php:182 | a fresh expression with the constant and every coefficient negated |
| Expression.LpAffineExpression.Mul | pulp.php:184-191 | a non-number is a TypeError; otherwise a fresh unnamed expression with the constant and every coefficient scaled, keys in the same order |
| Expression.LpAffineExpression.TrueDiv | pulp.php:193-196 | a non-number is a TypeError and 0 is a division by zero; otherwise the product by the reciprocal |
| Expression.LpAffineExpression.ToString | pulp.php:222-241 | the text of the terms sorted by name, with signs as separators and the constant or override appended |
| Expression.LpAffineExpression.AsCplexVariablesOnly | pulp.php:251-267 | the LP-format term tokens packed greedily into lines after `name:` |
| Expression.LpAffineExpression.AsCplexLpAffineExpression | pulp.php:269-286 | the packed term lines plus ` 0` for no terms or the signed constant, newline-terminated |
| Format.SortedCorrect | pulp.php:216-220 | the terms sorted by variable name are ordered by `strcmp` and are a permutation of the map |
| Format.AffineLinesWrapped | pulp.php:251-286 | with terms, the lines hold the name, the sorted term tokens and the constant token in order, and every line fits the LP line size or is a single token; without terms, the single line is `name: 0` |
| Format.ConstraintLinesWrapped | pulp.php:383-394 | the lines hold the name, the sorted term tokens (or `0`) and the right-hand side in order; every line after the first fits the LP line size or is a single token, and so does the first when there are terms |
| Format.ExprTextExample | pulp.php:222-241 | `2*x - 3*y + 5` for terms given as -3y, 2x and constant 5 |
| Format.ZeroTermExample | pulp.php:222-241 | a coefficient that nets to zero still prints, as `x + 0*z` |
| Format.CplexTextExample | pulp.php:251-286 | the LP form of `x - y + 3` named `obj` |
| Wrap.PackKeepsTokens | pulp.php:251-267 | packing keeps every token in order |
| Wrap.PackWraps | pulp.php:251-267 | every packed line after the first fits the line size or holds one token |
| Wrap.PackIsGreedy | pulp.php:251-267 | the first line extends the given one, no line is empty, and no token could have joined the line before it |
| Sorting.SortByCorrect | pulp.php:216-220 | the sort is ordered by the key and is a permutation of its input |
| Sorting.StrLeTotalPreorder | pulp.php:218 | the `strcmp` order is total and transitive |
| Text.Round | pulp.php:72-86 | rounding half away from zero: within 0.5 of the input, and exact on integers |
| Text.RTrimZeros | pulp.php:227 | the result is a prefix of the input with no trailing `0`, and everything removed is a `0` |
| Text.StrOfInt | pulp.php:227 | a whole number prints as its integer text |
| Text.NatToStringInjective | pulp.php:442-446 | distinct counters give distinct decimal texts |
| Text.ReplaceChar | pulp.php:417 | every space becomes an underscore and nothing else changes |
| Constraint.SenseOrIsBitwiseOr | pulp.php:336 | the sense table agrees bit for bit with PHP's `\|=` on two's-complement integers |
| Constraint.EffectiveSign | pulp.php:333 | the sign flips exactly when the two senses point opposite ways |
| Constraint.CombinedSenseTable | pulp.php:332-337 | an equality operand keeps the sense; equal senses added stay; an equality takes the operand's signed sense; equal senses subtracted become `<=`; `>=` added to `<=` leaves `<=` |
| Constraint.LpConstraint.constructor | pulp.php:302-312 | the expression is a fresh copy or wrapping of the operand, and the constant is the expression's constant minus the right-hand side |
| Constraint.LpConstraint.GetLb | pulp.php:314-316 | a lower bound `-constant` exactly for `>=` and `=` |
| Constraint.LpConstraint.GetUb | pulp.php:317-319 | an upper bound `-constant` exactly for `<=` and `=` |
| Constraint.LpConstraint.BoundsOfSense | pulp.php:314-319 | every constraint has at least one bound, and both bounds coincide exactly for `=` |
| Constraint.LpConstraint.AddTerm | pulp.php:322 | delegates `addterm` to the expression; the constant is kept |
| Constraint.LpConstraint.Copy | pulp.php:325-330 | a fresh constraint and expression with the same terms, constant, sense and name |
| Constraint.LpConstraint.AddInPlace | pulp.php:332-347 | a constraint operand adds with the effective sign and or-s in its signed sense; a number or an expression moves the constant; an expression or a variable is added to the expression |
| Constraint.LpConstraint.AddConstraintOperand | pulp.php:333-337 | the constraint case of `addInPlace`: the sign flips when the senses disagree, the other constant and expression are added with that sign, and the signed sense is or-ed in |
| Constraint.LpConstraint.SubInPlace | pulp.php:349 | `addInPlace` with sign -1: a constraint's sense is or-ed in and its constant and terms are subtracted; a number lowers the constant; an expression subtracts its terms and constant; a variable subtracts a unit term; null and pairs change nothing |
| Constraint.LpConstraint.ChangeRHS | pulp.php:351 | the constant becomes minus the new right-hand side; nothing else changes |
| Constraint.LpConstraint.Value | pulp.php:353-360 | the constraint's constant plus the weighted values; unknown when a variable is unassigned |
| Constraint.LpConstraint.IsValid | pulp.php:362-367 | true exactly when the value is known and within eps of zero for `=`, or on the right side of zero by eps otherwise |
| Constraint.LpConstraint.ToString | pulp.php:369-374 | the terms without constant, the sense symbol and minus the constant |
| Constraint.LpConstraint.AsCplexLpConstraint | pulp.php:383-394 | the packed term lines, `0` for no terms, then the sense and right-hand side, packed onto the last line if it fits |
| Constraint.LpConstraint.AsCplexLpAffineExpression | pulp.php:396-398 | the expression's LP form with the constraint's constant as override |
| Constraint.Compare | pulp.php:199-213 | a number becomes the right-hand side; otherwise a fresh constraint on the difference of the two sides |
| Constraint.Le | pulp.php:199-203 | `__le`: a fresh, unnamed, well-formed constraint with sense `<=` over a fresh expression: `e - x` for a number, `e - v` for a variable, `e - f` for an expression, `e` itself otherwise |
| Constraint.Ge | pulp.php:204-208 | `__ge`: as `__le`, with sense `>=` |
| Constraint.Eq | pulp.php:209-213 | `__eq`: as `__le`, with sense `=` |
| Constraint.ConstraintTextExample | pulp.php:369-374 | `x + y <= 10` prints as written |
| Problem.RegisterCorrect | pulp.php:423-429 | `_addVar` adds a variable only if its identity is new, and keeps the identities distinct |
| Problem.RegisterAllCorrect | pulp.php:431-437 | registering a term map adds exactly its identities |
| Problem.RegisterListsCorrect | pulp.php:431-437 | registering the objective and every constraint adds exactly their identities |
| Problem.PermutationKeepsIds | pulp.php:438 | sorting the registry keeps its members and their distinct identities |
| Problem.VariablesCorrect | pulp.php:431-440 | `variables()` is sorted by name, holds exactly one variable per identity used in the objective or a constraint, and nothing else |
| Problem.IntegerRegistered | pulp.php:463-466 | some registered variable is integer iff some variable used in the objective or a constraint is |
| Problem.AutoNameInjective | pulp.php:442-446 | distinct counters give distinct `_C<n>` names |
| Problem.VariablesSection | pulp.php:476-478 | the `VARIABLES` section: one line per variable with its bounds and category |
| Problem.LpProblem.constructor | pulp.php:416-421 | spaces in the name become underscores; no objective, constraints or variables; not solved |
| Problem.LpProblem.AddVar | pulp.php:423-429 | the registry and its identity set are updated as `_addVar` does |
| Problem.LpProblem.Variables | pulp.php:431-440 | rebuilds the registry from the objective and the constraints, sorted by name |
| Problem.LpProblem.UnusedConstraintName | pulp.php:442-446 | the counter advances past every name in use and the returned `_C<n>` is unused |
| Problem.LpProblem.AddConstraint | pulp.php:448-454 | a non-constraint is a TypeError; a given name renames the constraint; an unnamed constraint gets the lowest unused `_C<n>` above the counter, skipping only names in use; the dictionary maps the name to the constraint and keeps insertion order; the constraint's constant, sense and expression are untouched |
| Problem.AddUnnamed | pulp.php:442-453 | with `_C<n+1>` free, an unnamed constraint is stored under exactly that name, appended to the order, the counter becomes n + 1, and the constraint object stays unnamed |
| Problem.AutoNamesExample | test_pulp.php:234-239 | two unnamed constraints added to a new problem are stored as `_C1` then `_C2` |
| Problem.LpProblem.Store | pulp.php:453 | the dictionary update: a new key is appended, an existing key keeps its place and takes the new constraint |
| Problem.LpProblem.Add | pulp.php:456 | the same as `addConstraint`, including the counter and the untouched constraint |
| Problem.LpProblem.SetObjective | pulp.php:458-461 | a variable is wrapped in a fresh unit expression; an expression is stored as is |
| Problem.LpProblem.IsMIP | pulp.php:463-466 | true exactly when the rebuilt registry holds an integer variable |
| Problem.LpProblem.Heading | pulp.php:468-471 | the name, the `MINIMIZE`/`MAXIMIZE` line and the objective text or `0` |
| Problem.LpProblem.ConstraintsSection | pulp.php:472-475 | each constraint's LP form under its key, in insertion order |
| Problem.LpProblem.Repr | pulp.php:468-480 | the whole dump: the heading, `SUBJECT TO` and the constraints when there are any, and the rebuilt, sorted `VARIABLES` section |
| Helpers.LpSum | pulp.php:495-499 | a fresh, unnamed, well-formed expression equal to the fold of the items' forms added in order |
| Helpers.AddItem | pulp.php:497 | one `lpSum` step: the item's form is added to the expression in place |
| Helpers.LpSumCoeff | pulp.php:495-499 | the sum's constant is the sum of the items' constants; each coefficient is the sum of the items' coefficients; keys are distinct |
| Helpers.LpSumValue | pulp.php:495-499 | the sum's value is the sum of the items' values, and unknown iff one of them is |
| Helpers.FoldCoeff | pulp.php:495-499 | adding forms one after another adds their constants and coefficients |
| Helpers.FoldValue | pulp.php:495-499 | adding forms one after another adds their values, and the result is unknown iff one of them is |
| Helpers.AddPair | pulp.php:505-524 | one `lpDot` step: two numbers add their product to the constant; a number and a variable add a scaled term; a number and an expression add the scaled expression; anything else adds nothing |
| Helpers.LpDot | pulp.php:501-527 | a fresh, unnamed, well-formed expression equal to the fold of the pairs' forms; a missing second item counts as null |
| Helpers.PairFormCoeff | pulp.php:507-524 | a pair contributes the product rule of its two sides when one side is a number |
| Helpers.LpDotCoeff | pulp.php:501-527 | the dot product's constant and coefficients are the sums of the pairs' contributions; keys are distinct |
| Helpers.PairFormValue | pulp.php:507-524 | a pair's value is the product of its sides' values when one side is a number, and 0 otherwise |
| Helpers.LpDotValue | pulp.php:501-527 | the dot product's value is the sum of the pairs' values, and unknown iff one of them is |
| Helpers.LpDotExample | test_pulp.php:292-302 | `lpDot([x + y, y + z, z], [1, 2, 3])` is `x + 3y + 5z` |

## Left out

- `solve`, `LpSolverDefault` and `writeLP`: a solver call and file output. `Problem.LpProblem.Repr` gives the text that `writeLP` writes.
- `dj`, `pi` and `slack` are only written by a solver, so they are not modelled.
- The `__repr` of an expression and of a constraint are debugging renderings. They are not modelled.
- `getTerms` returns the term map itself, which the model exposes as the `terms` field.
- `utilities.php` is not part of this model.
- PHP float printing: `(string)` of a non-integral float is approximated by 12-decimal formatting with trailing zeros trimmed. Negative zero and float rounding are not modelled.
- `spl_object_hash` collisions: the value lemmas require the variables' identities to be distinct per object (`UniqueIds`).
- Numeric strings (`is_numeric` on a string) are not operands. A number is a `Num`.
- A null sense in `LpConstraint::__toString` is not modelled; a sense is always one of `<=`, `=`, `>=`.
- `lpDot` over non-array iterables (`iterator_to_array`) is not modelled. Both arguments are sequences.
- `lpSum` and `lpDot` items that are constraints: PHP's `addInPlace` ignores them. The operand type here has no constraint case, so such items cannot be given.
- `Constraint.LpConstraint.AddInPlace`: requires the sign to be 1 or -1, the only values pulp.php passes. The or-ed sense is modelled for those signs only.
- `Problem.LpProblem.SetObjective`: requires null, a variable or an expression. pulp.php also stores a bare number, which the model does not represent.
- `Helpers.LpDot`: requires each expression operand to be well formed (distinct keys), as every expression built by the model is.
- The `_variable_ids` registry is rebuilt only by `variables()`, as in pulp.php. The model does not track it between rebuilds.
- Line packing measures text in characters (`|Concat(line)|` in `Wrap`), while PHP's `strlen` (pulp.php:262, 280, 389) counts bytes. Names with multi-byte UTF-8 characters can wrap at different places.
- `Variable.Dicts`: takes integer indices only and returns an unordered map. PHP also accepts string keys and keeps the insertion order of `$indices` (pulp.php:98-102).
- Default arguments are explicit parameters: `roundedValue`'s eps of 1e-5 (pulp.php:81), `valid`'s eps of 0 (pulp.php:362), and the `LpProblem` name `NoName` and sense `LpMinimize` (pulp.php:416).
