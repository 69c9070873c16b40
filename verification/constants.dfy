/** The enumerations and symbol tables of constants.php. */
module Constants {

  /** Variable categories (`LpContinuous`, `LpInteger`, `LpBinary`). */
  datatype Category = Continuous | Integer | Binary

  /** `$LpCategories`: the label printed after a variable in the problem dump. */
  function CategoryLabel(c: Category): string
  {
    match c
    case Continuous => "Continuous"
    case Integer => "Integer"
    case Binary => "Binary"
  }

  /** Objective senses. */
  const LpMinimize: int := 1
  const LpMaximize: int := -1

  /** Constraint senses, as signed codes. */
  const LpConstraintLE: int := -1
  const LpConstraintEQ: int := 0
  const LpConstraintGE: int := 1

  predicate IsSense(s: int)
  {
    LpConstraintLE <= s <= LpConstraintGE
  }

  /** `$LpConstraintSenses`: the relation symbol of a constraint sense. */
  function SenseSymbol(s: int): string
    requires IsSense(s)
  {
    if s == LpConstraintEQ then "=" else if s == LpConstraintLE then "<=" else ">="
  }

  /** `$LpConstraintTypeToMps`: the MPS row-type letter of a constraint sense. */
  function SenseMps(s: int): string
    requires IsSense(s)
  {
    if s == LpConstraintEQ then "E" else if s == LpConstraintLE then "L" else "G"
  }

  /** Column budget of the CPLEX LP text encoder. */
  const LpCplexLPLineSize: nat := 78

  /** Initial problem status and solution status. */
  const LpStatusNotSolved: int := 0
  const LpSolutionNoSolutionFound: int := 0
}
