/** The boolean query expression tree (package tmsu/query). The Go source
    dispatches on a type switch with a panicking default branch; here the
    variants form a closed datatype, so that branch has no counterpart. */
module Query {

  datatype Expression =
    | Empty
    | Tag(name: string)
    | Comparison(tag: string, operator: string, value: string)
    | And(left: Expression, right: Expression)
    | Or(left: Expression, right: Expression)
    | Not(operand: Expression)

  /** The leaves (tag and comparison nodes) of an expression. */
  function Leaves(e: Expression): set<Expression>
  {
    match e
    case Empty => {}
    case Tag(_) => {e}
    case Comparison(_, _, _) => {e}
    case And(l, r) => Leaves(l) + Leaves(r)
    case Or(l, r) => Leaves(l) + Leaves(r)
    case Not(x) => Leaves(x)
  }
}
