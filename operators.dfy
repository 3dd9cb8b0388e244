/** The four operations of the quiz and their two spellings: the one the
    expression is evaluated in and the LaTeX one it is shown in
    (script.js:242-246, repeated for fractions at script.js:294-298). */
module Operators {

  datatype Op = Add | Sub | Mul | Div

  /** The operation named by the topic string; any other name means addition. */
  function OpOf(opType: string): (op: Op)
    ensures op == Sub <==> opType == "subtraction"
    ensures op == Mul <==> opType == "multiplication"
    ensures op == Div <==> opType == "division"
  {
    if opType == "subtraction" then Sub
    else if opType == "multiplication" then Mul
    else if opType == "division" then Div
    else Add
  }

  /** The operator in the evaluated form. */
  function Sym(op: Op): string
  {
    match op
    case Add => "+"
    case Sub => "-"
    case Mul => "*"
    case Div => "/"
  }

  /** The operator in the displayed form. */
  function LatexSym(op: Op): string
  {
    match op
    case Add => "+"
    case Sub => "-"
    case Mul => "\\times"
    case Div => "\\div"
  }

  /** Both spellings are single non-empty tokens, and each spelling tells the
      operation apart from the others. */
  lemma SymbolsAreTokens(op: Op, other: Op)
    ensures |Sym(op)| >= 1 && ' ' !in Sym(op)
    ensures |LatexSym(op)| >= 1 && ' ' !in LatexSym(op)
    ensures Sym(op) == Sym(other) <==> op == other
    ensures LatexSym(op) == LatexSym(other) <==> op == other
  {
  }
}
