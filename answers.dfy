/**
 * What a relation evaluator hands back for one clause: a truth value (both
 * arguments fixed), the lines matching the one open argument, the matching
 * lines of both open arguments, or nothing at all (a Python function that
 * falls off its end and returns None). The evaluators return Python lists;
 * the query evaluator only ever turns them into sets, so they are sets here.
 */
module Answers {

  datatype Answer =
    | Truth(holds: bool)
    | Lines(lines: set<int>)
    | LinePairs(left: set<int>, right: set<int>)
    | NoAnswer

  /** The statement kinds the Parent* evaluator accepts for the kind STMT. */
  const StatementKinds: set<string> := {"WHILE", "IF", "CALL", "ASSIGN"}

  /** The set of elements of a sequence. */
  function Elements(xs: seq<int>): (r: set<int>)
    ensures forall x :: x in r <==> x in xs
  {
    set x | x in xs
  }
}
