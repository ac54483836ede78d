/** SQL's three-valued logic: what a WHERE clause computes for one row. */
module Kleene {

  datatype Truth = True | False | Unknown

  function Of(b: bool): Truth {
    if b then True else False
  }

  function Not(t: Truth): Truth {
    match t
    case True => False
    case False => True
    case Unknown => Unknown
  }

  function And(a: Truth, b: Truth): Truth {
    if a == False || b == False then False
    else if a == True && b == True then True
    else Unknown
  }

  function Or(a: Truth, b: Truth): Truth {
    if a == True || b == True then True
    else if a == False && b == False then False
    else Unknown
  }

  /** The conjunction of any number of truth values; TRUE when there are none. */
  function All(ts: seq<Truth>): Truth {
    if exists i :: 0 <= i < |ts| && ts[i] == False then False
    else if forall i :: 0 <= i < |ts| ==> ts[i] == True then True
    else Unknown
  }

  /** The disjunction of any number of truth values; FALSE when there are none. */
  function Any(ts: seq<Truth>): Truth {
    if exists i :: 0 <= i < |ts| && ts[i] == True then True
    else if forall i :: 0 <= i < |ts| ==> ts[i] == False then False
    else Unknown
  }
}
