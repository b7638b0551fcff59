/** The two result shapes every repository call of the service answers with. */
module Wrappers {

  datatype Option<+T> = None | Some(value: T)

  /** The error classes a repository call can answer with: the row is missing,
      or the database call itself failed. */
  datatype RepoError = ErrNotFound | ErrDatabase

  datatype Result<+T> = Ok(value: T) | Err(error: RepoError)

  /** The row a SELECT by a unique column finds. */
  function IndexWhere<T>(rows: seq<T>, has: T -> bool): (r: Option<nat>)
    ensures r.Some? ==> r.value < |rows| && has(rows[r.value])
    ensures r.None? ==> forall i :: 0 <= i < |rows| ==> !has(rows[i])
  {
    if rows == [] then None
    else if has(rows[|rows| - 1]) then Some(|rows| - 1)
    else IndexWhere(rows[..|rows| - 1], has)
  }

  /** UPDATE ... WHERE: every row the condition selects is changed. */
  function UpdateWhere<T>(rows: seq<T>, has: T -> bool, f: T -> T): (out: seq<T>)
    ensures |out| == |rows|
    ensures forall i :: 0 <= i < |rows| ==> out[i] == if has(rows[i]) then f(rows[i]) else rows[i]
  {
    seq(|rows|, i requires 0 <= i < |rows| => if has(rows[i]) then f(rows[i]) else rows[i])
  }

  /** By a unique column it changes exactly one row. */
  lemma UpdateHitsOneRow<T>(rows: seq<T>, has: T -> bool, f: T -> T, i: nat)
    requires i < |rows| && has(rows[i])
    requires forall j :: 0 <= j < |rows| && j != i ==> !has(rows[j])
    ensures UpdateWhere(rows, has, f) == rows[i := f(rows[i])]
  {
  }
}
