/** Shared by every model: optional values, the outcome of one API write, and listings. */
module Common {

  datatype Option<+T> = None | Some(value: T)

  datatype Result<+T> = Success(value: T) | Failure

  /** How one write request against the API server ends.
      Ok: it landed and the caller was told so.  Lost: it landed, the caller sees an error.
      Rejected: nothing was written and the caller sees an error. */
  datatype Outcome = Ok | Lost | Rejected {
    predicate Landed() {
      !Rejected?
    }
  }

  ghost function Elems<T>(xs: seq<T>): set<T> {
    set x | x in xs
  }

  ghost predicate Distinct<T>(xs: seq<T>) {
    forall i, j | 0 <= i < j < |xs| :: xs[i] != xs[j]
  }

  /** Going one element further in a listing without repetition. */
  lemma ElemsStep<T>(xs: seq<T>, i: nat)
    requires i < |xs| && Distinct(xs)
    ensures Elems(xs[..i + 1]) == Elems(xs[..i]) + {xs[i]} && xs[i] !in Elems(xs[..i])
    ensures Elems(xs[..i + 1]) <= Elems(xs) && xs[i] in Elems(xs)
  {
    assert xs[..i + 1] == xs[..i] + [xs[i]];
    assert forall x | x in xs[..i + 1] :: x in xs;
  }
}
