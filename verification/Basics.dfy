// Small vocabulary shared by the other modules.
module Basics {
  datatype Option<+T> = None | Some(value: T)

  // Actor, hazard, tenant and run identifiers are strings in the program.
  type Id = string

  function Max(a: real, b: real): real { if a >= b then a else b }

  function Min(a: real, b: real): real { if a <= b then a else b }

  function Abs(a: real): real { if a >= 0.0 then a else -a }

  function Reverse<T>(s: seq<T>): (r: seq<T>)
    ensures |r| == |s|
    ensures forall i :: 0 <= i < |s| ==> r[i] == s[|s| - 1 - i]
  {
    if s == [] then [] else [s[|s| - 1]] + Reverse(s[..|s| - 1])
  }

  ghost predicate Distinct<T>(s: seq<T>) {
    forall i, j :: 0 <= i < j < |s| ==> s[i] != s[j]
  }

  // -- checks made in an order ------------------------------------------------------------------------

  // The error is the first that applies, in the order of `place`, and there is none if none does.
  ghost predicate IsFirst<E(!new)>(applies: E -> bool, place: E -> nat, e: Option<E>) {
    match e
    case None => forall x: E :: !applies(x)
    case Some(x) => applies(x) && forall y: E :: place(y) < place(x) ==> !applies(y)
  }

  // What that says of one error x.
  ghost predicate Fits<E>(applies: bool, place: E -> nat, x: E, e: Option<E>) {
    match e
    case None => !applies
    case Some(y) => (x == y ==> applies) && (place(x) < place(y) ==> !applies)
  }

  lemma AllFit<E(!new)>(applies: E -> bool, place: E -> nat, e: Option<E>)
    requires forall x: E :: Fits(applies(x), place, x, e)
    ensures IsFirst(applies, place, e)
  {
    match e
    case None =>
      forall x: E ensures !applies(x) {
        assert Fits(applies(x), place, x, e);
      }
    case Some(y) =>
      assert Fits(applies(y), place, y, e);
      forall x: E | place(x) < place(y) ensures !applies(x) {
        assert Fits(applies(x), place, x, e);
      }
  }
}
