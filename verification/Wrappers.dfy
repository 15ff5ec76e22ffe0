/** What the other modules share: optional values, results, and facts about maps. */
module Wrappers {

  datatype Option<+T> = None | Some(value: T)

  datatype Result<+T> = Success(value: T) | Failure
  {
    predicate IsFailure() {
      Failure?
    }

    function PropagateFailure<U>(): Result<U>
      requires Failure?
    {
      Failure
    }

    function Extract(): T
      requires Success?
    {
      value
    }
  }

  lemma PlusEmpty<X, Y>(a: map<X, Y>)
    ensures map[] + a == a && a + map[] == a
  {
  }

  lemma Regroup<X, Y>(a: map<X, Y>, s: map<X, Y>, t: map<X, Y>, m: map<X, Y>)
    requires t.Keys !! s.Keys && t.Keys !! m.Keys
    ensures a + (t + s + m) == a + s + m + t
    ensures a + (s + t + m) == a + s + m + t
  {
  }
}
