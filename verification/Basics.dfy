/** Types shared by the modules of the project. */
module Basics {

  /** Instants and durations, in nanoseconds. */
  type Time = int

  /** A nullable column or pointer. */
  datatype Option<+T> = None | Some(value: T)

  lemma {:induction false} SubsetCardinality<T>(a: set<T>, b: set<T>)
    requires a <= b
    ensures |a| <= |b|
  {
    if a != {} {
      var x :| x in a;
      SubsetCardinality(a - {x}, b - {x});
    }
  }
}
