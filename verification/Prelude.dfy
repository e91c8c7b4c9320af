/** Result and option types shared by the modules of this project. */
module Prelude {
  datatype Option<+T> = None | Some(value: T)

  /** A normal return, or the value thrown. */
  datatype Result<+T, +E> = Ok(value: T) | Err(error: E)

  /** A subset has no more elements. */
  lemma {:induction false} SubsetCount<T>(a: set<T>, b: set<T>)
    requires a <= b
    ensures |a| <= |b|
  {
    if a != {} {
      var x :| x in a;
      SubsetCount(a - {x}, b - {x});
    }
  }

  /** Sequences are equal exactly when their heads and tails are. */
  lemma SameCons<T>(a: T, x: seq<T>, b: T, y: seq<T>)
    ensures [a] + x == [b] + y <==> a == b && x == y
  {
    assert ([a] + x)[1..] == x && ([b] + y)[1..] == y && ([a] + x)[0] == a && ([b] + y)[0] == b;
  }
}
