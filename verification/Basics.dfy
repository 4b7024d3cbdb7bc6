/** Types shared by the models, and joining lists. */
module Basics {
  datatype Option<T> = None | Some(value: T)

  type Byte = b: int | 0 <= b < 256

  /** The parts with the separator between them. */
  function Join<T>(parts: seq<seq<T>>, separator: seq<T>): seq<T> {
    if parts == [] then []
    else if |parts| == 1 then parts[0]
    else parts[0] + separator + Join(parts[1..], separator)
  }

  /** A separator stands between any two parts, and nowhere else. */
  lemma {:induction false} JoinMeaning<T>(a: seq<seq<T>>, b: seq<seq<T>>, separator: seq<T>)
    requires a != [] && b != []
    ensures Join(a + b, separator) == Join(a, separator) + separator + Join(b, separator)
    ensures |a| == 1 ==> Join(a, separator) == a[0]
  {
    if |a| == 1 {
      assert (a + b)[1..] == b;
    } else {
      JoinMeaning(a[1..], b, separator);
      assert (a + b)[1..] == a[1..] + b;
    }
  }
}
