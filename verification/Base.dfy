/** Types shared by every model: bytes and the outcomes of operations that can fail. */
module Base {
  type byte = x: nat | x < 256
  type septet = x: nat | x < 128
  type nibble = x: nat | x < 16

  datatype Option<+T> = None | Some(value: T)

  /** `Raised` stands for the exception the source lets escape. */
  datatype Result<+T, +E> = Ok(value: T) | Raised(error: E)

  lemma Regrouped<T>(a: seq<T>, b: seq<T>, c: seq<T>)
    ensures a + b + c == a + (b + c)
  {
  }

  lemma Alone<T>(a: seq<T>)
    ensures [] + a == a && a + [] == a
  {
  }

  lemma SameLast<T>(xs: seq<T>, x: T, ys: seq<T>, y: T)
    requires xs + [x] == ys + [y]
    ensures xs == ys && x == y
  {
    assert xs == (xs + [x])[..|xs + [x]| - 1] && ys == (ys + [y])[..|ys + [y]| - 1];
    assert x == (xs + [x])[|xs|] && y == (ys + [y])[|ys|];
  }
}
