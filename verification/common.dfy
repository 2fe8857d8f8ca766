/** Small shared vocabulary: optional values, results, and bytes. */
module Common {

  /** An optional value, standing for the source's `undefined`/`null`. */
  datatype Option<+T> = None | Some(value: T)

  /** The outcome of an operation that may reject (a rejected promise). */
  datatype Result<+R, +E> = Ok(value: R) | Err(error: E)

  /** One byte, as an element of a `Uint8Array`. */
  type byte = b: int | 0 <= b < 256

  function Min(a: int, b: int): int
  {
    if a <= b then a else b
  }

  /** Number of occurrences of `x` in `s`. */
  function Count<T(==)>(s: seq<T>, x: T): nat
  {
    if |s| == 0 then 0 else (if s[0] == x then 1 else 0) + Count(s[1..], x)
  }

  lemma {:induction false} CountAppend<T>(a: seq<T>, b: seq<T>, x: T)
    ensures Count(a + b, x) == Count(a, x) + Count(b, x)
  {
    if |a| == 0 {
      assert a + b == b;
    } else {
      assert (a + b)[1..] == a[1..] + b;
      CountAppend(a[1..], b, x);
    }
  }

  lemma {:induction false} CountZero<T>(s: seq<T>, x: T)
    ensures Count(s, x) == 0 <==> x !in s
  {
    if |s| > 0 {
      CountZero(s[1..], x);
      assert s == [s[0]] + s[1..];
    }
  }

  /** A sequence is the concatenation of its two halves at any split point. */
  lemma SplitAt<T>(s: seq<T>, k: nat)
    requires k <= |s|
    ensures s == s[..k] + s[k..]
  {
  }
}
