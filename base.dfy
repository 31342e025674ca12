/** Small shared vocabulary: an optional value and order-preserving subsequences. */
module Base {

  /** A value that may be absent (JavaScript `undefined`/`null`, Python `None`). */
  datatype Option<+T> = None | Some(value: T)

  /** `a` is obtained from `b` by deleting elements, keeping the order of the rest. */
  predicate IsSubseq<T(==)>(a: seq<T>, b: seq<T>)
    decreases |b|
  {
    if a == [] then true
    else if b == [] then false
    else if a[0] == b[0] then IsSubseq(a[1..], b[1..])
    else IsSubseq(a, b[1..])
  }

  /** Every subsequence is at most as long as the sequence it was taken from. */
  lemma {:induction false} SubseqLength<T>(a: seq<T>, b: seq<T>)
    requires IsSubseq(a, b)
    ensures |a| <= |b|
    decreases |b|
  {
    if a != [] {
      if a[0] == b[0] {
        SubseqLength(a[1..], b[1..]);
      } else {
        SubseqLength(a, b[1..]);
      }
    }
  }

  /** Dropping the head of the larger sequence keeps a subsequence relation. */
  lemma {:induction false} SubseqOfTail<T>(a: seq<T>, b: seq<T>)
    requires b != [] && IsSubseq(a, b[1..])
    ensures IsSubseq(a, b)
    decreases |b|
  {
    if a != [] && a[0] == b[0] {
      SubseqConsDrop(a, b[1..]);
      SubseqOfTail(a[1..], b[1..]);
    }
  }

  /** Helper for SubseqOfTail: if `a` is in `b`, its tail is in the tail of `b`. */
  lemma {:induction false} SubseqConsDrop<T>(a: seq<T>, b: seq<T>)
    requires a != [] && IsSubseq(a, b)
    ensures b != [] && IsSubseq(a[1..], b[1..])
    decreases |b|
  {
    if a[0] != b[0] {
      SubseqConsDrop(a, b[1..]);
      SubseqOfTail(a[1..], b[1..]);
    }
  }
}
