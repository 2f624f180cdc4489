/** Arithmetic of 12-bit sequence numbers, as used by the receive reordering window. */
module SeqNum {

  /** Sequence numbers are 0..4095. */
  const MAX_TID_VALUE := 4096
  /** Half of the sequence number space. */
  const TWOPOW11 := 2048

  predicate IsSeq(s: int) {
    0 <= s < MAX_TID_VALUE
  }

  /** `x & (MAX_TID_VALUE - 1)` of the C code, for any integer. */
  function Mask(x: int): (r: int)
    ensures IsSeq(r)
  {
    x % MAX_TID_VALUE
  }

  /** How far `to` lies ahead of `from`, going forward round the circle. */
  function Dist(from: int, to: int): (d: int)
    ensures IsSeq(d)
    ensures Mask(from + d) == Mask(to)
  {
    Mask(to - from)
  }

  /** A forward distance determines the number it leads to. */
  lemma DistUnique(from: int, to: int, d: int)
    requires IsSeq(d) && Mask(from + d) == Mask(to)
    ensures Dist(from, to) == d
  {
  }

  /** Moving the origin forward by `n` shortens every distance that was at least `n`. */
  lemma DistShift(from: int, n: int, to: int)
    requires 0 <= n <= Dist(from, to)
    ensures Dist(from + n, to) == Dist(from, to) - n
    ensures Dist(Mask(from + n), to) == Dist(from, to) - n
  {
    DistUnique(from + n, to, Dist(from, to) - n);
  }

  /** Distances below `n` become distances just under a full turn. */
  lemma DistShiftBehind(from: int, n: int, to: int)
    requires Dist(from, to) < n <= MAX_TID_VALUE
    ensures Dist(from + n, to) == Dist(from, to) - n + MAX_TID_VALUE
    ensures Dist(Mask(from + n), to) == Dist(from, to) - n + MAX_TID_VALUE
  {
    DistUnique(from + n, to, Dist(from, to) - n + MAX_TID_VALUE);
  }

  lemma MaskAdd(a: int, b: int)
    ensures Mask(Mask(a) + b) == Mask(a + b)
  {
  }

  lemma DistMask(from: int, to: int)
    ensures Dist(Mask(from), to) == Dist(from, to)
  {
    MaskAdd(from, Dist(from, to));
    DistUnique(Mask(from), to, Dist(from, to));
  }

  lemma DistOf(from: int, d: int)
    requires IsSeq(d)
    ensures Dist(from, Mask(from + d)) == d
  {
    DistUnique(from, Mask(from + d), d);
  }

  lemma MaskOfSeq(s: int)
    requires IsSeq(s)
    ensures Mask(s) == s
  {
  }
}
