/**
 * The receive reordering buffer control operation of section 9.21.7.6 of IEEE Std 802.11-2012,
 * on a partial map from sequence numbers to payloads.  Nothing here knows about arrays or rotation.
 */
module RxStandard {
  import opened SeqNum

  datatype RecvBuffer<P> = RecvBuffer(winStart: int, winSize: nat, held: map<int, P>)

  datatype Result<P> = Result(buffer: RecvBuffer<P>, out: seq<P>, ok: bool)

  /** The payloads numbered start, start + 1, ... start + n - 1, as far as they are held. */
  function PassUp<P>(held: map<int, P>, start: int, n: nat): seq<P>
    decreases n
  {
    if n == 0 then []
    else (if start in held then [held[start]] else []) + PassUp(held, Mask(start + 1), n - 1)
  }

  /** Moving WinStart forward by `n`, passing up what falls out of the window, in order. */
  function Advance<P>(b: RecvBuffer<P>, n: nat): Result<P> {
    Result(RecvBuffer(Mask(b.winStart + n), b.winSize,
                      map k | k in b.held && Dist(b.winStart, k) >= n :: b.held[k]),
           PassUp(b.held, b.winStart, n), true)
  }

  /** How many numbers from `start` on are held without a gap. */
  function InSequence<P>(held: map<int, P>, start: int, limit: nat): nat
    decreases limit
  {
    if limit == 0 || start !in held then 0 else 1 + InSequence(held, Mask(start + 1), limit - 1)
  }

  /** Passing up, in order, from WinStart until a number is missing. */
  function Release<P>(b: RecvBuffer<P>): Result<P> {
    Advance(b, InSequence(b.held, b.winStart, b.winSize))
  }

  /** Reception of a data MPDU. */
  function ReceiveData<P>(b: RecvBuffer<P>, sn: int, p: P): Result<P> {
    var d := Dist(b.winStart, sn);
    if d >= TWOPOW11 then Result(b, [], false)
    else
      var slid := if d < b.winSize then Result(b, [], true) else Advance(b, d - b.winSize + 1);
      if sn in slid.buffer.held then Result(slid.buffer, slid.out, false)
      else
        var r := Release(slid.buffer.(held := slid.buffer.held[sn := p]));
        Result(r.buffer, slid.out + r.out, true)
  }

  /** Reception of a BlockAckReq. */
  function ReceiveBar<P>(b: RecvBuffer<P>, sn: int): Result<P> {
    var d := Dist(b.winStart, sn);
    if d >= TWOPOW11 then Result(b, [], false)
    else
      var slid := Advance(b, d);
      var r := Release(slid.buffer);
      Result(r.buffer, slid.out + r.out, true)
  }

  /** Reordering timeout: everything held goes up, and WinStart moves just past the last of it. */
  ghost predicate IsTimeout<P>(b: RecvBuffer<P>, r: Result<P>) {
    exists n: nat :: n <= b.winSize && IsUsedSpan(b, n) && r == Advance(b, n)
  }

  ghost predicate IsUsedSpan<P>(b: RecvBuffer<P>, n: nat) {
    && (forall k :: k in b.held ==> Dist(b.winStart, k) < n)
    && (n > 0 ==> Mask(b.winStart + n - 1) in b.held)
  }
}
