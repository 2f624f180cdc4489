/**
 * The A-MSDU format of section 8.3.2.2 of IEEE Std 802.11-2012, as the driver prints and parses it.
 * Frames are Ethernet II frames; inside an A-MSDU each carries an RFC 1042 LLC/SNAP header.
 */
module AmsduFormat {
  import opened Wrappers

  /** Two MAC addresses. */
  const ADDRESSES := 12
  /** An IEEE 802.3 header: addresses and a 16-bit length or type. */
  const ETH_HDR := 14
  const LLC_SNAP_LEN := 8
  /** Longest buffer the receive path parses. */
  const MLAN_RX_DATA_BUF_SIZE := 4352

  const RFC1042: seq<Byte> := [0xaa, 0xaa, 0x03, 0, 0, 0]

  /** A 16-bit value in network order; wider values are truncated, as the cast to t_u16 does. */
  function Be16(n: nat): (s: seq<Byte>)
    ensures |s| == 2
  {
    [n / 256 % 256, n % 256]
  }

  function FromBe16(hi: Byte, lo: Byte): (n: nat)
    ensures n < 65536
  {
    hi * 256 + lo
  }

  lemma Be16RoundTrip(n: nat)
    requires n < 65536
    ensures FromBe16(Be16(n)[0], Be16(n)[1]) == n
  {
  }

  /** Bytes that bring `n` to a multiple of four. */
  function Pad(n: nat): (p: nat)
    ensures p < 4 && (n + p) % 4 == 0
  {
    if n % 4 != 0 then 4 - n % 4 else 0
  }

  /** wlan_11n_form_amsdu_pkt, without the padding. */
  function Subframe(frame: seq<Byte>): (s: seq<Byte>)
    requires |frame| >= ETH_HDR
    ensures |s| == |frame| + LLC_SNAP_LEN
  {
    frame[..ADDRESSES] + Be16(|frame| + LLC_SNAP_LEN - ETH_HDR) + RFC1042 + frame[ADDRESSES..]
  }

  ghost predicate AllFrames(frames: seq<seq<Byte>>) {
    forall i :: 0 <= i < |frames| ==> |frames[i]| >= ETH_HDR
  }

  /** Bytes a padded subframe takes. */
  function PaddedLength(frame: seq<Byte>): (n: nat)
    requires |frame| >= ETH_HDR
    ensures n >= |frame| + LLC_SNAP_LEN
  {
    |frame| + LLC_SNAP_LEN + Pad(|frame| + LLC_SNAP_LEN)
  }

  /** `b` is the subframes of `frames`, each but the last padded to four bytes; padding bytes are arbitrary. */
  ghost predicate IsBody(b: seq<Byte>, frames: seq<seq<Byte>>)
    requires AllFrames(frames)
  {
    if frames == [] then b == []
    else
      var s := Subframe(frames[0]);
      var n := PaddedLength(frames[0]);
      if |frames| == 1 then b == s
      else n <= |b| && b[..|s|] == s && IsBody(b[n..], frames[1..])
  }

  ghost predicate StartsWith(b: seq<Byte>, frame: seq<Byte>)
    requires |frame| >= ETH_HDR
  {
    PaddedLength(frame) <= |b| && b[..|frame| + LLC_SNAP_LEN] == Subframe(frame)
  }

  lemma BodyCons(b: seq<Byte>, frames: seq<seq<Byte>>)
    requires AllFrames(frames) && |frames| > 1 && StartsWith(b, frames[0])
    requires IsBody(b[PaddedLength(frames[0])..], frames[1..])
    ensures IsBody(b, frames)
  {
  }

  lemma BodyOne(b: seq<Byte>, frames: seq<seq<Byte>>)
    requires AllFrames(frames) && |frames| == 1 && b == Subframe(frames[0])
    ensures IsBody(b, frames)
  {
  }

  /** A body of two or more frames up to `cut`, seen one subframe further on. */
  lemma BodyFurther(b: seq<Byte>, cut: nat, frames: seq<seq<Byte>>)
    requires AllFrames(frames) && |frames| > 2 && cut <= |b| && IsBody(b[..cut], frames[..|frames| - 1])
    ensures |frames[0]| >= ETH_HDR && AllFrames(frames[1..])
    ensures var n := PaddedLength(frames[0]);
            n <= cut && StartsWith(b, frames[0]) && IsBody(b[n..][..cut - n], frames[1..][..|frames| - 2])
  {
    hide Subframe, Pad;
    var n := PaddedLength(frames[0]);
    assert b[..cut][n..] == b[n..][..cut - n];
    assert frames[..|frames| - 1][1..] == frames[1..][..|frames| - 2];
  }

  /** A body of one frame, its padding, and one more subframe. */
  lemma BodySecond(b: seq<Byte>, cut: nat, pad: nat, frames: seq<seq<Byte>>)
    requires AllFrames(frames) && |frames| == 2 && cut + pad <= |b|
    requires IsBody(b[..cut], frames[..1]) && pad == Pad(|frames[0]| + LLC_SNAP_LEN)
    requires b[cut + pad..] == Subframe(frames[1])
    ensures IsBody(b, frames)
  {
    hide Subframe, Pad;
    assert frames[..1][0] == frames[0] && frames[1..][0] == frames[1];
    assert b[..cut] == b[..|frames[0]| + LLC_SNAP_LEN];
    BodyOne(b[cut + pad..], frames[1..]);
    BodyCons(b, frames);
  }

  /** Padding the last subframe and appending another gives the body of one more frame. */
  lemma {:induction false} BodyExtend(b: seq<Byte>, cut: nat, pad: nat, frames: seq<seq<Byte>>)
    requires AllFrames(frames) && |frames| >= 2 && cut + pad <= |b|
    requires IsBody(b[..cut], frames[..|frames| - 1]) && pad == Pad(|frames[|frames| - 2]| + LLC_SNAP_LEN)
    requires b[cut + pad..] == Subframe(frames[|frames| - 1])
    ensures IsBody(b, frames)
    decreases |frames|
  {
    if |frames| == 2 {
      BodySecond(b, cut, pad, frames);
    } else {
      hide *;
      BodyFurther(b, cut, frames);
      var n := PaddedLength(frames[0]);
      BodyExtend(b[n..], cut - n, pad, frames[1..]);
      BodyCons(b, frames);
    }
  }

  // ---- Parsing ----

  /** Length field of the subframe at the front of `mem`. */
  function LengthField(mem: seq<Byte>): nat
    requires |mem| >= ETH_HDR
  {
    FromBe16(mem[ADDRESSES], mem[ADDRESSES + 1])
  }

  /** How far the parser moves past a subframe with length field `len`. */
  function Stride(len: nat): (n: nat)
    ensures n >= 16
  {
    ETH_HDR + len + Pad(ETH_HDR + len)
  }

  function After(mem: seq<Byte>, n: nat): seq<Byte> {
    if n <= |mem| then mem[n..] else []
  }

  /**
   * Every byte the parser touches is inside `mem`, of which the first `total` belong to the A-MSDU.  The
   * parser reads the six bytes after each header, and the whole subframe, without comparing them to `total`.
   */
  ghost predicate ReadsInRange(mem: seq<Byte>, total: int)
    decreases total
  {
    total < ETH_HDR ||
    (ETH_HDR <= |mem| &&
     var len := LengthField(mem);
     len > total ||
     (ETH_HDR + |RFC1042| <= |mem| && ETH_HDR + len <= |mem|
      && ReadsInRange(After(mem, Stride(len)), total - Stride(len))))
  }

  /** wlan_11n_get_num_aggrpkts */
  ghost function Count(mem: seq<Byte>, total: int): (n: nat)
    requires ReadsInRange(mem, total)
    decreases total
  {
    if total < ETH_HDR then 0
    else
      var len := LengthField(mem);
      if len > total then 0 else 1 + Count(After(mem, Stride(len)), total - Stride(len))
  }

  predicate HasSnap(mem: seq<Byte>)
    requires ETH_HDR + |RFC1042| <= |mem|
  {
    mem[ETH_HDR..ETH_HDR + |RFC1042|] == RFC1042
  }

  /** What the parser does to the memory of a subframe before copying the frame out. */
  function Rewrite(mem: seq<Byte>): (r: seq<Byte>)
    requires ETH_HDR + |RFC1042| <= |mem|
    ensures |r| == |mem|
  {
    if HasSnap(mem) then mem[..LLC_SNAP_LEN] + mem[..ADDRESSES] + mem[LLC_SNAP_LEN + ADDRESSES..]
    else mem[ADDRESSES := 0][ADDRESSES + 1 := 0]
  }

  /** The frame the parser copies out of a subframe with length field `len`. */
  function Extract(mem: seq<Byte>, len: nat): seq<Byte>
    requires ETH_HDR + |RFC1042| <= |mem| && ETH_HDR + len <= |mem|
  {
    if HasSnap(mem) then Rewrite(mem)[LLC_SNAP_LEN..ETH_HDR + len] else Rewrite(mem)[..ETH_HDR + len]
  }

  ghost predicate AgreeAfterAddresses(a: seq<Byte>, b: seq<Byte>) {
    |a| == |b| && forall i :: ADDRESSES <= i < |a| ==> a[i] == b[i]
  }

  lemma AgreeFurther(a: seq<Byte>, b: seq<Byte>, n: nat)
    requires AgreeAfterAddresses(a, b)
    ensures AgreeAfterAddresses(After(a, n), After(b, n))
    ensures |a| >= ETH_HDR ==> LengthField(a) == LengthField(b)
  {
  }

  lemma {:induction false} ReadsAgree(a: seq<Byte>, b: seq<Byte>, total: int)
    requires AgreeAfterAddresses(a, b) && |a| == |b| && ReadsInRange(a, total)
    ensures ReadsInRange(b, total)
    ensures Count(a, total) == Count(b, total)
    decreases total
  {
    hide AgreeAfterAddresses, LengthField, After, Stride;
    if total >= ETH_HDR {
      AgreeFurther(a, b, 0);
      if LengthField(a) <= total {
        var n := Stride(LengthField(a));
        AgreeFurther(a, b, n);
        SameLength(After(a, n), After(b, n));
        ReadsAgree(After(a, n), After(b, n), total - n);
      }
    }
  }

  lemma SameLength(a: seq<Byte>, b: seq<Byte>)
    requires AgreeAfterAddresses(a, b)
    ensures |a| == |b|
  {
  }

  /** Rewriting a subframe touches, of what follows, at most part of the next addresses. */
  lemma RewriteIsLocal(mem: seq<Byte>, n: nat)
    requires ETH_HDR + |RFC1042| <= |mem| && n >= 16
    ensures AgreeAfterAddresses(After(mem, n), After(Rewrite(mem), n))
  {
  }

  /** Rewriting never moves a later access out of range. */
  lemma RewriteKeepsReads(mem: seq<Byte>, total: int)
    requires total >= ETH_HDR && ReadsInRange(mem, total) && LengthField(mem) <= total
    ensures var n := Stride(LengthField(mem));
            && ReadsInRange(After(Rewrite(mem), n), total - n)
            && Count(After(Rewrite(mem), n), total - n) == Count(After(mem, n), total - n)
  {
    var n := Stride(LengthField(mem));
    RewriteIsLocal(mem, n);
    SameLength(After(mem, n), After(Rewrite(mem), n));
    ReadsAgree(After(mem, n), After(Rewrite(mem), n), total - n);
  }

  /** The frames wlan_11n_deaggregate_pkt extracts, each from memory the previous steps have rewritten. */
  ghost function Deaggregate(mem: seq<Byte>, total: int): (frames: seq<seq<Byte>>)
    requires ReadsInRange(mem, total)
    decreases total
  {
    if total < ETH_HDR then []
    else
      var len := LengthField(mem);
      if len > total then []
      else
        RewriteKeepsReads(mem, total);
        [Extract(mem, len)] + Deaggregate(After(Rewrite(mem), Stride(len)), total - Stride(len))
  }

  /** The counting pass, which sees the buffer before it is rewritten, finds as many subframes as the loop extracts. */
  lemma {:induction false} CountMatches(mem: seq<Byte>, total: int)
    requires ReadsInRange(mem, total)
    ensures Count(mem, total) == |Deaggregate(mem, total)|
    decreases total
  {
    if total >= ETH_HDR && LengthField(mem) <= total {
      RewriteKeepsReads(mem, total);
      var n := Stride(LengthField(mem));
      CountMatches(After(Rewrite(mem), n), total - n);
    }
  }

  /** Fourteen bytes beyond the A-MSDU are enough for every access. */
  lemma {:induction false} TailroomSuffices(mem: seq<Byte>, total: int)
    requires total >= ETH_HDR ==> total + ETH_HDR <= |mem|
    ensures ReadsInRange(mem, total)
    decreases total
  {
    if total >= ETH_HDR && LengthField(mem) <= total {
      var n := Stride(LengthField(mem));
      TailroomSuffices(After(mem, n), total - n);
    }
  }

  // ---- Round trip ----

  lemma SubframeParts(f: seq<Byte>, rest: seq<Byte>)
    requires ETH_HDR <= |f| <= 65535
    ensures var mem := Subframe(f) + rest;
            var len := |f| + LLC_SNAP_LEN - ETH_HDR;
            && LengthField(mem) == len && HasSnap(mem)
            && ETH_HDR + len == |Subframe(f)| && Extract(mem, len) == f
  {
    var mem := Subframe(f) + rest;
    var len := |f| + LLC_SNAP_LEN - ETH_HDR;
    Be16RoundTrip(len);
    assert mem[..ADDRESSES] == f[..ADDRESSES];
    assert mem[ADDRESSES] == Be16(len)[0] && mem[ADDRESSES + 1] == Be16(len)[1];
    assert mem[ETH_HDR..ETH_HDR + |RFC1042|] == RFC1042;
    assert mem[LLC_SNAP_LEN + ADDRESSES..] == f[ADDRESSES..] + rest;
    assert Rewrite(mem)[LLC_SNAP_LEN..] == f[..ADDRESSES] + (f[ADDRESSES..] + rest) == f + rest;
    assert Rewrite(mem)[LLC_SNAP_LEN..ETH_HDR + len] == Rewrite(mem)[LLC_SNAP_LEN..][..|f|];
  }

  /** Beyond the twentieth byte nothing is rewritten. */
  lemma RewriteBefore(mem: seq<Byte>, n: nat)
    requires ETH_HDR + |RFC1042| <= |mem| && n >= LLC_SNAP_LEN + ADDRESSES
    ensures After(Rewrite(mem), n) == After(mem, n)
  {
  }

  lemma OneFrame(mem: seq<Byte>, total: int, f: seq<Byte>)
    requires ETH_HDR + |RFC1042| <= |mem| && total <= |mem|
    requires total == ETH_HDR + LengthField(mem) && Extract(mem, LengthField(mem)) == f
    ensures ReadsInRange(mem, total) && Deaggregate(mem, total) == [f]
  {
    RewriteIsLocal(mem, Stride(LengthField(mem)));
  }

  lemma ReadsStep(mem: seq<Byte>, total: int, rest: seq<Byte>, left: int)
    requires 14 <= total && 20 <= |mem|
    requires LengthField(mem) <= total && 14 + LengthField(mem) <= |mem|
    requires rest == After(mem, Stride(LengthField(mem))) && left == total - Stride(LengthField(mem))
    requires ReadsInRange(rest, left)
    ensures ReadsInRange(mem, total)
  {
    hide LengthField, Stride, After;
  }

  lemma DeaggregateStep(mem: seq<Byte>, total: int)
    requires ETH_HDR <= total && ReadsInRange(mem, total) && LengthField(mem) <= total
    ensures var n := Stride(LengthField(mem));
            && ReadsInRange(After(Rewrite(mem), n), total - n)
            && Deaggregate(mem, total)
            == [Extract(mem, LengthField(mem))] + Deaggregate(After(Rewrite(mem), n), total - n)
  {
    RewriteKeepsReads(mem, total);
  }

  /** The constants of the format, for proofs that hide them. */
  lemma StepNeeds(mem: seq<Byte>, total: int)
    ensures 14 <= total ==> ETH_HDR <= total
    ensures 20 <= |mem| ==> ETH_HDR + |RFC1042| <= |mem|
    ensures LLC_SNAP_LEN + ADDRESSES == 20
  {
  }

  lemma FirstFrame(mem: seq<Byte>, total: int, f: seq<Byte>, n: nat, rest: seq<Byte>, left: int)
    requires 20 <= n <= total <= |mem| && ReadsInRange(rest, left)
    requires Stride(LengthField(mem)) == n && 14 + LengthField(mem) <= n && Extract(mem, LengthField(mem)) == f
    requires rest == After(mem, n) && left == total - n
    ensures ReadsInRange(mem, total)
    ensures Deaggregate(mem, total) == [f] + Deaggregate(rest, left)
  {
    hide *;
    ReadsStep(mem, total, rest, left);
    StepNeeds(mem, total);
    DeaggregateStep(mem, total);
    RewriteBefore(mem, n);
  }

  /** The memory starts with the body of `frames`; what follows is arbitrary. */
  ghost predicate Carries(mem: seq<Byte>, body: seq<Byte>, frames: seq<seq<Byte>>) {
    && AllFrames(frames) && frames != [] && IsBody(body, frames) && |body| <= 65535
    && |body| <= |mem| && mem[..|body|] == body
  }

  ghost predicate ParsesAs(mem: seq<Byte>, f: seq<Byte>) {
    ETH_HDR + |RFC1042| <= |mem| && ETH_HDR <= |f| && |f| + LLC_SNAP_LEN <= |mem|
    && ETH_HDR + LengthField(mem) == |f| + LLC_SNAP_LEN
    && Extract(mem, LengthField(mem)) == f
  }

  lemma BodyUnfold(body: seq<Byte>, frames: seq<seq<Byte>>)
    requires AllFrames(frames) && frames != [] && IsBody(body, frames)
    ensures var s := Subframe(frames[0]);
            var n := PaddedLength(frames[0]);
            && |s| == |frames[0]| + LLC_SNAP_LEN <= |body| && body[..|s|] == s
            && (|frames| == 1 ==> |body| == |s|)
            && (|frames| > 1 ==> n <= |body| && IsBody(body[n..], frames[1..]))
  {
    hide Subframe, Pad;
  }

  /** The first subframe of a body, seen in memory. */
  lemma CarriesHead(mem: seq<Byte>, body: seq<Byte>, frames: seq<seq<Byte>>)
    requires Carries(mem, body, frames)
    ensures |frames| >= 1 && ParsesAs(mem, frames[0]) && 14 <= |frames[0]|
  {
    BodyUnfold(body, frames);
    var s := Subframe(frames[0]);
    assert mem[..|s|] == body[..|s|];
    assert mem == s + mem[|s|..];
    SubframeParts(frames[0], mem[|s|..]);
    hide Subframe, Rewrite, HasSnap, Extract, LengthField, IsBody, After;
  }

  lemma CarriesRest(mem: seq<Byte>, body: seq<Byte>, frames: seq<seq<Byte>>)
    requires Carries(mem, body, frames) && |frames| > 1
    ensures |frames[0]| >= ETH_HDR
    ensures var n := PaddedLength(frames[0]);
            n <= |body| && Carries(After(mem, n), body[n..], frames[1..])
  {
    BodyUnfold(body, frames);
    hide IsBody, Subframe, Pad;
    var n := PaddedLength(frames[0]);
    assert After(mem, n)[..|body| - n] == body[n..];
  }

  lemma CarriesBounds(mem: seq<Byte>, body: seq<Byte>, frames: seq<seq<Byte>>)
    requires Carries(mem, body, frames)
    ensures |body| <= |mem| && |frames| >= 1
  {
  }

  lemma CarriesLast(mem: seq<Byte>, body: seq<Byte>, frames: seq<seq<Byte>>)
    requires Carries(mem, body, frames) && |frames| == 1
    ensures ReadsInRange(mem, |body|) && Deaggregate(mem, |body|) == frames
  {
    CarriesHead(mem, body, frames);
    BodyUnfold(body, frames);
    hide IsBody, Subframe, Extract, LengthField, Deaggregate, ReadsInRange;
    OneFrame(mem, |body|, frames[0]);
    assert frames == [frames[0]];
  }

  lemma StrideIsPadded(mem: seq<Byte>, f: seq<Byte>)
    requires ParsesAs(mem, f)
    ensures |mem| >= 20 && |f| >= 14 && Stride(LengthField(mem)) == PaddedLength(f) >= 22
    ensures 14 + LengthField(mem) <= PaddedLength(f) && Extract(mem, LengthField(mem)) == f
  {
    hide Extract, LengthField;
  }

  lemma HeadTail<T>(s: seq<T>, rest: seq<T>)
    requires s != [] && rest == s[1..]
    ensures [s[0]] + rest == s
  {
  }

  /** One subframe parsed, given that the rest parses. */
  lemma ParseOneMore(mem: seq<Byte>, total: int, frames: seq<seq<Byte>>, n: nat, rest: seq<Byte>, left: int)
    requires ReadsInRange(rest, left) && frames != [] && Deaggregate(rest, left) == frames[1..]
    requires ParsesAs(mem, frames[0]) && |frames[0]| >= ETH_HDR
    requires n == PaddedLength(frames[0]) <= total <= |mem| && rest == After(mem, n) && left == total - n
    ensures ReadsInRange(mem, total) && Deaggregate(mem, total) == frames
  {
    hide *;
    StrideIsPadded(mem, frames[0]);
    FirstFrame(mem, total, frames[0], n, rest, left);
    HeadTail(frames, Deaggregate(rest, left));
  }

  /** Deaggregating what was aggregated gives back the frames, whatever follows the body in memory. */
  lemma {:induction false} RoundTrip(mem: seq<Byte>, body: seq<Byte>, frames: seq<seq<Byte>>)
    requires Carries(mem, body, frames)
    ensures ReadsInRange(mem, |body|) && Deaggregate(mem, |body|) == frames
    decreases |frames|
  {
    hide *;
    CarriesBounds(mem, body, frames);
    if |frames| == 1 {
      CarriesLast(mem, body, frames);
    } else {
      CarriesHead(mem, body, frames);
      CarriesRest(mem, body, frames);
      var n := PaddedLength(frames[0]);
      RoundTrip(After(mem, n), body[n..], frames[1..]);
      ParseOneMore(mem, |body|, frames, n, After(mem, n), |body| - n);
    }
  }
}
