/**
 * What the receiver extracts, byte by byte, from subframes of any sender: with an RFC 1042 header or without, as 802.3
 * frames with a length field have them; and the round trip over bodies that mix both kinds.
 */
module AmsduForeign {
  import opened Wrappers
  import opened AmsduFormat

  // ---- One subframe ----

  /** The six bytes behind the header are those of RFC 1042. */
  predicate SnapFollows(mem: seq<Byte>)
    requires |mem| >= 20
  {
    mem[14] == 0xaa && mem[15] == 0xaa && mem[16] == 0x03 && mem[17] == 0 && mem[18] == 0 && mem[19] == 0
  }

  /** What the driver writes for a frame, byte by byte. */
  lemma SubframeBytes(f: seq<Byte>)
    requires |f| >= 14
    ensures var s, len := Subframe(f), |f| - 6;
            && |s| == |f| + 8
            && (forall i :: 0 <= i < 12 ==> s[i] == f[i])
            && s[12] == len / 256 % 256 && s[13] == len % 256 && SnapFollows(s)
            && (forall i :: 20 <= i < |s| ==> s[i] == f[i - 8])
  {
  }

  /**
   * The frame extracted, byte by byte. With the RFC 1042 header it is addresses and what follows that header; without
   * it, addresses, two zero bytes, and everything the length field speaks of.
   */
  lemma ExtractExactly(mem: seq<Byte>, len: nat)
    requires |mem| >= 20 && 14 + len <= |mem|
    ensures var f := Extract(mem, len);
            if SnapFollows(mem) then
              && |f| == 6 + len
              && (forall i :: 0 <= i < 12 && i < |f| ==> f[i] == mem[i])
              && (forall i :: 12 <= i < |f| ==> f[i] == mem[i + 8])
            else
              && |f| == 14 + len
              && (forall i :: 0 <= i < 12 ==> f[i] == mem[i])
              && f[12] == 0 && f[13] == 0
              && (forall i :: 14 <= i < |f| ==> f[i] == mem[i])
  {
    SnapIs(mem);
  }

  lemma SnapIs(mem: seq<Byte>)
    requires |mem| >= 20
    ensures HasSnap(mem) <==> SnapFollows(mem)
  {
    var six := mem[14..20];
    assert |six| == 6 && six[0] == mem[14] && six[1] == mem[15] && six[2] == mem[16] && six[3] == mem[17]
           && six[4] == mem[18] && six[5] == mem[19];
  }

  /** The parser stops exactly where fewer than a header's bytes are left or the length field exceeds what is left. */
  lemma StopsExactly(mem: seq<Byte>, total: int)
    requires ReadsInRange(mem, total)
    ensures Deaggregate(mem, total) == [] <==> total < 14 || mem[12] * 256 + mem[13] > total
    ensures Count(mem, total) == 0 <==> total < 14 || mem[12] * 256 + mem[13] > total
  {
  }

  // ---- Bodies of any sender ----

  /** A subframe: two addresses, and what its length field counts. */
  datatype Sub = Sub(addresses: seq<Byte>, payload: seq<Byte>)

  /** The payload decides what kind it is, without the bytes behind it. */
  ghost predicate Sound(s: Sub) {
    |s.addresses| == 12 && |s.payload| <= 65535 && (|s.payload| >= 6 || !(s.payload <= RFC1042))
  }

  ghost predicate AllSound(subs: seq<Sub>) {
    forall i :: 0 <= i < |subs| ==> Sound(subs[i])
  }

  ghost predicate IsSnap(s: Sub) {
    RFC1042 <= s.payload
  }

  function Bytes(s: Sub): seq<Byte> {
    s.addresses + [|s.payload| / 256 % 256, |s.payload| % 256] + s.payload
  }

  /** The frame that goes up for it. */
  ghost function FrameOf(s: Sub): seq<Byte> {
    if IsSnap(s) then s.addresses + s.payload[6..] else s.addresses + [0, 0] + s.payload
  }

  ghost function FramesOf(subs: seq<Sub>): (fs: seq<seq<Byte>>)
    ensures |fs| == |subs| && forall i :: 0 <= i < |subs| ==> fs[i] == FrameOf(subs[i])
  {
    seq(|subs|, i requires 0 <= i < |subs| => FrameOf(subs[i]))
  }

  /** What a padded subframe takes: its bytes, up to a multiple of four. */
  function Padded(s: Sub): (n: nat)
    ensures n % 4 == 0 && 14 + |s.payload| <= n < 18 + |s.payload|
  {
    (14 + |s.payload| + 3) / 4 * 4
  }

  /** `total` bytes of `mem` are the subframes, each but the last padded; padding and what follows are arbitrary. */
  ghost predicate Holds(mem: seq<Byte>, total: nat, subs: seq<Sub>) {
    && subs != [] && AllSound(subs) && total <= |mem| && 14 + |subs[0].payload| <= total
    && mem[..14 + |subs[0].payload|] == Bytes(subs[0])
    && if |subs| == 1 then total == 14 + |subs[0].payload|
       else Padded(subs[0]) <= total && Holds(mem[Padded(subs[0])..], total - Padded(subs[0]), subs[1..])
  }

  lemma PaddedIsStride(s: Sub)
    ensures Stride(|s.payload|) == Padded(s)
  {
  }

  /** A subframe at the front of memory: its length, its kind, its frame. */
  lemma FrontSub(mem: seq<Byte>, s: Sub)
    requires Sound(s) && |mem| >= 20 && |mem| >= 14 + |s.payload| && mem[..14 + |s.payload|] == Bytes(s)
    ensures LengthField(mem) == |s.payload| && (SnapFollows(mem) <==> IsSnap(s))
    ensures Extract(mem, |s.payload|) == FrameOf(s)
  {
    FrontBytes(mem, s);
    FrontKind(mem, s);
    FrontFrame(mem, s);
  }

  lemma FrontBytes(mem: seq<Byte>, s: Sub)
    requires Sound(s) && |mem| >= 14 + |s.payload| && mem[..14 + |s.payload|] == Bytes(s)
    ensures forall i :: 0 <= i < 12 ==> mem[i] == s.addresses[i]
    ensures forall i :: 0 <= i < |s.payload| ==> mem[14 + i] == s.payload[i]
    ensures LengthField(mem) == |s.payload|
  {
    var b := Bytes(s);
    assert forall i :: 0 <= i < |b| ==> mem[..|b|][i] == b[i];
    assert mem[12] == b[12] && mem[13] == b[13];
  }

  lemma FrontKind(mem: seq<Byte>, s: Sub)
    requires Sound(s) && |mem| >= 20 && |mem| >= 14 + |s.payload|
    requires forall i :: 0 <= i < |s.payload| ==> mem[14 + i] == s.payload[i]
    ensures SnapFollows(mem) <==> IsSnap(s)
  {
    var p := s.payload;
    if |p| >= 6 {
      assert p[0] == mem[14 + 0] && p[1] == mem[14 + 1] && p[2] == mem[14 + 2] && p[3] == mem[14 + 3]
             && p[4] == mem[14 + 4] && p[5] == mem[14 + 5];
    } else {
      var i :| 0 <= i < |p| && p[i] != RFC1042[i];
      assert mem[14 + i] != RFC1042[i];
    }
  }

  lemma FrontFrame(mem: seq<Byte>, s: Sub)
    requires Sound(s) && |mem| >= 20 && |mem| >= 14 + |s.payload|
    requires forall i :: 0 <= i < 12 ==> mem[i] == s.addresses[i]
    requires forall i :: 0 <= i < |s.payload| ==> mem[14 + i] == s.payload[i]
    requires SnapFollows(mem) <==> IsSnap(s)
    ensures Extract(mem, |s.payload|) == FrameOf(s)
  {
    hide Extract, SnapFollows;
    ExtractExactly(mem, |s.payload|);
    var f, g := Extract(mem, |s.payload|), FrameOf(s);
    forall i | 0 <= i < |f|
      ensures |f| == |g| && f[i] == g[i]
    {
      if i >= 14 && !IsSnap(s) {
        assert mem[14 + (i - 14)] == s.payload[i - 14];
      } else if i >= 12 && IsSnap(s) {
        assert mem[14 + (i - 6)] == s.payload[i - 6];
      }
    }
    assert |f| == |g|;
  }

  /** What follows a subframe is where it was: only the move over an RFC 1042 header reaches beyond fourteen bytes. */
  lemma RestKept(mem: seq<Byte>, s: Sub)
    requires Sound(s) && |mem| >= 20 && (SnapFollows(mem) <==> IsSnap(s))
    ensures After(Rewrite(mem), Padded(s)) == After(mem, Padded(s))
  {
    SnapIs(mem);
    if IsSnap(s) {
      assert |s.payload| >= 6;
      RewriteBefore(mem, Padded(s));
    } else {
      PlainRewrite(mem, Padded(s));
    }
  }

  lemma PlainRewrite(mem: seq<Byte>, n: nat)
    requires |mem| >= 20 && !HasSnap(mem) && n >= 14
    ensures After(Rewrite(mem), n) == After(mem, n)
  {
  }

  lemma OneMore(mem: seq<Byte>, total: int, s: Sub, rest: seq<Byte>, left: int)
    requires Sound(s) && |mem| >= 20 && 14 + |s.payload| <= |mem| && 14 + |s.payload| <= total
    requires mem[..14 + |s.payload|] == Bytes(s) && rest == After(mem, Padded(s)) && left == total - Padded(s)
    requires ReadsInRange(rest, left)
    ensures ReadsInRange(mem, total)
    ensures Deaggregate(mem, total) == [FrameOf(s)] + Deaggregate(rest, left)
  {
    hide Bytes, SnapFollows, IsSnap, FrameOf, After, LengthField, Padded, Deaggregate, Stride, ReadsInRange;
    FrontSub(mem, s);
    PaddedIsStride(s);
    RestKept(mem, s);
    ReadsStep(mem, total, rest, left);
    StepNeeds(mem, total);
    DeaggregateStep(mem, total);
  }

  lemma NothingLeft(mem: seq<Byte>, left: int)
    requires left < 14
    ensures ReadsInRange(mem, left) && Deaggregate(mem, left) == []
  {
  }

  /**
   * From any body of sound subframes, of both kinds in any order, the parser extracts exactly their frames, provided
   * the six bytes it looks at behind each header are there.
   */
  lemma {:induction false} MixedRoundTrip(mem: seq<Byte>, total: nat, subs: seq<Sub>)
    requires Holds(mem, total, subs) && total + 6 <= |mem|
    ensures ReadsInRange(mem, total) && Deaggregate(mem, total) == FramesOf(subs)
    decreases |subs|
  {
    hide Bytes, FrameOf, Deaggregate, ReadsInRange, Sound;
    var n := Padded(subs[0]);
    if |subs| == 1 {
      NothingLeft(After(mem, n), total - n);
      OneMore(mem, total, subs[0], After(mem, n), total - n);
      assert FramesOf(subs) == [FrameOf(subs[0])] + [];
    } else {
      MixedRoundTrip(mem[n..], total - n, subs[1..]);
      OneMore(mem, total, subs[0], mem[n..], total - n);
      assert FramesOf(subs) == [FrameOf(subs[0])] + FramesOf(subs[1..]);
    }
  }
}
