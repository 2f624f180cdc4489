/** A-MSDU subframes written to and parsed from byte buffers in place (mlan_11n_aggr.c). */
module AmsduBuffer {
  import opened Wrappers
  import opened AmsduFormat

  /** memcpy, or memmove when `src` is a snapshot of the same buffer. */
  method CopyInto(dst: array<Byte>, at: nat, src: seq<Byte>)
    requires at + |src| <= dst.Length
    modifies dst
    ensures forall i :: 0 <= i < dst.Length && !(at <= i < at + |src|) ==> dst[i] == old(dst[i])
    ensures forall i :: 0 <= i < |src| ==> dst[at + i] == src[i]
    ensures dst[at..at + |src|] == src
  {
    forall i | 0 <= i < |src| {
      dst[at + i] := src[i];
    }
  }

  /** wlan_11n_form_amsdu_pkt */
  method FormAmsduPkt(buf: array<Byte>, at: nat, data: seq<Byte>) returns (size: nat, pad: nat)
    requires |data| >= ETH_HDR && at + |data| + LLC_SNAP_LEN <= buf.Length
    modifies buf
    ensures forall i :: 0 <= i < buf.Length && !(at <= i < at + |data| + LLC_SNAP_LEN) ==> buf[i] == old(buf[i])
    ensures buf[at..at + |data| + LLC_SNAP_LEN] == Subframe(data)
    ensures pad == Pad(|data| + LLC_SNAP_LEN) && size == |data| + LLC_SNAP_LEN + pad
  {
    var snap := RFC1042 + data[ADDRESSES..ETH_HDR];
    CopyInto(buf, at, data[..ADDRESSES]);
    CopyInto(buf, at + ADDRESSES, Be16(|data| + LLC_SNAP_LEN - ETH_HDR));
    CopyInto(buf, at + ETH_HDR, snap);
    CopyInto(buf, at + ETH_HDR + LLC_SNAP_LEN, data[ETH_HDR..]);
    ghost var s := buf[at..at + |data| + LLC_SNAP_LEN];
    assert forall i :: 0 <= i < ADDRESSES ==> s[i] == data[..ADDRESSES][i];
    assert s[ADDRESSES..ETH_HDR] == Be16(|data| + LLC_SNAP_LEN - ETH_HDR);
    assert forall i :: 0 <= i < LLC_SNAP_LEN ==> s[ETH_HDR + i] == snap[i];
    assert forall i :: 0 <= i < |data| - ETH_HDR ==> s[ETH_HDR + LLC_SNAP_LEN + i] == data[ETH_HDR..][i];
    SubframeIs(data, s);
    pad := if (|data| + LLC_SNAP_LEN) % 4 != 0 then 4 - (|data| + LLC_SNAP_LEN) % 4 else 0;
    size := |data| + LLC_SNAP_LEN + pad;
  }

  lemma SubframeIs(data: seq<Byte>, s: seq<Byte>)
    requires |data| >= ETH_HDR && |s| == |data| + LLC_SNAP_LEN
    requires forall i :: 0 <= i < ADDRESSES ==> s[i] == data[..ADDRESSES][i]
    requires s[ADDRESSES..ETH_HDR] == Be16(|data| + LLC_SNAP_LEN - ETH_HDR)
    requires forall i :: 0 <= i < LLC_SNAP_LEN ==> s[ETH_HDR + i] == (RFC1042 + data[ADDRESSES..ETH_HDR])[i]
    requires forall i :: 0 <= i < |data| - ETH_HDR ==> s[ETH_HDR + LLC_SNAP_LEN + i] == data[ETH_HDR..][i]
    ensures s == Subframe(data)
  {
    hide Be16;
    var a, b, c, d := data[..ADDRESSES], Be16(|data| + LLC_SNAP_LEN - ETH_HDR), RFC1042 + data[ADDRESSES..ETH_HDR],
                      data[ETH_HDR..];
    assert forall i :: 0 <= i < |b| ==> s[ADDRESSES..ETH_HDR][i] == s[|a| + i];
    FourParts(a, b, c, d, s);
    TailJoins(a + b, data);
  }

  lemma TailJoins(front: seq<Byte>, data: seq<Byte>)
    requires |data| >= ETH_HDR
    ensures front + (RFC1042 + data[ADDRESSES..ETH_HDR]) + data[ETH_HDR..] == front + RFC1042 + data[ADDRESSES..]
  {
    assert data[ADDRESSES..] == data[ADDRESSES..ETH_HDR] + data[ETH_HDR..];
  }

  lemma FourParts(a: seq<Byte>, b: seq<Byte>, c: seq<Byte>, d: seq<Byte>, s: seq<Byte>)
    requires |s| == |a| + |b| + |c| + |d|
    requires forall i :: 0 <= i < |a| ==> s[i] == a[i]
    requires forall i :: 0 <= i < |b| ==> s[|a| + i] == b[i]
    requires forall i :: 0 <= i < |c| ==> s[|a| + |b| + i] == c[i]
    requires forall i :: 0 <= i < |d| ==> s[|a| + |b| + |c| + i] == d[i]
    ensures s == a + b + c + d
  {
    assert s[..|a|] == a;
    assert s[|a|..|a| + |b|] == b;
    assert s[|a| + |b|..|a| + |b| + |c|] == c;
    assert s[|a| + |b| + |c|..] == d;
  }

  lemma AfterAfter(s: seq<Byte>, a: nat, b: nat)
    ensures After(After(s, a), b) == After(s, a + b)
  {
  }

  lemma CountStep(mem: seq<Byte>, total: int)
    requires total >= ETH_HDR && ReadsInRange(mem, total)
    ensures |mem| >= ETH_HDR
    ensures LengthField(mem) > total ==> Count(mem, total) == 0 && Deaggregate(mem, total) == []
    ensures LengthField(mem) <= total ==>
              var n := Stride(LengthField(mem));
              && ETH_HDR + |RFC1042| <= |mem| && ETH_HDR + LengthField(mem) <= |mem|
              && ReadsInRange(After(mem, n), total - n)
              && Count(mem, total) == 1 + Count(After(mem, n), total - n)
  {
  }

  /** Reading through the data pointer. */
  lemma HeaderAt(mem: seq<Byte>, data: nat)
    requires |After(mem, data)| >= ETH_HDR
    ensures data + ETH_HDR <= |mem| && After(mem, data) == mem[data..] && |After(mem, data)| == |mem| - data
    ensures LengthField(After(mem, data)) == FromBe16(mem[data + ADDRESSES], mem[data + ADDRESSES + 1])
  {
  }

  /** wlan_11n_get_num_aggrpkts */
  method GetNumAggrpkts(mem: array<Byte>, dataOffset: nat, dataLen: int) returns (pktCount: nat)
    requires ReadsInRange(After(mem[..], dataOffset), dataLen)
    ensures pktCount == Count(After(mem[..], dataOffset), dataLen)
  {
    var data: nat, total := dataOffset, dataLen;
    ghost var m := After(mem[..], dataOffset);
    ghost var goal := Count(m, total);
    pktCount := 0;
    while total >= ETH_HDR
      invariant m == After(mem[..], data)
      invariant ReadsInRange(m, total) && pktCount + Count(m, total) == goal
      decreases total
    {
      CountStep(m, total);
      HeaderAt(mem[..], data);
      var pktLen := FromBe16(mem[data + ADDRESSES], mem[data + ADDRESSES + 1]);
      if pktLen > total {
        return;
      }
      var stride := Stride(pktLen);
      AfterAfter(mem[..], data, stride);
      m := After(m, stride);
      data := data + stride;
      total := total - stride;
      pktCount := pktCount + 1;
    }
  }

  /** Moving the addresses over the SNAP header, or clearing the length field of a subframe without one. */
  method RewriteSubframe(mem: array<Byte>, data: nat) returns (snap: bool)
    requires data + ETH_HDR + |RFC1042| <= mem.Length
    modifies mem
    ensures After(mem[..], data) == Rewrite(old(mem[data..]))
    ensures snap == HasSnap(old(mem[data..]))
  {
    ghost var was := mem[data..];
    assert was[ETH_HDR..ETH_HDR + |RFC1042|] == mem[data + ETH_HDR..data + ETH_HDR + |RFC1042|];
    snap := mem[data + ETH_HDR..data + ETH_HDR + |RFC1042|] == RFC1042;
    if snap {
      var addresses := mem[data..data + ADDRESSES];
      assert forall i :: 0 <= i < ADDRESSES ==> addresses[i] == was[i];
      CopyInto(mem, data + LLC_SNAP_LEN, addresses);
      forall i | 0 <= i < |was|
        ensures mem[data + i] == Rewrite(was)[i]
      {
        if LLC_SNAP_LEN <= i < LLC_SNAP_LEN + ADDRESSES {
          assert mem[data + LLC_SNAP_LEN + (i - LLC_SNAP_LEN)] == addresses[i - LLC_SNAP_LEN];
        }
      }
    } else {
      mem[data + ADDRESSES] := 0;
      mem[data + ADDRESSES + 1] := 0;
    }
    assert After(mem[..], data) == Rewrite(was);
  }

  /** One subframe: rewriting it and copying the frame out; `next` is where the data pointer ends up. */
  method ExtractFrame(mem: array<Byte>, data: nat, len: nat) returns (frame: seq<Byte>, next: nat)
    requires data + ETH_HDR + |RFC1042| <= mem.Length && data + ETH_HDR + len <= mem.Length
    modifies mem
    ensures After(mem[..], data) == Rewrite(old(mem[data..]))
    ensures frame == Extract(old(mem[data..]), len)
    ensures next == data + Stride(len)
  {
    ghost var was := mem[data..];
    var start, pktLen := data, len;
    var pad := Pad(ETH_HDR + len);
    var snap := RewriteSubframe(mem, data);
    if snap {
      start := data + LLC_SNAP_LEN;
      pktLen := pktLen + ETH_HDR - LLC_SNAP_LEN;
    } else {
      pktLen := pktLen + ETH_HDR;
    }
    frame := mem[start..start + pktLen];
    assert frame == After(mem[..], data)[start - data..start - data + pktLen];
    next := start + pktLen + pad;
  }

  lemma Snoc<T>(a: seq<T>, x: T, b: seq<T>)
    ensures (a + [x]) + b == a + ([x] + b)
  {
  }

  lemma LoopStep(goal: seq<seq<Byte>>, frames: seq<seq<Byte>>, frame: seq<Byte>, m: seq<Byte>, total: int,
                 rest: seq<Byte>, left: int)
    requires ETH_HDR <= total && ReadsInRange(m, total) && LengthField(m) <= total
    requires frames + Deaggregate(m, total) == goal
    requires |m| >= ETH_HDR + |RFC1042| && |m| >= ETH_HDR + LengthField(m)
    requires frame == Extract(m, LengthField(m))
    requires rest == After(Rewrite(m), Stride(LengthField(m))) && left == total - Stride(LengthField(m))
    ensures ReadsInRange(rest, left) && frames + [frame] + Deaggregate(rest, left) == goal
  {
    hide *;
    DeaggregateStep(m, total);
    Snoc(frames, frame, Deaggregate(rest, left));
  }

  /** wlan_11n_deaggregate_pkt: the frames handed up, and the use count set beforehand. */
  method DeaggregatePkt(mem: array<Byte>, dataOffset: nat, dataLen: int)
    returns (frames: seq<seq<Byte>>, useCount: nat)
    requires ReadsInRange(After(mem[..], dataOffset), dataLen)
    modifies mem
    ensures dataLen > 4352 ==> frames == [] && useCount == 0
    ensures dataLen <= 4352 ==>
              frames == Deaggregate(old(After(mem[..], dataOffset)), dataLen) && useCount == |frames|
  {
    frames, useCount := [], 0;
    if dataLen > MLAN_RX_DATA_BUF_SIZE {
      return;
    }
    ghost var m := After(mem[..], dataOffset);
    ghost var goal := Deaggregate(m, dataLen);
    useCount := GetNumAggrpkts(mem, dataOffset, dataLen);
    CountMatches(m, dataLen);
    var data: nat, total := dataOffset, dataLen;
    while total >= ETH_HDR
      invariant m == After(mem[..], data)
      invariant ReadsInRange(m, total) && frames + Deaggregate(m, total) == goal
      decreases total
    {
      CountStep(m, total);
      HeaderAt(mem[..], data);
      var pktLen := FromBe16(mem[data + ADDRESSES], mem[data + ADDRESSES + 1]);
      if pktLen > total {
        return;
      }
      var frame, next := ExtractFrame(mem, data, pktLen);
      var left := total - Stride(pktLen);
      AfterAfter(mem[..], data, Stride(pktLen));
      ghost var rest := After(mem[..], next);
      LoopStep(goal, frames, frame, m, total, rest, left);
      frames, data, total, m := frames + [frame], next, left, rest;
      assert ReadsInRange(m, total);
    }
  }
}
