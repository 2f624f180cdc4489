/** The reordering table entry as the driver keeps it: a plain array rotated in place, and its flags. */
module RxTable {
  import opened SeqNum
  import opened RxEntry
  import Inv = RxInvariant

  /** What arrives for a slot: a buffer, or the mark that the firmware dropped that number. */
  datatype Payload<B> = Packet(buffer: B) | DroppedInFw

  /** The buffers among `ps`: marks are consumed silently. */
  function HandedUp<B>(ps: seq<Payload<B>>): seq<B> {
    if ps == [] then []
    else (if ps[0].Packet? then [ps[0].buffer] else []) + HandedUp(ps[1..])
  }

  lemma {:induction false} HandedUpConcat<B>(a: seq<Payload<B>>, b: seq<Payload<B>>)
    ensures HandedUp(a + b) == HandedUp(a) + HandedUp(b)
  {
    if a == [] {
      assert a + b == b;
    } else {
      var rest := a[1..] + b;
      assert (a + b)[1..] == rest;
      HandedUpConcat(a[1..], b);
      var head := if a[0].Packet? then [a[0].buffer] else [];
      assert head + (HandedUp(a[1..]) + HandedUp(b)) == (head + HandedUp(a[1..])) + HandedUp(b);
    }
  }

  /** How many packets come before place `i`. */
  ghost function Rank<B>(ps: seq<Payload<B>>, i: nat): nat {
    |set k | 0 <= k < i && k < |ps| && ps[k].Packet?|
  }

  lemma {:induction false} RankStep<B>(ps: seq<Payload<B>>, i: nat)
    requires i < |ps|
    ensures Rank(ps, i + 1) == Rank(ps, i) + if ps[i].Packet? then 1 else 0
  {
    var before := set k | 0 <= k < i && k < |ps| && ps[k].Packet?;
    var upTo := set k | 0 <= k < i + 1 && k < |ps| && ps[k].Packet?;
    assert upTo == if ps[i].Packet? then before + {i} else before;
  }

  lemma RankOfFront<B>(ps: seq<Payload<B>>, n: nat, i: nat)
    requires i <= n <= |ps|
    ensures Rank(ps[..n], i) == Rank(ps, i)
  {
    var front := set k | 0 <= k < i && k < |ps[..n]| && ps[..n][k].Packet?;
    assert front == set k | 0 <= k < i && k < |ps| && ps[k].Packet?;
  }

  lemma HandedUpLast<B>(ps: seq<Payload<B>>)
    requires ps != []
    ensures var n := |ps| - 1;
            HandedUp(ps) == HandedUp(ps[..n]) + if ps[n].Packet? then [ps[n].buffer] else []
  {
    var n := |ps| - 1;
    assert ps == ps[..n] + [ps[n]];
    HandedUpConcat(ps[..n], [ps[n]]);
    assert HandedUp([ps[n]]) == if ps[n].Packet? then [ps[n].buffer] else [];
  }

  /** The buffers handed up are those of the packets, each at the rank of its packet; a mark hands up nothing. */
  lemma {:induction false} HandedUpExactly<B>(ps: seq<Payload<B>>)
    ensures |HandedUp(ps)| == Rank(ps, |ps|)
    ensures forall i :: 0 <= i < |ps| && ps[i].Packet? ==>
              Rank(ps, i) < |HandedUp(ps)| && HandedUp(ps)[Rank(ps, i)] == ps[i].buffer
  {
    if ps == [] {
      assert Rank(ps, 0) == 0;
    } else {
      var n := |ps| - 1;
      HandedUpLast(ps);
      hide HandedUp, Rank;
      HandedUpExactly(ps[..n]);
      RankStep(ps, n);
      RankOfFront(ps, n, n);
      forall i | 0 <= i < |ps| && ps[i].Packet?
        ensures Rank(ps, i) < |HandedUp(ps)| && HandedUp(ps)[Rank(ps, i)] == ps[i].buffer
      {
        if i < n {
          RankOfFront(ps, n, i);
          assert ps[..n][i] == ps[i];
        }
      }
    }
  }

  lemma DeliverOneMore<P>(s: seq<Slot<P>>, i: nat)
    requires i < |s|
    ensures Deliver(s[..i + 1]) == Deliver(s[..i]) + (if s[i].Held? then [s[i].payload] else [])
  {
    assert s[..i + 1] == s[..i] + [s[i]];
    Inv.DeliverConcat(s[..i], [s[i]]);
  }

  lemma FullPrefixIs<P>(s: seq<Slot<P>>, n: nat)
    requires n <= |s| && (forall i :: 0 <= i < n ==> s[i].Held?) && (n < |s| ==> s[n] == Empty)
    ensures FullPrefix(s) == n
  {
    var m := FullPrefix(s);
    assert m >= n;
  }

  lemma UsedLengthIs<P>(s: seq<Slot<P>>, n: nat)
    requires n <= |s| && (n > 0 ==> s[n - 1].Held?) && (forall i :: n <= i < |s| ==> s[i] == Empty)
    ensures UsedLength(s) == n
  {
    var m := UsedLength(s);
    assert m <= n;
  }

  lemma Concat2<T>(d: seq<T>, a: seq<T>, b: seq<T>)
    ensures (d + a) + b == d + (a + b)
  {
  }

  class RxReorderTbl<B> {
    var startWin: int
    const winSize: nat
    const rxReorderPtr: array<Slot<Payload<B>>>
    var lastSeq: int
    var pktCount: nat
    var checkStartWin: bool
    var forceNoDrop: bool
    var timerIsSet: bool
    var flushData: bool
    var amsdu: bool
    /** Buffers passed to the kernel, in order. */
    var upper: seq<B>
    /** Arguments of wlan_11n_dispatch_pkt, in order; unlike `upper`, this includes the marks. */
    ghost var dispatched: seq<Payload<B>>

    ghost predicate Consistent()
      reads this, rxReorderPtr
    {
      winSize == rxReorderPtr.Length <= MAX_WIN_SIZE && upper == HandedUp(dispatched)
    }

    ghost function Abs(): Entry<Payload<B>>
      reads this, rxReorderPtr
    {
      Entry(startWin, winSize, rxReorderPtr[..], lastSeq, pktCount, checkStartWin, forceNoDrop,
            timerIsSet, flushData, amsdu)
    }

    ghost predicate Valid()
      reads this, rxReorderPtr
    {
      Consistent() && RxEntry.Valid(Abs())
    }

    /**
     * wlan_11n_create_rxreorder_tbl.  `lastSeq` depends on the interface; `flushData` and `amsdu`, which it does
     * not set and the zeroing allocator leaves false, are parameters too: the invariant holds for any value.
     */
    constructor (winSize: nat, seqNum: int, lastSeq: int, flushData: bool, amsdu: bool)
      requires winSize <= MAX_WIN_SIZE && IsSeq(seqNum) && (IsSeq(lastSeq) || lastSeq == DEFAULT_SEQ_NUM)
      ensures Valid() && fresh(rxReorderPtr)
      ensures Abs() == Entry(seqNum, winSize, Blank(winSize), lastSeq, 0, true, false, false, flushData, amsdu)
      ensures upper == [] && dispatched == []
    {
      this.winSize := winSize;
      rxReorderPtr := new Slot<Payload<B>>[winSize](_ => Empty);
      startWin, pktCount, timerIsSet := seqNum, 0, false;
      this.lastSeq, this.flushData, this.amsdu := lastSeq, flushData, amsdu;
      forceNoDrop, checkStartWin := false, true;
      upper, dispatched := [], [];
      new;
      assert rxReorderPtr[..] == Blank<Payload<B>>(winSize);
    }

    /** wlan_11n_dispatch_pkt */
    method DispatchPkt(payload: Payload<B>)
      requires Consistent()
      modifies this`upper, this`dispatched
      ensures Consistent()
      ensures dispatched == old(dispatched) + [payload]
      ensures upper == old(upper) + HandedUp([payload])
      ensures payload.Packet? ==> upper == old(upper) + [payload.buffer]
      ensures payload.DroppedInFw? ==> upper == old(upper)
    {
      dispatched := dispatched + [payload];
      HandedUpConcat(old(dispatched), [payload]);
      if payload.DroppedInFw? {
        return;
      }
      upper := upper + [payload.buffer];
    }

    /** The copy-down loop both dispatchers use after clearing the first `n` slots. */
    method RotateDown(n: nat, ghost before: seq<Slot<Payload<B>>>)
      requires winSize == rxReorderPtr.Length == |before| && n <= winSize && (n == 0 ==> winSize == 0)
      requires forall k :: 0 <= k < n ==> rxReorderPtr[k] == Empty
      requires forall k :: n <= k < winSize ==> rxReorderPtr[k] == before[k]
      modifies rxReorderPtr
      ensures rxReorderPtr[..] == Rotate(before, n)
    {
      var xchg := winSize - n;
      for i := 0 to xchg
        invariant forall k :: 0 <= k < i ==> rxReorderPtr[k] == before[n + k]
        invariant forall k :: i <= k < n + i ==> rxReorderPtr[k] == Empty
        invariant forall k :: n + i <= k < winSize ==> rxReorderPtr[k] == before[k]
      {
        rxReorderPtr[i] := rxReorderPtr[n + i];
        rxReorderPtr[n + i] := Empty;
      }
    }

    /** Emptying one slot and dispatching what it held, as both loops do. */
    method DispatchSlot(i: nat)
      requires Consistent() && i < winSize
      modifies this`upper, this`dispatched, rxReorderPtr
      ensures Consistent()
      ensures rxReorderPtr[i] == Empty
      ensures forall k :: 0 <= k < winSize && k != i ==> rxReorderPtr[k] == old(rxReorderPtr[k])
      ensures dispatched == old(dispatched)
                          + (if old(rxReorderPtr[i]).Held? then [old(rxReorderPtr[i]).payload] else [])
    {
      var tmp := rxReorderPtr[i];
      if tmp.Held? {
        rxReorderPtr[i] := Empty;
        DispatchPkt(tmp.payload);
      }
    }

    /** The first loop of wlan_11n_dispatch_pkt_until_start_win. */
    method DispatchFirst(n: nat)
      requires Consistent() && n <= winSize
      modifies this`upper, this`dispatched, rxReorderPtr
      ensures Consistent()
      ensures forall k :: 0 <= k < n ==> rxReorderPtr[k] == Empty
      ensures forall k :: n <= k < winSize ==> rxReorderPtr[k] == old(rxReorderPtr[k])
      ensures dispatched == old(dispatched) + Deliver(old(rxReorderPtr[..])[..n])
    {
      ghost var before := rxReorderPtr[..];
      for i := 0 to n
        invariant Consistent()
        invariant forall k :: 0 <= k < i ==> rxReorderPtr[k] == Empty
        invariant forall k :: i <= k < winSize ==> rxReorderPtr[k] == before[k]
        invariant dispatched == old(dispatched) + Deliver(before[..i])
      {
        DeliverOneMore(before, i);
        ghost var passed := if before[i].Held? then [before[i].payload] else [];
        DispatchSlot(i);
        Concat2(old(dispatched), Deliver(before[..i]), passed);
      }
    }

    method DispatchPktUntilStartWin(newStart: int)
      requires Consistent()
      modifies this`startWin, this`upper, this`dispatched, rxReorderPtr
      ensures Consistent()
      ensures Abs() == DispatchUntil(old(Abs()), newStart).entry
      ensures dispatched == old(dispatched) + DispatchUntil(old(Abs()), newStart).out
    {
      ghost var before := rxReorderPtr[..];
      var noPktToSend := winSize;
      if newStart > startWin && newStart - startWin < winSize {
        noPktToSend := newStart - startWin;
      }
      DispatchFirst(noPktToSend);
      RotateDown(noPktToSend, before);
      startWin := newStart;
    }

    /** The loop of wlan_11n_scan_and_dispatch; returns how many packets it found in order. */
    method DispatchInOrder() returns (i: nat)
      requires Consistent()
      modifies this`upper, this`dispatched, rxReorderPtr
      ensures Consistent() && i == FullPrefix(old(rxReorderPtr[..]))
      ensures forall k :: 0 <= k < i ==> rxReorderPtr[k] == Empty
      ensures forall k :: i <= k < winSize ==> rxReorderPtr[k] == old(rxReorderPtr[k])
      ensures dispatched == old(dispatched) + Deliver(old(rxReorderPtr[..])[..i])
    {
      ghost var before := rxReorderPtr[..];
      i := 0;
      while i < winSize
        invariant 0 <= i <= winSize
        invariant Consistent()
        invariant forall k :: 0 <= k < i ==> rxReorderPtr[k] == Empty && before[k].Held?
        invariant forall k :: i <= k < winSize ==> rxReorderPtr[k] == before[k]
        invariant dispatched == old(dispatched) + Deliver(before[..i])
      {
        if rxReorderPtr[i].Empty? {
          break;
        }
        DeliverOneMore(before, i);
        DispatchSlot(i);
        Concat2(old(dispatched), Deliver(before[..i]), [before[i].payload]);
        i := i + 1;
      }
      FullPrefixIs(before, i);
    }

    method ScanAndDispatch()
      requires Consistent()
      modifies this`startWin, this`upper, this`dispatched, rxReorderPtr
      ensures Consistent()
      ensures Abs() == RxEntry.ScanAndDispatch(old(Abs())).entry
      ensures dispatched == old(dispatched) + RxEntry.ScanAndDispatch(old(Abs())).out
    {
      ghost var before := rxReorderPtr[..];
      var i := DispatchInOrder();
      if i > 0 {
        RotateDown(i, before);
      }
      assert rxReorderPtr[..] == Rotate(before, i);
      startWin := Mask(startWin + i);
    }

    /** wlan_11n_find_last_seqnum: the highest slot in use, or -1. */
    method FindLastSeqnum() returns (last: int)
      requires Consistent()
      ensures last + 1 == UsedLength(Abs().slots)
    {
      last := winSize - 1;
      while last >= 0
        invariant -1 <= last < winSize
        invariant forall k :: last < k < winSize ==> rxReorderPtr[k] == Empty
      {
        if rxReorderPtr[last].Held? {
          break;
        }
        last := last - 1;
      }
      UsedLengthIs(rxReorderPtr[..], last + 1);
    }

    method StartFlushData()
      requires Consistent()
      modifies this`startWin, this`upper, this`dispatched, rxReorderPtr
      ensures Consistent()
      ensures Abs() == FlushAll(old(Abs())).entry
      ensures dispatched == old(dispatched) + FlushAll(old(Abs())).out
    {
      var last := FindLastSeqnum();
      if last >= 0 {
        DispatchPktUntilStartWin(Mask(startWin + last + 1));
      }
    }

    /** The body of the loop in wlan_flush_priv_rxreorder_tbl, also run at the start of every receive. */
    method ServicePending()
      requires Consistent()
      modifies this`startWin, this`flushData, this`upper, this`dispatched, rxReorderPtr
      ensures Consistent()
      ensures Abs() == RxEntry.ServicePending(old(Abs())).entry
      ensures dispatched == old(dispatched) + RxEntry.ServicePending(old(Abs())).out
    {
      if flushData {
        flushData := false;
        StartFlushData();
      }
    }

    /** wlan_flush_data, run when the timer expires. */
    method FlushData()
      requires Valid() && timerIsSet
      modifies this`flushData, this`timerIsSet
      ensures Valid()
      ensures Abs() == Step(old(Abs()), TimerExpires).entry
    {
      flushData := true;
      timerIsSet := false;
    }

    method TimerRestart()
      modifies this`timerIsSet
      ensures timerIsSet
    {
      timerIsSet := true;
    }

    /** Choosing the window start when start-up is over. */
    method EndStartUp(seqNum: int)
      modifies this`startWin
      ensures startWin == StartAfterStartUp(old(startWin), winSize, lastSeq, seqNum)
    {
      if lastSeq != DEFAULT_SEQ_NUM {
        var endWin := Mask(startWin + winSize - 1);
        if (endWin > startWin && lastSeq >= startWin && lastSeq < endWin)
           || (endWin < startWin && (lastSeq >= startWin || lastSeq < endWin)) {
          startWin := lastSeq + 1;
        } else if seqNum < startWin && seqNum > lastSeq {
          startWin := lastSeq + 1;
        }
      }
    }

    /** The part of mlan_11n_rxreorder_pkt under check_start_win. */
    method StartUpPhase(seqNum: int, kind: PacketKind, payload: Payload<B>) returns (done: bool, ok: bool)
      requires Consistent()
      modifies this`startWin, this`lastSeq, this`pktCount, this`checkStartWin, this`upper, this`dispatched
      ensures Consistent()
      ensures match StartUp(old(Abs()), seqNum, kind, payload)
              case Returned(o) => done && ok == o.ok && Abs() == o.entry && dispatched == old(dispatched) + o.out
              case Continue(e) => !done && Abs() == e && dispatched == old(dispatched)
    {
      done, ok := false, true;
      if checkStartWin {
        if seqNum == startWin {
          checkStartWin := false;
        } else {
          pktCount := (pktCount + 1) % 256;
          if pktCount < winSize / 2 {
            if lastSeq == seqNum {
              ok := false;
            } else {
              lastSeq := seqNum;
              if !kind.Bar? {
                DispatchPkt(payload);
              }
            }
            done := true;
            return;
          }
          checkStartWin := false;
          EndStartUp(seqNum);
        }
      }
    }

    /** What force_no_drop makes mlan_11n_rxreorder_pkt do first. */
    method Restart(newStart: int, seqNum: int, kind: PacketKind)
      requires Consistent()
      modifies this`startWin, this`timerIsSet, this`upper, this`dispatched, rxReorderPtr
      ensures Consistent()
      ensures Abs() == RxEntry.Restart(old(Abs()), newStart, seqNum, kind).entry
      ensures dispatched == old(dispatched) + RxEntry.Restart(old(Abs()), newStart, seqNum, kind).out
    {
      DispatchPktUntilStartWin(newStart);
      if !kind.Bar? {
        startWin := seqNum;
      }
      TimerRestart();
    }

    /** The part of mlan_11n_rxreorder_pkt under force_no_drop. */
    method ResumePhase(seqNum: int, kind: PacketKind)
      requires Consistent()
      modifies this`startWin, this`timerIsSet, this`upper, this`dispatched, rxReorderPtr
      ensures Consistent()
      ensures Abs() == Resume(old(Abs()), seqNum, kind).entry
      ensures dispatched == old(dispatched) + Resume(old(Abs()), seqNum, kind).out
    {
      if forceNoDrop {
        var newStart := Mask(startWin + winSize);
        assert Resume(Abs(), seqNum, kind) == RxEntry.Restart(Abs(), newStart, seqNum, kind);
        Restart(newStart, seqNum, kind);
      }
    }

    /** Storing and releasing, at the end of mlan_11n_rxreorder_pkt. */
    method PlacePacket(target: int, kind: PacketKind, payload: Payload<B>) returns (ok: bool)
      requires Consistent() && 0 <= SlotIndex(startWin, target) < winSize
      modifies this`startWin, this`upper, this`dispatched, rxReorderPtr
      ensures Consistent()
      ensures var o := Place(old(Abs()), target, kind, payload);
              Abs().(timerIsSet := true) == o.entry && dispatched == old(dispatched) + o.out && ok == o.ok
    {
      if !kind.Bar? {
        if target >= startWin {
          if rxReorderPtr[target - startWin].Held? {
            return false;
          }
          rxReorderPtr[target - startWin] := Held(payload);
        } else {
          if rxReorderPtr[target + MAX_TID_VALUE - startWin].Held? {
            return false;
          }
          rxReorderPtr[target + MAX_TID_VALUE - startWin] := Held(payload);
        }
        assert Abs() == Store(old(Abs()), target, payload);
      }
      ScanAndDispatch();
      ok := true;
    }

    /** The forced slide of mlan_11n_rxreorder_pkt. */
    method SlideWindow(target: int)
      requires Consistent()
      modifies this`startWin, this`upper, this`dispatched, rxReorderPtr
      ensures Consistent()
      ensures Abs() == Slide(old(Abs()), target).entry
      ensures dispatched == old(dispatched) + Slide(old(Abs()), target).out
    {
      hide DispatchUntil, SlideStart;
      if Outside(startWin, Mask(startWin + winSize - 1), target) {
        DispatchPktUntilStartWin(SlideStart(target, winSize));
      }
    }

    /** Forced slide, then placement, of a packet that is not too old. */
    method SlideAndPlace(target: int, kind: PacketKind, payload: Payload<B>) returns (ok: bool)
      requires Consistent() && 0 <= SlotIndex(Slide(Abs(), target).entry.startWin, target) < winSize
      modifies this`startWin, this`upper, this`dispatched, rxReorderPtr
      ensures Consistent()
      ensures var slid := Slide(old(Abs()), target);
              var o := Place(slid.entry, target, kind, payload);
              Abs().(timerIsSet := true) == o.entry && dispatched == old(dispatched) + (slid.out + o.out) && ok == o.ok
    {
      ghost var slid := Slide(Abs(), target);
      SlideWindow(target);
      ok := PlacePacket(target, kind, payload);
      Concat2(old(dispatched), slid.out, Place(slid.entry, target, kind, payload).out);
    }

    /** The rest of mlan_11n_rxreorder_pkt: drop test, forced slide, placement, timer. */
    method ReceiveWindow(seqNum: int, kind: PacketKind, payload: Payload<B>) returns (ok: bool)
      requires Consistent() && 2 <= winSize && 0 <= startWin <= MAX_TID_VALUE && IsSeq(seqNum)
      modifies this`startWin, this`forceNoDrop, this`timerIsSet, this`upper, this`dispatched, rxReorderPtr
      ensures Consistent()
      ensures var o := Window(old(Abs()), seqNum, kind, payload);
              Abs() == o.entry && dispatched == old(dispatched) + o.out && ok == o.ok
    {
      hide Window, Slide, Place;
      ghost var e := Abs();
      var prevStartWin := startWin;
      if !forceNoDrop && TooOld(startWin, seqNum) {
        WindowDrops(e, seqNum, kind, payload);
        ok := false;
      } else {
        forceNoDrop := false;
        var target := Target(seqNum, kind, winSize);
        WindowSteps(e, seqNum, kind, payload);
        ok := SlideAndPlace(target, kind, payload);
      }
      if !timerIsSet || prevStartWin != startWin {
        TimerRestart();
      }
    }

    /** mlan_11n_rxreorder_pkt from the start-up test on. */
    method StartUpThenWindow(seqNum: int, kind: PacketKind, payload: Payload<B>) returns (ok: bool)
      requires Valid() && IsSeq(seqNum) && winSize >= 2
      modifies this`startWin, this`lastSeq, this`pktCount, this`checkStartWin, this`forceNoDrop,
               this`timerIsSet, this`upper, this`dispatched, rxReorderPtr
      ensures Consistent()
      ensures var o := RxEntry.StartUpThenWindow(old(Abs()), seqNum, kind, payload);
              Abs() == o.entry && dispatched == old(dispatched) + o.out && ok == o.ok
    {
      ghost var start := StartUp(Abs(), seqNum, kind, payload);
      Inv.StartUpKeeps(Abs(), seqNum, kind, payload);
      var done;
      done, ok := StartUpPhase(seqNum, kind, payload);
      if !done {
        Inv.ResumeEmpties(start.entry, seqNum, kind);
        ghost var resumed := Resume(start.entry, seqNum, kind);
        ResumePhase(seqNum, kind);
        ok := ReceiveWindow(seqNum, kind, payload);
        Concat2(old(dispatched), resumed.out, Window(resumed.entry, seqNum, kind, payload).out);
      }
    }

    /** mlan_11n_rxreorder_pkt for a window of at least two. */
    method ReceiveInWindow(seqNum: int, kind: PacketKind, payload: Payload<B>) returns (ok: bool)
      requires Valid() && IsSeq(seqNum) && winSize >= 2
      modifies this`startWin, this`lastSeq, this`pktCount, this`checkStartWin, this`forceNoDrop,
               this`timerIsSet, this`flushData, this`upper, this`dispatched, rxReorderPtr
      ensures Consistent()
      ensures var o := RxEntry.RxReorderPkt(old(Abs()), seqNum, kind, payload);
              Abs() == o.entry && dispatched == old(dispatched) + o.out && ok == o.ok
    {
      ghost var flushed := RxEntry.ServicePending(Abs());
      Inv.ServiceEmpties(Abs());
      ServicePending();
      if kind.Amsdu? && !amsdu {
        DispatchPkt(payload);
        ok := true;
        Concat2(old(dispatched), flushed.out, [payload]);
      } else {
        ok := StartUpThenWindow(seqNum, kind, payload);
        Concat2(old(dispatched), flushed.out, RxEntry.StartUpThenWindow(flushed.entry, seqNum, kind, payload).out);
      }
    }

    /** mlan_11n_rxreorder_pkt, once the entry for the packet has been found. */
    method RxReorderPkt(seqNum: int, kind: PacketKind, payload: Payload<B>) returns (ok: bool)
      requires Valid() && IsSeq(seqNum)
      modifies this`startWin, this`lastSeq, this`pktCount, this`checkStartWin, this`forceNoDrop,
               this`timerIsSet, this`flushData, this`upper, this`dispatched, rxReorderPtr
      ensures Valid()
      ensures var o := RxEntry.RxReorderPkt(old(Abs()), seqNum, kind, payload);
              Abs() == o.entry && dispatched == old(dispatched) + o.out && ok == o.ok
    {
      Inv.ReceiveKeeps(Abs(), seqNum, kind, payload);
      if winSize <= 1 {
        if !kind.Bar? {
          DispatchPkt(payload);
        }
        ok := true;
      } else {
        ok := ReceiveInWindow(seqNum, kind, payload);
      }
    }

    /** wlan_11n_delete_rxreorder_tbl_entry, up to unlinking and freeing. */
    method Delete()
      requires Valid()
      modifies this`startWin, this`timerIsSet, this`upper, this`dispatched, rxReorderPtr
      ensures Consistent() && !timerIsSet && AllEmpty(rxReorderPtr[..])
      ensures dispatched == old(dispatched) + Deliver(old(rxReorderPtr[..]))
      ensures upper == old(upper) + HandedUp(Deliver(old(rxReorderPtr[..])))
    {
      ghost var e := Abs();
      var newStart := Mask(startWin + winSize);
      Inv.SlideCovers(startWin, winSize, winSize);
      Inv.DispatchKeeps(e, newStart);
      DispatchPktUntilStartWin(newStart);
      Inv.DeliverAllEmpty(rxReorderPtr[..]);
      assert DispatchUntil(e, newStart).out + [] == Deliver(e.slots);
      HandedUpConcat(old(dispatched), Deliver(e.slots));
      timerIsSet := false;
    }
  }
}
