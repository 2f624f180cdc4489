/** What every operation keeps: the entry invariant, the numbering of the slots, and the packets themselves. */
module RxInvariant {
  import opened SeqNum
  import opened RxEntry

  lemma ConcatAssoc<T>(a: seq<T>, b: seq<T>, c: seq<T>)
    ensures (a + b) + c == a + (b + c)
  {
  }

  lemma {:induction false} DeliverConcat<P>(a: seq<Slot<P>>, b: seq<Slot<P>>)
    ensures Deliver(a + b) == Deliver(a) + Deliver(b)
  {
    if a == [] {
      assert a + b == b;
    } else {
      assert (a + b)[1..] == a[1..] + b;
      DeliverConcat(a[1..], b);
      ConcatAssoc(if a[0].Held? then [a[0].payload] else [], Deliver(a[1..]), Deliver(b));
    }
  }

  lemma {:induction false} DeliverAllEmpty<P>(s: seq<Slot<P>>)
    requires AllEmpty(s)
    ensures Deliver(s) == []
  {
    if s != [] {
      DeliverAllEmpty(s[1..]);
    }
  }

  /** Giving up `n` slots neither loses nor duplicates a payload, and keeps the order. */
  lemma RotateConserves<P>(s: seq<Slot<P>>, n: nat)
    requires n <= |s|
    ensures Deliver(s[..n]) + Deliver(Rotate(s, n)) == Deliver(s)
  {
    var a, b, c := s[..n], s[n..], Blank<P>(n);
    DeliverAllEmpty(c);
    DeliverConcat(b, c);
    assert Deliver(b) + [] == Deliver(b);
    DeliverConcat(a, b);
    assert a + b == s;
  }

  lemma StoreConserves<P>(s: seq<Slot<P>>, i: nat, p: P)
    requires i < |s| && s[i] == Empty
    ensures multiset(Deliver(s[i := Held(p)])) == multiset(Deliver(s)) + multiset{p}
  {
    var t := s[i := Held(p)];
    assert t == s[..i] + ([Held(p)] + s[i + 1..]);
    assert s == s[..i] + ([Empty] + s[i + 1..]);
    DeliverConcat(s[..i], [Held(p)] + s[i + 1..]);
    DeliverConcat(s[..i], [Empty] + s[i + 1..]);
    DeliverConcat([Held(p)], s[i + 1..]);
    DeliverConcat([Empty], s[i + 1..]);
  }

  /** Dispatching up to a new start neither loses nor invents packets, whatever the new start. */
  lemma DispatchKeeps<P>(e: Entry<P>, newStart: int)
    requires e.winSize == |e.slots|
    ensures var p := DispatchUntil(e, newStart);
            && p.entry == e.(slots := p.entry.slots, startWin := newStart)
            && |p.entry.slots| == e.winSize
            && p.out + Deliver(p.entry.slots) == Deliver(e.slots)
            && (AllEmpty(e.slots[SlideCount(e.startWin, e.winSize, newStart)..]) ==> AllEmpty(p.entry.slots))
  {
    RotateConserves(e.slots, SlideCount(e.startWin, e.winSize, newStart));
  }

  /** A slide to `start + n`, masked, gives up at least `n` slots. */
  lemma SlideCovers(startWin: int, winSize: nat, n: nat)
    requires 0 <= startWin <= MAX_TID_VALUE && n <= winSize <= MAX_WIN_SIZE
    ensures n <= SlideCount(startWin, winSize, Mask(startWin + n))
  {
  }

  lemma UnusedTail<P>(s: seq<Slot<P>>, m: nat)
    requires UsedLength(s) <= m <= |s|
    ensures AllEmpty(s[m..])
  {
  }

  lemma DispatchUsed<P>(e: Entry<P>, s: int)
    requires e.winSize == |e.slots|
    requires UsedLength(e.slots) <= SlideCount(e.startWin, e.winSize, s)
    ensures var p := DispatchUntil(e, s);
            |p.entry.slots| == e.winSize && AllEmpty(p.entry.slots) && p.out == Deliver(e.slots)
  {
    var p := DispatchUntil(e, s);
    UnusedTail(e.slots, SlideCount(e.startWin, e.winSize, s));
    DispatchKeeps(e, s);
    DeliverAllEmpty(p.entry.slots);
    assert p.out + [] == p.out;
  }

  /** The slots after flushing are all empty, and what was held went up in order. */
  lemma FlushEmpties<P>(e: Entry<P>)
    requires 0 <= e.startWin <= MAX_TID_VALUE && e.winSize == |e.slots| <= MAX_WIN_SIZE
    ensures var p := FlushAll(e);
            && p.entry == e.(slots := p.entry.slots, startWin := p.entry.startWin)
            && |p.entry.slots| == e.winSize && AllEmpty(p.entry.slots)
            && p.out == Deliver(e.slots)
            && (p.entry.startWin == e.startWin || IsSeq(p.entry.startWin))
  {
    hide Mask, AllEmpty, Deliver, SlideCount, Rotate;
    var n := UsedLength(e.slots);
    if n == 0 {
      UnusedTail(e.slots, 0);
      assert e.slots[0..] == e.slots;
      DeliverAllEmpty(e.slots);
    } else {
      SlideCovers(e.startWin, e.winSize, n);
      DispatchUsed(e, Mask(e.startWin + n));
    }
  }

  lemma ServiceEmpties<P>(e: Entry<P>)
    requires Valid(e)
    ensures var p := ServicePending(e);
            && Valid(p.entry) && p.entry.winSize == e.winSize
            && p.entry == e.(slots := p.entry.slots, startWin := p.entry.startWin, flushData := false)
            && (e.flushData ==> AllEmpty(p.entry.slots))
            && (!e.flushData ==> p == Pass(e, []))
            && p.out + Deliver(p.entry.slots) == Deliver(e.slots)
  {
    if e.flushData {
      FlushEmpties(e.(flushData := false));
      DeliverAllEmpty(ServicePending(e).entry.slots);
    }
  }

  /** Sliding by a whole window delivers everything. */
  lemma ResumeEmpties<P>(e: Entry<P>, seqNum: int, kind: PacketKind)
    requires Valid(e) && IsSeq(seqNum) && e.winSize >= 2 && !e.checkStartWin
    ensures var p := Resume(e, seqNum, kind);
            && Valid(p.entry) && p.entry.winSize == e.winSize
            && p.entry.forceNoDrop == e.forceNoDrop && !p.entry.checkStartWin
            && (e.forceNoDrop ==> AllEmpty(p.entry.slots))
            && p.out + Deliver(p.entry.slots) == Deliver(e.slots)
  {
    if e.forceNoDrop {
      SlideCovers(e.startWin, e.winSize, e.winSize);
      DispatchKeeps(e, Mask(e.startWin + e.winSize));
    }
  }

  lemma StartUpKeeps<P>(e: Entry<P>, seqNum: int, kind: PacketKind, payload: P)
    requires Valid(e) && IsSeq(seqNum) && e.winSize >= 2
    ensures match StartUp(e, seqNum, kind, payload)
            case Returned(o) =>
              && Valid(o.entry) && e.checkStartWin && o.entry.slots == e.slots
              && o.out == (if kind.Bar? || !o.ok then [] else [payload])
            case Continue(e1) =>
              && Valid(e1) && !e1.checkStartWin && e1.winSize == e.winSize && e1.slots == e.slots
              && (!e.checkStartWin ==> e1 == e)
  {
    hide Mask, AllEmpty, StartAfterStartUp;
    StartUpStartInRange(e.startWin, e.winSize, e.lastSeq, seqNum);
  }

  /** A slide keeps the invariant apart from the timer, which the caller sets afterwards. */
  lemma SlideKeeps<P>(e: Entry<P>, target: int)
    requires Valid(e) && IsSeq(target) && e.winSize >= 2 && !e.checkStartWin
    ensures var p := Slide(e, target);
            && Valid(p.entry.(timerIsSet := true))
            && p.entry == e.(slots := p.entry.slots, startWin := p.entry.startWin)
            && 0 <= SlotIndex(p.entry.startWin, target) < e.winSize
            && p.out + Deliver(p.entry.slots) == Deliver(e.slots)
  {
    hide Deliver, Rotate;
    SlotInRange(e.startWin, e.winSize, target);
    if Outside(e.startWin, Mask(e.startWin + e.winSize - 1), target) {
      SlideStartIsMasked(target, e.winSize);
      DispatchKeeps(e, SlideStart(target, e.winSize));
    }
  }

  lemma ScanKeeps<P>(e: Entry<P>)
    requires 2 <= e.winSize == |e.slots|
    ensures var p := ScanAndDispatch(e);
            && p.entry == e.(slots := p.entry.slots, startWin := p.entry.startWin)
            && IsSeq(p.entry.startWin) && |p.entry.slots| == e.winSize
            && p.out + Deliver(p.entry.slots) == Deliver(e.slots)
  {
    RotateConserves(e.slots, FullPrefix(e.slots));
  }

  /** What one call accepted: its own payload, unless it was a BAR or failed. */
  function AcceptedBy<P>(ev: Event<P>, ok: bool): seq<P> {
    if ev.Receive? && !ev.kind.Bar? && ok then [ev.payload] else []
  }

  /** As multisets: what went out and what is held now are what was held before plus what was accepted. */
  ghost predicate Accounts<P>(before: seq<Slot<P>>, accepted: seq<P>, out: seq<P>, after: seq<Slot<P>>) {
    multiset(out) + multiset(Deliver(after)) == multiset(Deliver(before)) + multiset(accepted)
  }

  lemma AccountsInOrder<P>(before: seq<Slot<P>>, out: seq<P>, after: seq<Slot<P>>)
    requires out + Deliver(after) == Deliver(before)
    ensures Accounts(before, [], out, after)
  {
    assert multiset(out + Deliver(after)) == multiset(Deliver(before));
  }

  lemma AccountsChain<P>(s0: seq<Slot<P>>, out1: seq<P>, s1: seq<Slot<P>>,
                         accepted: seq<P>, out2: seq<P>, s2: seq<Slot<P>>)
    requires Accounts(s0, [], out1, s1) && Accounts(s1, accepted, out2, s2)
    ensures Accounts(s0, accepted, out1 + out2, s2)
  {
    assert multiset(out1 + out2) + multiset(Deliver(s2))
        == multiset(out1) + (multiset(out2) + multiset(Deliver(s2)))
        == (multiset(out1) + multiset(Deliver(s1))) + multiset(accepted);
  }

  lemma PlaceKeeps<P>(e: Entry<P>, target: int, kind: PacketKind, payload: P)
    requires Valid(e.(timerIsSet := true)) && e.winSize >= 2 && !e.checkStartWin
    requires 0 <= SlotIndex(e.startWin, target) < e.winSize
    ensures var o := Place(e, target, kind, payload);
            && Valid(o.entry) && o.entry == e.(slots := o.entry.slots, startWin := o.entry.startWin, timerIsSet := true)
            && Accounts(e.slots, if !kind.Bar? && o.ok then [payload] else [], o.out, o.entry.slots)
  {
    var o := Place(e, target, kind, payload);
    if kind.Bar? {
      ScanKeeps(e);
      assert multiset(o.out + Deliver(o.entry.slots)) == multiset(Deliver(e.slots));
    } else if !SlotTaken(e, target) {
      StoreConserves(e.slots, SlotIndex(e.startWin, target), payload);
      var e1 := Store(e, target, payload);
      ScanKeeps(e1);
      assert multiset(o.out + Deliver(o.entry.slots)) == multiset(Deliver(e1.slots));
    }
  }

  lemma WindowKeeps<P>(e: Entry<P>, seqNum: int, kind: PacketKind, payload: P)
    requires Valid(e) && IsSeq(seqNum) && e.winSize >= 2 && !e.checkStartWin
    ensures var o := Window(e, seqNum, kind, payload);
            && Valid(o.entry) && o.entry.timerIsSet && o.entry.winSize == e.winSize && !o.entry.checkStartWin
            && !o.entry.forceNoDrop
            && Accounts(e.slots, if !kind.Bar? && o.ok then [payload] else [], o.out, o.entry.slots)
  {
    if e.forceNoDrop || !TooOld(e.startWin, seqNum) {
      var target := Target(seqNum, kind, e.winSize);
      var e0 := e.(forceNoDrop := false);
      SlideKeeps(e0, target);
      var slid := Slide(e0, target);
      PlaceKeeps(slid.entry, target, kind, payload);
      AccountsInOrder(e.slots, slid.out, slid.entry.slots);
      var o := Place(slid.entry, target, kind, payload);
      AccountsChain(e.slots, slid.out, slid.entry.slots,
                    if !kind.Bar? && o.ok then [payload] else [], o.out, o.entry.slots);
    }
  }

  lemma StartUpThenWindowKeeps<P>(e: Entry<P>, seqNum: int, kind: PacketKind, payload: P)
    requires Valid(e) && IsSeq(seqNum) && e.winSize >= 2
    ensures var o := StartUpThenWindow(e, seqNum, kind, payload);
            && Valid(o.entry) && o.entry.winSize == e.winSize
            && Accounts(e.slots, if !kind.Bar? && o.ok then [payload] else [], o.out, o.entry.slots)
  {
    StartUpKeeps(e, seqNum, kind, payload);
    match StartUp(e, seqNum, kind, payload)
    case Returned(o) =>
    case Continue(e1) =>
      ResumeEmpties(e1, seqNum, kind);
      var resumed := Resume(e1, seqNum, kind);
      AccountsInOrder(e.slots, resumed.out, resumed.entry.slots);
      WindowKeeps(resumed.entry, seqNum, kind, payload);
      var o := Window(resumed.entry, seqNum, kind, payload);
      AccountsChain(e.slots, resumed.out, resumed.entry.slots,
                    if !kind.Bar? && o.ok then [payload] else [], o.out, o.entry.slots);
  }

  lemma ServiceKeeps<P>(e: Entry<P>)
    requires Valid(e)
    ensures var p := ServicePending(e);
            Valid(p.entry) && p.entry.winSize == e.winSize && Accounts(e.slots, [], p.out, p.entry.slots)
  {
    ServiceEmpties(e);
    AccountsInOrder(e.slots, ServicePending(e).out, ServicePending(e).entry.slots);
  }

  lemma BypassKeeps<P>(before: seq<Slot<P>>, out: seq<P>, after: seq<Slot<P>>, payload: P)
    requires Accounts(before, [], out, after)
    ensures Accounts(before, [payload], out + [payload], after)
  {
    AccountsChain(before, out, after, [payload], [payload], after);
  }

  lemma ReceiveKeeps<P>(e: Entry<P>, seqNum: int, kind: PacketKind, payload: P)
    requires Valid(e) && IsSeq(seqNum)
    ensures var o := RxReorderPkt(e, seqNum, kind, payload);
            && Valid(o.entry) && o.entry.winSize == e.winSize
            && Accounts(e.slots, if !kind.Bar? && o.ok then [payload] else [], o.out, o.entry.slots)
  {
    hide Accounts, AllEmpty, Mask, StartUpThenWindow, ServicePending;
    if e.winSize > 1 {
      ServiceKeeps(e);
      var flushed := ServicePending(e);
      if kind.Amsdu? && !e.amsdu {
        BypassKeeps(e.slots, flushed.out, flushed.entry.slots, payload);
      } else {
        StartUpThenWindowKeeps(flushed.entry, seqNum, kind, payload);
        var o := StartUpThenWindow(flushed.entry, seqNum, kind, payload);
        AccountsChain(e.slots, flushed.out, flushed.entry.slots,
                      if !kind.Bar? && o.ok then [payload] else [], o.out, o.entry.slots);
      }
    } else {
      PassThroughKeeps(e.slots, payload);
    }
  }

  lemma PassThroughKeeps<P>(slots: seq<Slot<P>>, payload: P)
    ensures Accounts(slots, [payload], [payload], slots) && Accounts(slots, [], [], slots)
  {
  }

  /**
   * Every event keeps the invariant.  As a multiset, what goes up and what stays buffered is what was
   * buffered plus the payload accepted; so a call fails exactly when its payload is in neither place.
   */
  lemma StepKeeps<P>(e: Entry<P>, ev: Event<P>)
    requires Valid(e) && ValidEvent(ev)
    ensures var o := Step(e, ev);
            && Valid(o.entry) && o.entry.winSize == e.winSize
            && Accounts(e.slots, AcceptedBy(ev, o.ok), o.out, o.entry.slots)
  {
    match ev
    case Receive(s, k, p) => ReceiveKeeps(e, s, k, p);
    case ServiceFlush => ServiceKeeps(e);
    case TimerExpires =>
    case SetNoDrop(_) =>
    case AddBaResponse(_) =>
  }

  // ---- Slot numbering ----

  /** Slot i holds only packets numbered startWin + i, modulo 4096. */
  ghost predicate Numbered<P>(e: Entry<P>, num: P -> int) {
    forall i :: 0 <= i < |e.slots| && e.slots[i].Held? ==> num(e.slots[i].payload) == Mask(e.startWin + i)
  }

  lemma ScanKeepsNumbers<P>(e: Entry<P>, num: P -> int)
    requires Numbered(e, num)
    ensures Numbered(ScanAndDispatch(e).entry, num)
  {
    var n := FullPrefix(e.slots);
    forall i | 0 <= i < |e.slots| && Rotate(e.slots, n)[i].Held?
      ensures num(Rotate(e.slots, n)[i].payload) == Mask(Mask(e.startWin + n) + i)
    {
      assert Rotate(e.slots, n)[i] == e.slots[n + i];
      MaskAdd(e.startWin + n, i);
    }
  }

  lemma SlideKeepsNumbers<P>(e: Entry<P>, target: int, num: P -> int)
    requires Valid(e) && Numbered(e, num) && IsSeq(target) && e.winSize >= 2
    ensures Numbered(Slide(e, target).entry, num)
  {
    SlideStartIsMasked(target, e.winSize);
  }

  lemma StoreKeepsNumbers<P>(e: Entry<P>, target: int, payload: P, num: P -> int)
    requires 0 <= e.startWin <= MAX_TID_VALUE && IsSeq(target)
    requires 0 <= SlotIndex(e.startWin, target) < |e.slots|
    requires Numbered(e, num) && num(payload) == target
    ensures Numbered(Store(e, target, payload), num)
  {
    SlotIndexIsDist(e.startWin, target);
    MaskOfSeq(target);
    hide Mask, Dist;
  }

  lemma NumberedSame<P>(e: Entry<P>, f: Entry<P>, num: P -> int)
    requires Numbered(e, num) && f.slots == e.slots && f.startWin == e.startWin
    ensures Numbered(f, num)
  {
  }

  lemma PlaceKeepsNumbers<P>(e: Entry<P>, target: int, kind: PacketKind, payload: P, num: P -> int)
    requires 0 <= e.startWin <= MAX_TID_VALUE && IsSeq(target) && e.winSize == |e.slots|
    requires 0 <= SlotIndex(e.startWin, target) < |e.slots|
    requires Numbered(e, num) && (!kind.Bar? ==> num(payload) == target)
    ensures Numbered(Place(e, target, kind, payload).entry, num)
  {
    hide *;
    PlaceSteps(e, target, kind, payload);
    var o := Place(e, target, kind, payload).entry;
    if kind.Bar? {
      ScanKeepsNumbers(e, num);
      NumberedSame(ScanAndDispatch(e).entry, o, num);
    } else if SlotTaken(e, target) {
      NumberedSame(e, o, num);
    } else {
      StoreKeepsNumbers(e, target, payload, num);
      var s := Store(e, target, payload);
      ScanKeepsNumbers(s, num);
      NumberedSame(ScanAndDispatch(s).entry, o, num);
    }
  }

  lemma WindowKeepsNumbers<P>(e: Entry<P>, seqNum: int, kind: PacketKind, payload: P, num: P -> int)
    requires Valid(e) && IsSeq(seqNum) && e.winSize >= 2 && !e.checkStartWin
    requires Numbered(e, num) && (!kind.Bar? ==> num(payload) == seqNum)
    ensures Numbered(Window(e, seqNum, kind, payload).entry, num)
  {
    hide Window, Slide, Place, TooOld, Mask, AllEmpty;
    if !e.forceNoDrop && TooOld(e.startWin, seqNum) {
      WindowDrops(e, seqNum, kind, payload);
    } else {
      WindowSteps(e, seqNum, kind, payload);
      var target := Target(seqNum, kind, e.winSize);
      var e0 := e.(forceNoDrop := false);
      SlideKeeps(e0, target);
      SlideKeepsNumbers(e0, target, num);
      PlaceKeepsNumbers(Slide(e0, target).entry, target, kind, payload, num);
    }
  }

  lemma StartUpThenWindowKeepsNumbers<P>(e: Entry<P>, seqNum: int, kind: PacketKind, payload: P, num: P -> int)
    requires Valid(e) && IsSeq(seqNum) && e.winSize >= 2
    requires Numbered(e, num) && (!kind.Bar? ==> num(payload) == seqNum)
    ensures Numbered(StartUpThenWindow(e, seqNum, kind, payload).entry, num)
  {
    StartUpKeeps(e, seqNum, kind, payload);
    match StartUp(e, seqNum, kind, payload)
    case Returned(o) =>
    case Continue(e1) =>
      ResumeEmpties(e1, seqNum, kind);
      WindowKeepsNumbers(Resume(e1, seqNum, kind).entry, seqNum, kind, payload, num);
  }

  lemma ServiceKeepsNumbers<P>(e: Entry<P>, num: P -> int)
    requires Valid(e) && Numbered(e, num)
    ensures var p := ServicePending(e);
            Valid(p.entry) && Numbered(p.entry, num) && p.entry.winSize == e.winSize
  {
    ServiceEmpties(e);
  }

  /** Every event keeps the numbering, provided packets arrive with their own number. */
  lemma StepKeepsNumbers<P>(e: Entry<P>, ev: Event<P>, num: P -> int)
    requires Valid(e) && ValidEvent(ev) && Numbered(e, num)
    requires ev.Receive? && !ev.kind.Bar? ==> num(ev.payload) == ev.seqNum
    ensures Numbered(Step(e, ev).entry, num)
  {
    ServiceKeepsNumbers(e, num);
    if ev.Receive? && e.winSize > 1 && !(ev.kind.Amsdu? && !e.amsdu) {
      StartUpThenWindowKeepsNumbers(ServicePending(e).entry, ev.seqNum, ev.kind, ev.payload, num);
    }
  }
}
