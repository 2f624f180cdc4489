/**
 * The driver's window against the standard's.
 *
 * Outside start-up and resume mode a call does exactly what the standard says, if and only if it is not a
 * forced slide whose new start is numerically not above the old one while a packet of the new window is held.
 */
module RxRefinement {
  import opened SeqNum
  import opened RxEntry
  import Inv = RxInvariant
  import Std = RxStandard

  /** The array as a partial map keyed by sequence number. */
  ghost function HeldMap<P>(start: int, slots: seq<Slot<P>>): map<int, P> {
    map k | 0 <= k < MAX_TID_VALUE && Dist(start, k) < |slots| && slots[Dist(start, k)].Held?
          :: slots[Dist(start, k)].payload
  }

  ghost function View<P>(e: Entry<P>): Std.RecvBuffer<P> {
    Std.RecvBuffer(Mask(e.startWin), e.winSize, HeldMap(e.startWin, e.slots))
  }

  lemma HeldAt<P>(start: int, slots: seq<Slot<P>>, i: nat)
    requires i < |slots| <= MAX_TID_VALUE
    ensures Mask(start + i) in HeldMap(start, slots) <==> slots[i].Held?
    ensures slots[i].Held? ==> HeldMap(start, slots)[Mask(start + i)] == slots[i].payload
  {
    DistOf(start, i);
  }

  lemma HeldBeyond<P>(start: int, slots: seq<Slot<P>>, i: nat)
    requires |slots| <= i < MAX_TID_VALUE
    ensures Mask(start + i) !in HeldMap(start, slots)
  {
    DistOf(start, i);
  }

  lemma {:induction false} PassUpIsDeliver<P>(start: int, slots: seq<Slot<P>>, i: nat, n: nat)
    requires i + n <= |slots| <= MAX_TID_VALUE
    ensures Std.PassUp(HeldMap(start, slots), Mask(start + i), n) == Deliver(slots[i..i + n])
    decreases n
  {
    if n > 0 {
      HeldAt(start, slots, i);
      PassUpIsDeliver(start, slots, i + 1, n - 1);
      MaskAdd(start + i, 1);
      assert slots[i..i + n][1..] == slots[i + 1..i + 1 + (n - 1)];
    }
  }

  lemma {:induction false} PassUpBeyond<P>(start: int, slots: seq<Slot<P>>, i: nat, n: nat)
    requires |slots| <= i && i + n <= MAX_TID_VALUE
    ensures Std.PassUp(HeldMap(start, slots), Mask(start + i), n) == []
    decreases n
  {
    if n > 0 {
      HeldBeyond(start, slots, i);
      PassUpBeyond(start, slots, i + 1, n - 1);
      MaskAdd(start + i, 1);
    }
  }

  lemma {:induction false} PassUpSplit<P>(held: map<int, P>, s: int, a: nat, b: nat)
    requires IsSeq(s)
    ensures Std.PassUp(held, s, a + b) == Std.PassUp(held, s, a) + Std.PassUp(held, Mask(s + a), b)
    decreases a
  {
    if a == 0 {
    } else {
      PassUpSplit(held, Mask(s + 1), a - 1, b);
      MaskAdd(s + 1, a - 1);
    }
  }

  lemma RotatedAt<P>(start: int, slots: seq<Slot<P>>, n: nat, newStart: int, k: int)
    requires n <= |slots| <= MAX_WIN_SIZE && IsSeq(k) && Mask(newStart) == Mask(start + n)
    ensures k in HeldMap(newStart, Rotate(slots, n)) <==> k in HeldMap(start, slots) && Dist(start, k) >= n
    ensures k in HeldMap(newStart, Rotate(slots, n))
        ==> HeldMap(newStart, Rotate(slots, n))[k] == HeldMap(start, slots)[k]
  {
    var d := Dist(start, k);
    DistMask(newStart, k);
    if d >= n {
      DistShift(start, n, k);
    } else {
      DistShiftBehind(start, n, k);
    }
  }

  /** What is left in the map after advancing is what is left in the array after rotating. */
  lemma AdvanceLeaves<P>(e: Entry<P>, n: nat, newStart: int)
    requires e.winSize == |e.slots| <= MAX_WIN_SIZE && n <= e.winSize && Mask(newStart) == Mask(e.startWin + n)
    ensures Std.Advance(View(e), n).buffer.held == HeldMap(newStart, Rotate(e.slots, n))
  {
    var left := Std.Advance(View(e), n).buffer.held;
    var right := HeldMap(newStart, Rotate(e.slots, n));
    forall k: int
      ensures k in left <==> k in right
      ensures k in left ==> left[k] == right[k]
    {
      if IsSeq(k) {
        DistMask(e.startWin, k);
        RotatedAt(e.startWin, e.slots, n, newStart, k);
      }
    }
    assert left.Keys == right.Keys;
  }

  /** Advancing the map by at most the window size is rotating the array. */
  lemma AdvanceIsRotate<P>(e: Entry<P>, n: nat, newStart: int)
    requires e.winSize == |e.slots| <= MAX_WIN_SIZE && n <= e.winSize && Mask(newStart) == Mask(e.startWin + n)
    ensures Std.Advance(View(e), n)
         == Std.Result(View(e.(slots := Rotate(e.slots, n), startWin := newStart)), Deliver(e.slots[..n]), true)
  {
    AdvanceLeaves(e, n, newStart);
    PassUpIsDeliver(e.startWin, e.slots, 0, n);
    assert e.slots[0..0 + n] == e.slots[..n];
    MaskAdd(e.startWin, n);
  }

  lemma PassUpEverything<P>(start: int, slots: seq<Slot<P>>, n: nat)
    requires |slots| <= n <= MAX_TID_VALUE
    ensures Std.PassUp(HeldMap(start, slots), Mask(start), n) == Deliver(slots)
  {
    hide HeldMap, Std.PassUp, Deliver;
    var w := |slots|;
    PassUpSplit(HeldMap(start, slots), Mask(start), w, n - w);
    PassUpIsDeliver(start, slots, 0, w);
    assert slots[0..0 + w] == slots;
    MaskAdd(start, w);
    PassUpBeyond(start, slots, w, n - w);
  }

  lemma NothingLeft<P>(e: Entry<P>, n: nat)
    requires |e.slots| <= n
    ensures Std.Advance(View(e), n).buffer.held == map[]
  {
    forall k | k in HeldMap(e.startWin, e.slots)
      ensures Dist(Mask(e.startWin), k) < n
    {
      DistMask(e.startWin, k);
    }
  }

  /** Advancing the map by the window size or more empties it and passes everything up. */
  lemma AdvancePastWindow<P>(e: Entry<P>, n: nat)
    requires e.winSize == |e.slots| <= MAX_WIN_SIZE && e.winSize <= n <= MAX_TID_VALUE
    ensures var r := Std.Advance(View(e), n);
            && r.buffer == Std.RecvBuffer(Mask(e.startWin + n), e.winSize, map[])
            && r.out == Deliver(e.slots) && r.ok
  {
    PassUpEverything(e.startWin, e.slots, n);
    NothingLeft(e, n);
    MaskAdd(e.startWin, n);
  }

  lemma {:induction false} InSequenceIsPrefix<P>(start: int, slots: seq<Slot<P>>, i: nat)
    requires i <= |slots| <= MAX_TID_VALUE
    ensures Std.InSequence(HeldMap(start, slots), Mask(start + i), |slots| - i) == FullPrefix(slots[i..])
    decreases |slots| - i
  {
    if i < |slots| {
      HeldAt(start, slots, i);
      InSequenceIsPrefix(start, slots, i + 1);
      MaskAdd(start + i, 1);
      assert slots[i..][1..] == slots[i + 1..];
    }
  }

  /** The scan is the standard's release. */
  lemma ScanIsRelease<P>(e: Entry<P>)
    requires e.winSize == |e.slots| <= MAX_WIN_SIZE
    ensures var p := ScanAndDispatch(e);
            Std.Release(View(e)) == Std.Result(View(p.entry), p.out, true)
  {
    InSequenceIsPrefix(e.startWin, e.slots, 0);
    assert e.slots[0..] == e.slots;
    var n := FullPrefix(e.slots);
    var s := Mask(e.startWin + n);
    MaskOfSeq(s);
    AdvanceIsRotate(e, n, s);
    assert ScanAndDispatch(e).entry == e.(slots := Rotate(e.slots, n), startWin := s);
  }

  lemma StoreIsInsert<P>(e: Entry<P>, sn: int, p: P)
    requires 0 <= e.startWin <= MAX_TID_VALUE && IsSeq(sn) && e.winSize == |e.slots| <= MAX_WIN_SIZE
    requires 0 <= SlotIndex(e.startWin, sn) < e.winSize
    ensures SlotTaken(e, sn) <==> sn in View(e).held
    ensures View(Store(e, sn, p)) == View(e).(held := View(e).held[sn := p])
  {
    SlotIndexIsDist(e.startWin, sn);
    var i := SlotIndex(e.startWin, sn);
    var left, right := HeldMap(e.startWin, e.slots[i := Held(p)]), HeldMap(e.startWin, e.slots)[sn := p];
    forall k | IsSeq(k) && k != sn
      ensures Dist(e.startWin, k) != i
    {
      assert Mask(e.startWin + Dist(e.startWin, k)) == k;
    }
    assert left == right;
  }

  // ---- Forced slides ----

  /** How far the standard slides for `target`. */
  function SlideDistance<P>(e: Entry<P>, target: int): int {
    Dist(e.startWin, target) - e.winSize + 1
  }

  /** The slide wraps numerically while a packet that belongs to the new window is held. */
  ghost predicate Premature<P>(e: Entry<P>, target: int) {
    && e.winSize == |e.slots|
    && Dist(e.startWin, target) >= e.winSize
    && SlideStart(target, e.winSize) <= e.startWin
    && exists i :: 0 <= i < e.winSize && SlideDistance(e, target) <= i && e.slots[i].Held?
  }

  /** The slide the standard makes for `target`. */
  ghost function StdSlide<P>(b: Std.RecvBuffer<P>, target: int): Std.Result<P> {
    var d := Dist(b.winStart, target);
    if d < b.winSize then Std.Result(b, [], true) else Std.Advance(b, d - b.winSize + 1)
  }

  /** A wrapping slide gives up the whole array; any other slide follows the distance. */
  lemma SlideCountIs(startWin: int, winSize: nat, target: int)
    requires 0 <= startWin <= MAX_TID_VALUE && 2 <= winSize <= MAX_WIN_SIZE && IsSeq(target)
    requires Dist(startWin, target) >= winSize
    ensures var s := SlideStart(target, winSize);
            var n := Dist(startWin, target) - winSize + 1;
            && IsSeq(s) && Mask(startWin + n) == s
            && SlideCount(startWin, winSize, s) == (if s <= startWin || n >= winSize then winSize else n)
  {
    var s := SlideStart(target, winSize);
    var n := Dist(startWin, target) - winSize + 1;
    SlideStartIsMasked(target, winSize);
    SlotIndexIsDist(startWin, target);
    assert s == startWin + n || s == startWin + n - MAX_TID_VALUE;
  }

  lemma SlideShape<P>(e: Entry<P>, target: int)
    requires 0 <= e.startWin <= MAX_TID_VALUE && 2 <= e.winSize == |e.slots| <= MAX_WIN_SIZE && IsSeq(target)
    requires Dist(e.startWin, target) >= e.winSize
    ensures var s := SlideStart(target, e.winSize);
            var n := SlideDistance(e, target);
            && Mask(s) == Mask(e.startWin + n) && IsSeq(s) && 1 <= n
            && Slide(e, target) == DispatchUntil(e, s)
            && SlideCount(e.startWin, e.winSize, s) ==
               (if s <= e.startWin || n >= e.winSize then e.winSize else n)
  {
    OutsideIsBeyondWindow(e.startWin, e.winSize, target);
    SlideCountIs(e.startWin, e.winSize, target);
    MaskOfSeq(SlideStart(target, e.winSize));
  }

  /** A slide that delivers the whole array although the distance is shorter, but finds nothing there. */
  lemma EarlyButHarmless<P>(e: Entry<P>, n: nat, s: int)
    requires n <= e.winSize == |e.slots| <= MAX_WIN_SIZE && Mask(s) == Mask(e.startWin + n)
    requires AllEmpty(e.slots[n..])
    requires SlideCount(e.startWin, e.winSize, s) == e.winSize
    ensures var p := DispatchUntil(e, s);
            Std.Advance(View(e), n) == Std.Result(View(p.entry), p.out, true)
  {
    AdvanceIsRotate(e, n, s);
    Inv.RotateConserves(e.slots, n);
    assert AllEmpty(Rotate(e.slots, n));
    Inv.DeliverAllEmpty(Rotate(e.slots, n));
    assert e.slots[..e.winSize] == e.slots;
    assert Rotate(e.slots, e.winSize) == Rotate(e.slots, n);
  }

  lemma SlideRefines<P>(e: Entry<P>, target: int)
    requires 0 <= e.startWin <= MAX_TID_VALUE && 2 <= e.winSize == |e.slots| <= MAX_WIN_SIZE && IsSeq(target)
    requires !Premature(e, target)
    ensures var p := Slide(e, target);
            StdSlide(View(e), target) == Std.Result(View(p.entry), p.out, true)
  {
    hide HeldMap, Std.PassUp, Deliver, Mask, Dist, SlideStart, Outside;
    OutsideIsBeyondWindow(e.startWin, e.winSize, target);
    DistMask(e.startWin, target);
    if Dist(e.startWin, target) >= e.winSize {
      SlideShape(e, target);
      var s, n := SlideStart(target, e.winSize), SlideDistance(e, target);
      MaskOfSeq(s);
      if n >= e.winSize {
        AdvancePastWindow(e, n);
        assert e.slots[..e.winSize] == e.slots;
        EmptyView(s, Rotate(e.slots, e.winSize));
      } else if s > e.startWin {
        AdvanceIsRotate(e, n, s);
      } else {
        EarlyButHarmless(e, n, s);
      }
    }
  }

  lemma EmptyView<P>(start: int, slots: seq<Slot<P>>)
    requires AllEmpty(slots)
    ensures HeldMap(start, slots) == map[]
  {
  }

  // ---- Whole calls ----

  /** Neither starting up nor resuming, and no flush pending. */
  ghost predicate Steady<P>(e: Entry<P>) {
    Valid(e) && e.winSize >= 2 && !e.checkStartWin && !e.forceNoDrop && !e.flushData
  }

  /** Packets the window orders: an A-MSDU bypasses it when `amsdu` is unset. */
  predicate Ordered<P>(e: Entry<P>, kind: PacketKind) {
    kind.Amsdu? ==> e.amsdu
  }

  lemma SteadyCall<P>(e: Entry<P>, sn: int, kind: PacketKind, p: P)
    requires Steady(e) && IsSeq(sn) && Ordered(e, kind)
    ensures RxReorderPkt(e, sn, kind, p) == Window(e, sn, kind, p)
  {
    var o := Window(e, sn, kind, p);
    assert [] + o.out == o.out;
  }

  /** What the standard says about the packet. */
  ghost function StdCall<P>(b: Std.RecvBuffer<P>, sn: int, kind: PacketKind, p: P): Std.Result<P> {
    if kind.Bar? then Std.ReceiveBar(b, sn) else Std.ReceiveData(b, sn, p)
  }

  /** Placing a packet after the slide, on both sides. */
  ghost function StdPlace<P>(b: Std.RecvBuffer<P>, sn: int, kind: PacketKind, p: P): Std.Result<P> {
    if kind.Bar? then Std.Release(b)
    else if sn in b.held then Std.Result(b, [], false)
    else Std.Release(b.(held := b.held[sn := p]))
  }

  lemma PlaceRefines<P>(e: Entry<P>, sn: int, kind: PacketKind, p: P)
    requires 0 <= e.startWin <= MAX_TID_VALUE && IsSeq(sn) && e.winSize == |e.slots| <= MAX_WIN_SIZE
    requires 0 <= SlotIndex(e.startWin, sn) < e.winSize
    ensures var o := Place(e, sn, kind, p);
            StdPlace(View(e), sn, kind, p) == Std.Result(View(o.entry), o.out, o.ok)
  {
    StoreIsInsert(e, sn, p);
    if kind.Bar? {
      ScanIsRelease(e);
    } else if !SlotTaken(e, sn) {
      ScanIsRelease(Store(e, sn, p));
    }
  }

  lemma AdvanceByZero<P>(start: int, slots: seq<Slot<P>>, winSize: nat)
    ensures var b := Std.RecvBuffer(Mask(start), winSize, HeldMap(start, slots));
            Std.Advance(b, 0) == Std.Result(b, [], true)
  {
  }

  /** A BAR for `sn` asks for the window that ends `winSize - 1` later. */
  lemma TargetDistance(startWin: int, winSize: nat, sn: int, kind: PacketKind)
    requires 2 <= winSize <= MAX_WIN_SIZE && IsSeq(sn) && Dist(startWin, sn) < TWOPOW11
    ensures var t := Target(sn, kind, winSize);
            IsSeq(t) && Dist(startWin, t) == Dist(startWin, sn) + (if kind.Bar? then winSize - 1 else 0)
  {
    if kind.Bar? {
      MaskAdd(startWin + Dist(startWin, sn), winSize - 1);
      MaskAdd(sn, winSize - 1);
      DistUnique(startWin, Mask(sn + winSize - 1), Dist(startWin, sn) + winSize - 1);
    }
  }

  /** The standard's step, cut at the slide. */
  lemma StdInTwoSteps<P>(e: Entry<P>, sn: int, kind: PacketKind, p: P)
    requires e.winSize == |e.slots| && 2 <= e.winSize <= MAX_WIN_SIZE && IsSeq(sn)
    requires Dist(e.startWin, sn) < TWOPOW11
    ensures var t := Target(sn, kind, e.winSize);
            var slid := StdSlide(View(e), t);
            var r := StdPlace(slid.buffer, sn, kind, p);
            StdCall(View(e), sn, kind, p) == Std.Result(r.buffer, slid.out + r.out, r.ok)
  {
    hide Mask, Dist, HeldMap, Std.PassUp, Std.InSequence;
    DistMask(e.startWin, sn);
    TargetDistance(e.startWin, e.winSize, sn, kind);
    DistMask(e.startWin, Target(sn, kind, e.winSize));
    AdvanceByZero(e.startWin, e.slots, e.winSize);
    var slid := StdSlide(View(e), Target(sn, kind, e.winSize));
    assert slid.out + [] == slid.out;
  }

  /** Outside the exception, the call is the standard's step. */
  lemma RefinesUnlessPremature<P>(e: Entry<P>, sn: int, kind: PacketKind, p: P)
    requires Steady(e) && IsSeq(sn)
    requires TooOld(e.startWin, sn) || !Premature(e, Target(sn, kind, e.winSize))
    ensures var o := Window(e, sn, kind, p);
            StdCall(View(e), sn, kind, p) == Std.Result(View(o.entry), o.out, o.ok)
  {
    TooOldIsFarAhead(e.startWin, sn);
    DistMask(e.startWin, sn);
    if !TooOld(e.startWin, sn) {
      var t := Target(sn, kind, e.winSize);
      SlideRefines(e, t);
      SlotInRange(e.startWin, e.winSize, t);
      Inv.SlideKeeps(e, t);
      PlaceRefines(Slide(e, t).entry, t, kind, p);
      StdInTwoSteps(e, sn, kind, p);
    }
  }

  // ---- The exception ----

  lemma StoreInEmptyStays<P>(e: Entry<P>, sn: int, p: P)
    requires IsSeq(e.startWin) && IsSeq(sn) && 2 <= e.winSize == |e.slots| <= MAX_WIN_SIZE && AllEmpty(e.slots)
    requires SlotIndex(e.startWin, sn) == e.winSize - 1
    ensures var q := ScanAndDispatch(Store(e, sn, p));
            && q.out == [] && q.entry == Store(e, sn, p)
            && View(q.entry) == Std.RecvBuffer(e.startWin, e.winSize, map[sn := p])
  {
    StoreIsInsert(e, sn, p);
    EmptyView(e.startWin, e.slots);
    MaskOfSeq(e.startWin);
    var st := Store(e, sn, p);
    assert st.slots[0] == Empty;
    assert Rotate(st.slots, 0) == st.slots;
  }

  /** A premature slide clears the array and passes everything up. */
  lemma PrematureSlide<P>(e: Entry<P>, t: int)
    requires Steady(e) && IsSeq(t) && Premature(e, t)
    ensures var p := Slide(e, t);
            && AllEmpty(p.entry.slots) && p.out == Deliver(e.slots)
            && p.entry == e.(slots := p.entry.slots, startWin := SlideStart(t, e.winSize))
            && |p.entry.slots| == e.winSize && IsSeq(p.entry.startWin)
            && SlotIndex(p.entry.startWin, t) == e.winSize - 1
  {
    SlideShape(e, t);
    SlideStartIsMasked(t, e.winSize);
    SlotIndexIsDist(SlideStart(t, e.winSize), t);
    assert e.slots[..e.winSize] == e.slots;
  }

  lemma PlaceInEmpty<P>(f: Entry<P>, t: int, kind: PacketKind, p: P)
    requires IsSeq(f.startWin) && IsSeq(t) && 2 <= f.winSize == |f.slots| <= MAX_WIN_SIZE && AllEmpty(f.slots)
    requires SlotIndex(f.startWin, t) == f.winSize - 1
    ensures var o := Place(f, t, kind, p);
            && o.ok && o.out == []
            && View(o.entry) == Std.RecvBuffer(f.startWin, f.winSize, if kind.Bar? then map[] else map[t := p])
  {
    if kind.Bar? {
      EmptyView(f.startWin, f.slots);
      MaskOfSeq(f.startWin);
      assert Rotate(f.slots, 0) == f.slots;
    } else {
      StoreInEmptyStays(f, t, p);
    }
  }

  /** In the exception the whole old window goes up at once, and only the new packet is held afterwards. */
  lemma PrematureOutcome<P>(e: Entry<P>, sn: int, kind: PacketKind, p: P)
    requires Steady(e) && IsSeq(sn) && !TooOld(e.startWin, sn) && Premature(e, Target(sn, kind, e.winSize))
    ensures var o := Window(e, sn, kind, p);
            && o.ok && o.out == Deliver(e.slots)
            && View(o.entry) == Std.RecvBuffer(SlideStart(Target(sn, kind, e.winSize), e.winSize), e.winSize,
                                               if kind.Bar? then map[] else map[sn := p])
  {
    var t := Target(sn, kind, e.winSize);
    PrematureSlide(e, t);
    WindowSteps(e, sn, kind, p);
    hide Mask, Dist, TooOld, Window, Slide, Premature, AllEmpty, HeldMap, ScanAndDispatch, Store;
    var slid := Slide(e, t).entry;
    assert e.(forceNoDrop := false) == e;
    PlaceSteps(slid, t, kind, p);
    PlaceInEmpty(slid, t, kind, p);
    assert Deliver(e.slots) + [] == Deliver(e.slots);
  }

  /** Releasing from a window start either moves the start or leaves everything held. */
  lemma ReleaseMovesOrKeeps<P>(b: Std.RecvBuffer<P>)
    requires IsSeq(b.winStart) && b.winSize <= MAX_WIN_SIZE
    ensures Std.Release(b).buffer.winStart != b.winStart || Std.Release(b).buffer.held == b.held
  {
    var n := Std.InSequence(b.held, b.winStart, b.winSize);
    InSequenceBounded(b.held, b.winStart, b.winSize);
    if n == 0 {
      assert (map k | k in b.held && Dist(b.winStart, k) >= n :: b.held[k]) == b.held;
    } else {
      DistUnique(b.winStart, b.winStart + n, n);
    }
  }

  lemma {:induction false} InSequenceBounded<P>(held: map<int, P>, start: int, limit: nat)
    ensures Std.InSequence(held, start, limit) <= limit
    decreases limit
  {
    if limit > 0 {
      InSequenceBounded(held, Mask(start + 1), limit - 1);
    }
  }

  lemma AdvanceKeeps<P>(start: int, slots: seq<Slot<P>>, winSize: nat, n: nat, i: nat)
    requires n <= i < |slots| <= MAX_TID_VALUE && slots[i].Held?
    ensures Mask(start + i) in Std.Advance(Std.RecvBuffer(Mask(start), winSize, HeldMap(start, slots)), n).buffer.held
  {
    HeldAt(start, slots, i);
    DistOf(start, i);
    DistMask(start, Mask(start + i));
  }

  lemma StdSlideStart<P>(e: Entry<P>, t: int)
    requires 0 <= e.startWin <= MAX_TID_VALUE && 2 <= e.winSize == |e.slots| <= MAX_WIN_SIZE && IsSeq(t)
    requires Dist(e.startWin, t) >= e.winSize
    ensures StdSlide(View(e), t).buffer.winStart == SlideStart(t, e.winSize)
  {
    hide Mask, Dist, SlideStart, Slide, SlideCount, Std.PassUp, HeldMap;
    DistMask(e.startWin, t);
    SlideShape(e, t);
    MaskAdd(e.startWin, SlideDistance(e, t));
    MaskOfSeq(SlideStart(t, e.winSize));
  }

  /** A packet that belongs to the new window stays held when the standard slides. */
  lemma StdSlideKeeps<P>(e: Entry<P>, t: int, i: nat)
    requires 0 <= e.startWin <= MAX_TID_VALUE && 2 <= e.winSize == |e.slots| <= MAX_WIN_SIZE && IsSeq(t)
    requires Dist(e.startWin, t) >= e.winSize
    requires i < e.winSize && SlideDistance(e, t) <= i && e.slots[i].Held?
    ensures var b := StdSlide(View(e), t).buffer;
            Mask(e.startWin + i) in b.held && t !in b.held && Mask(e.startWin + i) != t
  {
    AdvanceKeeps(e.startWin, e.slots, e.winSize, SlideDistance(e, t), i);
    DistOf(e.startWin, i);
    DistMask(e.startWin, t);
  }

  lemma ReleaseDiffers<P>(b: Std.RecvBuffer<P>, key: int, other: Std.RecvBuffer<P>)
    requires IsSeq(b.winStart) && b.winSize <= MAX_WIN_SIZE
    requires key in b.held && key !in other.held && other.winStart == b.winStart
    ensures Std.Release(b).buffer != other
  {
    ReleaseMovesOrKeeps(b);
  }

  /** In the exception the standard does something else. */
  lemma PrematureDiffers<P>(e: Entry<P>, sn: int, kind: PacketKind, p: P)
    requires Steady(e) && IsSeq(sn) && !TooOld(e.startWin, sn) && Premature(e, Target(sn, kind, e.winSize))
    ensures StdCall(View(e), sn, kind, p).buffer != View(Window(e, sn, kind, p).entry)
  {
    var t := Target(sn, kind, e.winSize);
    var i: nat :| i < e.winSize && SlideDistance(e, t) <= i && e.slots[i].Held?;
    StdSlideKeeps(e, t, i);
    StdSlideStart(e, t);
    TooOldIsFarAhead(e.startWin, sn);
    PrematureOutcome(e, sn, kind, p);
    StdInTwoSteps(e, sn, kind, p);
    SlideStartIsMasked(t, e.winSize);
    var b := StdSlide(View(e), t).buffer;
    ReleaseDiffers(if kind.Bar? then b else b.(held := b.held[sn := p]), Mask(e.startWin + i),
                   View(Window(e, sn, kind, p).entry));
  }

  /**
   * The main result about one call.  In steady operation a data packet, an ordered A-MSDU or a BAR changes
   * the map, passes packets up and reports success exactly as the standard's step does, if and only if it is
   * rejected as too old or does not slide prematurely.
   */
  lemma CallRefinesStandard<P>(e: Entry<P>, sn: int, kind: PacketKind, p: P)
    requires Steady(e) && IsSeq(sn) && Ordered(e, kind)
    ensures var o := RxReorderPkt(e, sn, kind, p);
            StdCall(View(e), sn, kind, p) == Std.Result(View(o.entry), o.out, o.ok)
            <==> TooOld(e.startWin, sn) || !Premature(e, Target(sn, kind, e.winSize))
  {
    SteadyCall(e, sn, kind, p);
    if TooOld(e.startWin, sn) || !Premature(e, Target(sn, kind, e.winSize)) {
      RefinesUnlessPremature(e, sn, kind, p);
    } else {
      PrematureDiffers(e, sn, kind, p);
    }
  }

  lemma UsedSpan<P>(e: Entry<P>)
    requires e.winSize == |e.slots| <= MAX_WIN_SIZE
    ensures Std.IsUsedSpan(View(e), UsedLength(e.slots))
  {
    var n := UsedLength(e.slots);
    forall k | k in View(e).held
      ensures Dist(Mask(e.startWin), k) < n
    {
      DistMask(e.startWin, k);
    }
    if n > 0 {
      HeldAt(e.startWin, e.slots, n - 1);
      MaskAdd(e.startWin, n - 1);
    }
  }

  lemma FlushCount(startWin: int, winSize: nat, n: nat)
    requires 0 <= startWin <= MAX_TID_VALUE && 1 <= n <= winSize <= MAX_WIN_SIZE
    ensures SlideCount(startWin, winSize, Mask(startWin + n)) in {n, winSize}
  {
  }

  lemma FlushIsAdvance<P>(e: Entry<P>)
    requires 0 <= e.startWin <= MAX_TID_VALUE && e.winSize == |e.slots| <= MAX_WIN_SIZE && UsedLength(e.slots) > 0
    ensures var p := FlushAll(e);
            Std.Result(View(p.entry), p.out, true) == Std.Advance(View(e), UsedLength(e.slots))
  {
    hide Dist, HeldMap, Rotate, Deliver, Std.PassUp;
    var n := UsedLength(e.slots);
    var s := Mask(e.startWin + n);
    FlushCount(e.startWin, e.winSize, n);
    MaskOfSeq(s);
    if SlideCount(e.startWin, e.winSize, s) == e.winSize {
      Inv.UnusedTail(e.slots, n);
      EarlyButHarmless(e, n, s);
    } else {
      AdvanceIsRotate(e, n, s);
    }
  }

  /** Servicing a pending flush is the standard's timeout, also when the new start wraps. */
  lemma FlushRefinesTimeout<P>(e: Entry<P>)
    requires Valid(e) && e.flushData
    ensures var p := ServicePending(e);
            Std.IsTimeout(View(e), Std.Result(View(p.entry), p.out, true))
  {
    var e1 := e.(flushData := false);
    UsedSpan(e);
    if UsedLength(e.slots) == 0 {
      AdvanceByZero(e.startWin, e.slots, e.winSize);
    } else {
      FlushIsAdvance(e1);
    }
    assert View(e1) == View(e);
  }
}
