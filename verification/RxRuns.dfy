/** Whole runs of an entry: conservation, no stranded packets, and how far delivery can be out of order. */
module RxRuns {
  import opened SeqNum
  import opened RxEntry
  import Inv = RxInvariant
  import Ref = RxRefinement
  import Std = RxStandard

  /** The state and the deliveries after a sequence of events. */
  ghost function Run<P>(e: Entry<P>, evs: seq<Event<P>>): (p: Pass<P>)
    requires Valid(e) && (forall ev :: ev in evs ==> ValidEvent(ev))
    ensures Valid(p.entry) && p.entry.winSize == e.winSize
    decreases |evs|
  {
    if evs == [] then Pass(e, [])
    else
      Inv.StepKeeps(e, evs[0]);
      var o := Step(e, evs[0]);
      var rest := Run(o.entry, evs[1..]);
      Pass(rest.entry, o.out + rest.out)
  }

  /** The payloads of all non-BAR calls that returned success. */
  ghost function Accepted<P>(e: Entry<P>, evs: seq<Event<P>>): seq<P>
    requires Valid(e) && (forall ev :: ev in evs ==> ValidEvent(ev))
    decreases |evs|
  {
    if evs == [] then []
    else
      Inv.StepKeeps(e, evs[0]);
      var o := Step(e, evs[0]);
      Inv.AcceptedBy(evs[0], o.ok) + Accepted(o.entry, evs[1..])
  }

  /** Over any run, accepted payloads are, as a multiset, the delivered ones plus the buffered ones. */
  lemma {:induction false} RunConserves<P>(e: Entry<P>, evs: seq<Event<P>>)
    requires Valid(e) && (forall ev :: ev in evs ==> ValidEvent(ev))
    ensures Inv.Accounts(e.slots, Accepted(e, evs), Run(e, evs).out, Run(e, evs).entry.slots)
    decreases |evs|
  {
    if evs != [] {
      Inv.StepKeeps(e, evs[0]);
      var o := Step(e, evs[0]);
      RunConserves(o.entry, evs[1..]);
      AccountsJoin(e.slots, Inv.AcceptedBy(evs[0], o.ok), o.out, o.entry.slots,
                   Accepted(o.entry, evs[1..]), Run(o.entry, evs[1..]).out, Run(o.entry, evs[1..]).entry.slots);
    }
  }

  lemma AccountsJoin<P>(s0: seq<Slot<P>>, acc1: seq<P>, out1: seq<P>, s1: seq<Slot<P>>,
                        acc2: seq<P>, out2: seq<P>, s2: seq<Slot<P>>)
    requires Inv.Accounts(s0, acc1, out1, s1) && Inv.Accounts(s1, acc2, out2, s2)
    ensures Inv.Accounts(s0, acc1 + acc2, out1 + out2, s2)
  {
    assert multiset(out1 + out2) + multiset(Deliver(s2))
        == multiset(out1) + (multiset(out2) + multiset(Deliver(s2)))
        == (multiset(out1) + multiset(Deliver(s1))) + multiset(acc2);
  }

  /** A held packet has a timer running or a flush pending; once the timer expires, a flush is pending. */
  lemma NotStranded<P>(e: Entry<P>)
    requires Valid(e)
    ensures !AllEmpty(e.slots) ==> e.timerIsSet || e.flushData
    ensures var expired := Step(e, TimerExpires).entry;
            && Valid(expired) && expired.slots == e.slots && (!AllEmpty(e.slots) ==> expired.flushData)
  {
  }

  lemma FlushDelivers<P>(e: Entry<P>)
    requires Valid(e) && e.flushData
    ensures Step(e, ServiceFlush).out == Deliver(e.slots) && AllEmpty(Step(e, ServiceFlush).entry.slots)
  {
    hide Mask, Dist, Deliver;
    Inv.ServiceEmpties(e);
    var p := ServicePending(e);
    Inv.DeliverAllEmpty(p.entry.slots);
    assert p.out + [] == p.out;
  }

  /** No run strands a packet. */
  lemma RunStrandsNothing<P>(e: Entry<P>, evs: seq<Event<P>>)
    requires Valid(e) && (forall ev :: ev in evs ==> ValidEvent(ev))
    ensures var f := Run(e, evs).entry;
            && (!AllEmpty(f.slots) ==> f.timerIsSet || f.flushData)
            && var expired := Step(f, TimerExpires).entry;
               && Valid(expired)
               && (!AllEmpty(f.slots) ==> expired.flushData)
               && (expired.flushData ==> Step(expired, ServiceFlush).out == Deliver(f.slots)
                                         && AllEmpty(Step(expired, ServiceFlush).entry.slots))
  {
    hide Mask, AllEmpty, Deliver, Step, Run;
    var f := Run(e, evs).entry;
    NotStranded(f);
    var expired := Step(f, TimerExpires).entry;
    if expired.flushData {
      FlushDelivers(expired);
    }
  }

  // ---- Order of delivery ----

  /** `num` assigns each payload its sequence number unwrapped to an unbounded counter. */
  ghost predicate NumberedFrom<P>(slots: seq<Slot<P>>, u: int, num: P -> int) {
    forall i :: 0 <= i < |slots| && slots[i].Held? ==> num(slots[i].payload) == u + i
  }

  /** Strictly increasing, within [lo, hi). */
  ghost predicate Increasing<P>(out: seq<P>, lo: int, hi: int, num: P -> int) {
    && (forall i :: 0 <= i < |out| ==> lo <= num(out[i]) < hi)
    && (forall i, j :: 0 <= i < j < |out| ==> num(out[i]) < num(out[j]))
  }

  /** At most `w` out of order, and less than `w` ahead of `hi`. */
  ghost predicate Banded<P>(out: seq<P>, lo: int, hi: int, w: int, num: P -> int) {
    && (forall i :: 0 <= i < |out| ==> lo <= num(out[i]) < hi + w)
    && (forall i, j :: 0 <= i < j < |out| ==> num(out[i]) - w < num(out[j]))
  }

  lemma {:induction false} DeliverIncreasing<P>(slots: seq<Slot<P>>, u: int, num: P -> int)
    requires NumberedFrom(slots, u, num)
    ensures Increasing(Deliver(slots), u, u + |slots|, num)
  {
    if slots != [] {
      assert forall i :: 0 <= i < |slots| - 1 ==> slots[1..][i] == slots[i + 1];
      DeliverIncreasing(slots[1..], u + 1, num);
    }
  }

  lemma IncreasingJoin<P>(a: seq<P>, b: seq<P>, lo: int, mid: int, hi: int, num: P -> int)
    requires Increasing(a, lo, mid, num) && Increasing(b, mid, hi, num) && lo <= mid <= hi
    ensures Increasing(a + b, lo, hi, num)
  {
  }

  lemma BandedJoin<P>(a: seq<P>, b: seq<P>, lo: int, mid: int, hi: int, w: int, num: P -> int)
    requires Banded(a, lo, mid, w, num) && Banded(b, mid, hi, w, num) && lo <= mid <= hi
    ensures Banded(a + b, lo, hi, w, num)
  {
  }

  /**
   * What one stage of an operation does when the window starts at the unwrapped number `u`: it moves the
   * start forward by `t`, keeps the numbering, and delivers within the band; in order if `strict`.
   */
  ghost predicate Moves<P>(e: Entry<P>, u: int, out: seq<P>, e2: Entry<P>, t: int, strict: bool, num: P -> int) {
    && 0 <= t && Mask(e2.startWin) == Mask(e.startWin + t)
    && NumberedFrom(e2.slots, u + t, num)
    && Banded(out, u, u + t, e.winSize, num)
    && (strict ==> Increasing(out, u, u + t, num))
  }

  lemma MovesJoin<P>(e: Entry<P>, u: int, out1: seq<P>, e1: Entry<P>, t1: int, s1: bool,
                     out2: seq<P>, e2: Entry<P>, t2: int, s2: bool, num: P -> int)
    requires e1.winSize == e.winSize
    requires Moves(e, u, out1, e1, t1, s1, num) && Moves(e1, u + t1, out2, e2, t2, s2, num)
    ensures Moves(e, u, out1 + out2, e2, t1 + t2, s1 && s2, num)
  {
    MaskAdd(e.startWin + t1, t2);
    MaskAdd(e1.startWin, t2);
    BandedJoin(out1, out2, u, u + t1, u + t1 + t2, e.winSize, num);
    if s1 && s2 {
      IncreasingJoin(out1, out2, u, u + t1, u + t1 + t2, num);
    }
  }

  lemma IncreasingIsBanded<P>(out: seq<P>, lo: int, hi: int, w: int, num: P -> int)
    requires Increasing(out, lo, hi, num) && w >= 0
    ensures Banded(out, lo, hi, w, num)
  {
  }

  /** The slots given up are in order within the `m` numbers they stand for, and a full rotation leaves none. */
  lemma GivenUp<P>(slots: seq<Slot<P>>, u: int, m: nat, w: nat, num: P -> int)
    requires m <= |slots| && NumberedFrom(slots, u, num)
    ensures Increasing(Deliver(slots[..m]), u, u + m, num) && Banded(Deliver(slots[..m]), u, u + m, w, num)
    ensures NumberedFrom(Rotate(slots, m), u + m, num)
    ensures m == |slots| ==> forall v :: NumberedFrom(Rotate(slots, m), v, num)
  {
    hide Deliver, Increasing, Banded;
    DeliverIncreasing(slots[..m], u, num);
    IncreasingIsBanded(Deliver(slots[..m]), u, u + m, w, num);
    RotateNumbered(slots, u, m, num);
  }

  /** With nothing held from slot `t` on, the slots up to `m` deliver what those up to `t` do. */
  lemma EmptyTail<P>(slots: seq<Slot<P>>, t: nat, m: nat)
    requires t <= m <= |slots| && AllEmpty(slots[t..])
    ensures Deliver(slots[..m]) == Deliver(slots[..t])
  {
    hide Deliver;
    assert slots[..m] == slots[..t] + slots[t..m];
    assert slots[t..m] == slots[t..][..m - t];
    Inv.DeliverConcat(slots[..t], slots[t..m]);
    Inv.DeliverAllEmpty(slots[t..m]);
  }

  lemma Widen<P>(out: seq<P>, lo: int, m: int, t: int, w: int, num: P -> int)
    requires Increasing(out, lo, lo + m, num)
    ensures m <= t ==> Increasing(out, lo, lo + t, num)
    ensures 0 <= t && m <= t + w && 0 <= w ==> Banded(out, lo, lo + t, w, num)
  {
  }

  /** Giving up `m` slots while the start moves by `t`: in order, and early only when m exceeds t. */
  lemma DispatchMoves<P>(e: Entry<P>, u: int, s: int, t: nat, num: P -> int)
    requires e.winSize == |e.slots| && NumberedFrom(e.slots, u, num)
    requires IsSeq(s) && Mask(e.startWin + t) == s
    requires var m := SlideCount(e.startWin, e.winSize, s); m == t || m == e.winSize
    ensures var p := DispatchUntil(e, s);
            Moves(e, u, p.out, p.entry, t,
                  t >= e.winSize || AllEmpty(e.slots[t..]) || SlideCount(e.startWin, e.winSize, s) == t, num)
  {
    hide Deliver, Mask, Rotate, Increasing, Banded, NumberedFrom, AllEmpty;
    var m := SlideCount(e.startWin, e.winSize, s);
    MaskOfSeq(s);
    GivenUp(e.slots, u, m, e.winSize, num);
    Widen(Deliver(e.slots[..m]), u, m, t, e.winSize, num);
    if t < m && AllEmpty(e.slots[t..]) {
      EmptyTail(e.slots, t, m);
      GivenUp(e.slots, u, t, e.winSize, num);
    }
  }

  lemma RotateNumbered<P>(slots: seq<Slot<P>>, u: int, m: nat, num: P -> int)
    requires m <= |slots| && NumberedFrom(slots, u, num)
    ensures NumberedFrom(Rotate(slots, m), u + m, num)
  {
    forall i | 0 <= i < |slots| && Rotate(slots, m)[i].Held?
      ensures num(Rotate(slots, m)[i].payload) == u + m + i
    {
      assert Rotate(slots, m)[i] == slots[m + i];
    }
  }

  lemma ScanMoves<P>(e: Entry<P>, u: int, num: P -> int)
    requires e.winSize == |e.slots| && NumberedFrom(e.slots, u, num)
    ensures var p := ScanAndDispatch(e);
            Moves(e, u, p.out, p.entry, FullPrefix(e.slots), true, num)
  {
    hide Deliver, FullPrefix;
    var n := FullPrefix(e.slots);
    MaskOfSeq(Mask(e.startWin + n));
    RotateNumbered(e.slots, u, n, num);
    DeliverIncreasing(e.slots[..n], u, num);
    IncreasingIsBanded(Deliver(e.slots[..n]), u, u + n, e.winSize, num);
  }

  /** How far the window start moves in a slide for `target`. */
  function SlideBy<P>(e: Entry<P>, target: int): nat {
    if Dist(e.startWin, target) >= e.winSize then Dist(e.startWin, target) - e.winSize + 1 else 0
  }

  lemma SlideMoves<P>(e: Entry<P>, u: int, target: int, num: P -> int)
    requires Valid(e) && 2 <= e.winSize && IsSeq(target) && NumberedFrom(e.slots, u, num)
    ensures var p := Slide(e, target);
            Moves(e, u, p.out, p.entry, SlideBy(e, target), !Ref.Premature(e, target), num)
  {
    OutsideIsBeyondWindow(e.startWin, e.winSize, target);
    if Dist(e.startWin, target) >= e.winSize {
      Ref.SlideShape(e, target);
      var s := SlideStart(target, e.winSize);
      MaskOfSeq(s);
      DispatchMoves(e, u, s, SlideBy(e, target), num);
    }
  }

  /** Storing keeps the numbering when the payload is numbered by its distance. */
  lemma StoreNumbered<P>(e: Entry<P>, u: int, sn: int, p: P, num: P -> int)
    requires 0 <= e.startWin <= MAX_TID_VALUE && IsSeq(sn) && 0 <= SlotIndex(e.startWin, sn) < |e.slots|
    requires NumberedFrom(e.slots, u, num) && num(p) == u + Dist(e.startWin, sn)
    ensures NumberedFrom(Store(e, sn, p).slots, u, num)
  {
    SlotIndexIsDist(e.startWin, sn);
  }

  function PlaceBy<P>(e: Entry<P>, target: int, kind: PacketKind, payload: P): (t: nat)
    requires 0 <= SlotIndex(e.startWin, target) < |e.slots|
    ensures t <= |e.slots|
  {
    if kind.Bar? then FullPrefix(e.slots)
    else if SlotTaken(e, target) then 0
    else FullPrefix(Store(e, target, payload).slots)
  }

  /** `Moves` looks only at the start and size of the first entry, and at the start and slots of the second. */
  lemma MovesSame<P>(e: Entry<P>, u: int, out: seq<P>, e2: Entry<P>, t: int, s: bool, num: P -> int,
                     f: Entry<P>, f2: Entry<P>)
    requires Moves(e, u, out, e2, t, s, num)
    requires f.startWin == e.startWin && f.winSize == e.winSize
    requires f2.startWin == e2.startWin && f2.slots == e2.slots
    ensures Moves(f, u, out, f2, t, s, num)
  {
  }

  lemma PlaceByIs<P>(e: Entry<P>, target: int, kind: PacketKind, payload: P)
    requires 0 <= SlotIndex(e.startWin, target) < |e.slots|
    ensures PlaceBy(e, target, kind, payload)
         == if !kind.Bar? && SlotTaken(e, target) then 0
            else FullPrefix((if kind.Bar? then e else Store(e, target, payload)).slots)
  {
  }

  lemma StoreShape<P>(e: Entry<P>, target: int, payload: P)
    requires 0 <= SlotIndex(e.startWin, target) < |e.slots|
    ensures var s := Store(e, target, payload);
            s.startWin == e.startWin && s.winSize == e.winSize && |s.slots| == |e.slots|
  {
  }

  lemma PlaceMoves<P>(e: Entry<P>, u: int, target: int, kind: PacketKind, payload: P, num: P -> int)
    requires 0 <= e.startWin <= MAX_TID_VALUE && IsSeq(target) && e.winSize == |e.slots|
    requires 0 <= SlotIndex(e.startWin, target) < e.winSize
    requires NumberedFrom(e.slots, u, num) && (!kind.Bar? ==> num(payload) == u + Dist(e.startWin, target))
    ensures var o := Place(e, target, kind, payload);
            Moves(e, u, o.out, o.entry, PlaceBy(e, target, kind, payload), true, num)
  {
    hide *;
    PlaceSteps(e, target, kind, payload);
    PlaceByIs(e, target, kind, payload);
    var o := Place(e, target, kind, payload);
    if !kind.Bar? && SlotTaken(e, target) {
      StayMoves(e, u, o.entry, num);
    } else if kind.Bar? {
      ScanMoves(e, u, num);
      var p := ScanAndDispatch(e);
      MovesSame(e, u, p.out, p.entry, FullPrefix(e.slots), true, num, e, o.entry);
    } else {
      StoreNumbered(e, u, target, payload, num);
      StoreShape(e, target, payload);
      var s := Store(e, target, payload);
      ScanMoves(s, u, num);
      var p := ScanAndDispatch(s);
      MovesSame(s, u, p.out, p.entry, FullPrefix(s.slots), true, num, e, o.entry);
    }
  }

  lemma StayMoves<P>(e: Entry<P>, u: int, e2: Entry<P>, num: P -> int)
    requires NumberedFrom(e.slots, u, num) && e2.slots == e.slots && e2.startWin == e.startWin
    ensures Moves(e, u, [], e2, 0, true, num)
  {
  }

  /** A number that survives the slide keeps its unwrapped value. */
  lemma SlideKeepsTag<P>(e: Entry<P>, target: int)
    requires Valid(e) && 2 <= e.winSize && IsSeq(target)
    ensures Dist(Slide(e, target).entry.startWin, target) == Dist(e.startWin, target) - SlideBy(e, target)
  {
    OutsideIsBeyondWindow(e.startWin, e.winSize, target);
    if Dist(e.startWin, target) >= e.winSize {
      SlideStartIsMasked(target, e.winSize);
    }
  }

  /** How far one accepted call moves the window start. */
  function WindowBy<P>(e: Entry<P>, sn: int, kind: PacketKind, payload: P): nat
    requires 2 <= e.winSize == |e.slots| <= MAX_WIN_SIZE && 0 <= e.startWin <= MAX_TID_VALUE && IsSeq(sn)
  {
    if TooOld(e.startWin, sn) then 0
    else
      var t := Target(sn, kind, e.winSize);
      SlideInRange(e, t);
      SlideBy(e, t) + PlaceBy(Slide(e, t).entry, t, kind, payload)
  }

  lemma WindowByIs<P>(e: Entry<P>, sn: int, kind: PacketKind, payload: P)
    requires 2 <= e.winSize == |e.slots| <= MAX_WIN_SIZE && 0 <= e.startWin <= MAX_TID_VALUE && IsSeq(sn)
    requires !e.forceNoDrop
    ensures TooOld(e.startWin, sn) ==> WindowBy(e, sn, kind, payload) == 0
    ensures !TooOld(e.startWin, sn) ==>
              var t := Target(sn, kind, e.winSize);
              && IsSeq(t) && (!kind.Bar? ==> t == sn) && e.(forceNoDrop := false) == e
              && 0 <= SlotIndex(Slide(e, t).entry.startWin, t) < |Slide(e, t).entry.slots|
              && WindowBy(e, sn, kind, payload) == SlideBy(e, t) + PlaceBy(Slide(e, t).entry, t, kind, payload)
  {
    if !TooOld(e.startWin, sn) {
      SlideInRange(e, Target(sn, kind, e.winSize));
    }
  }

  lemma SlideShapeOf<P>(e: Entry<P>, target: int)
    requires Valid(e) && IsSeq(target) && e.winSize >= 2 && !e.checkStartWin
    ensures var f := Slide(e, target).entry;
            0 <= f.startWin <= MAX_TID_VALUE && f.winSize == |f.slots| == e.winSize
  {
    Inv.SlideKeeps(e, target);
  }

  lemma WindowMoves<P>(e: Entry<P>, u: int, sn: int, kind: PacketKind, payload: P, num: P -> int)
    requires Valid(e) && 2 <= e.winSize == |e.slots| <= MAX_WIN_SIZE && 0 <= e.startWin <= MAX_TID_VALUE
    requires IsSeq(sn) && !e.checkStartWin && !e.forceNoDrop
    requires NumberedFrom(e.slots, u, num)
    requires !kind.Bar? && !TooOld(e.startWin, sn) ==> num(payload) == u + Dist(e.startWin, sn)
    ensures var o := Window(e, sn, kind, payload);
            Moves(e, u, o.out, o.entry, WindowBy(e, sn, kind, payload),
                  TooOld(e.startWin, sn) || !Ref.Premature(e, Target(sn, kind, e.winSize)), num)
  {
    hide *;
    WindowByIs(e, sn, kind, payload);
    if TooOld(e.startWin, sn) {
      WindowDrops(e, sn, kind, payload);
      StayMoves(e, u, Window(e, sn, kind, payload).entry, num);
    } else {
      WindowSteps(e, sn, kind, payload);
      var t := Target(sn, kind, e.winSize);
      SlideShapeOf(e, t);
      SlideMoves(e, u, t, num);
      SlideKeepsTag(e, t);
      var slid := Slide(e, t);
      var t1 := SlideBy(e, t);
      MovesNumbered(e, u, slid.out, slid.entry, t1, !Ref.Premature(e, t), num);
      PlaceMoves(slid.entry, u + t1, t, kind, payload, num);
      var o := Place(slid.entry, t, kind, payload);
      MovesJoin(e, u, slid.out, slid.entry, t1, !Ref.Premature(e, t),
                o.out, o.entry, PlaceBy(slid.entry, t, kind, payload), true, num);
    }
  }

  lemma WindowByBounded<P>(e: Entry<P>, sn: int, kind: PacketKind, payload: P)
    requires 2 <= e.winSize == |e.slots| <= MAX_WIN_SIZE && 0 <= e.startWin <= MAX_TID_VALUE && IsSeq(sn)
    ensures WindowBy(e, sn, kind, payload) < 2048 + e.winSize <= 3071
  {
    TooOldIsFarAhead(e.startWin, sn);
    if !TooOld(e.startWin, sn) {
      Ref.TargetDistance(e.startWin, e.winSize, sn, kind);
    }
  }

  /** Out of start-up and not resuming; a flush may be pending. */
  ghost predicate Quiet<P>(e: Entry<P>) {
    Valid(e) && e.winSize >= 2 && !e.checkStartWin && !e.forceNoDrop
  }

  /** Events that keep the entry quiet and in order: no resume, no A-MSDU bypass. */
  ghost predicate QuietEvent<P>(e: Entry<P>, ev: Event<P>) {
    && ValidEvent(ev)
    && (ev.Receive? ==> Ref.Ordered(e, ev.kind))
    && (ev.SetNoDrop? ==> !ev.flag)
  }

  lemma FlushAllMoves<P>(e: Entry<P>, u: int, num: P -> int)
    requires 0 <= e.startWin <= MAX_TID_VALUE && e.winSize == |e.slots| <= MAX_WIN_SIZE
    requires NumberedFrom(e.slots, u, num)
    ensures var p := FlushAll(e);
            Moves(e, u, p.out, p.entry, UsedLength(e.slots), true, num)
  {
    hide Moves, Deliver, Rotate;
    var n := UsedLength(e.slots);
    if n > 0 {
      var s := Mask(e.startWin + n);
      Ref.FlushCount(e.startWin, e.winSize, n);
      Inv.UnusedTail(e.slots, n);
      DispatchMoves(e, u, s, n, num);
    } else {
      StayMoves(e, u, e, num);
    }
  }

  lemma FlushMoves<P>(e: Entry<P>, u: int, num: P -> int)
    requires Valid(e) && NumberedFrom(e.slots, u, num)
    ensures var p := ServicePending(e);
            var t := if e.flushData then UsedLength(e.slots) else 0;
            Moves(e, u, p.out, p.entry, t, true, num)
  {
    hide Moves, NumberedFrom, Mask, FlushAll;
    var p := ServicePending(e);
    if e.flushData {
      var e1 := e.(flushData := false);
      FlushAllMoves(e1, u, num);
      MovesSame(e1, u, p.out, p.entry, UsedLength(e.slots), true, num, e, p.entry);
    } else {
      StayMoves(e, u, e, num);
    }
  }

  /** The unwrapped window start after an event. */
  ghost function UnwrappedNext<P>(e: Entry<P>, u: int, ev: Event<P>): int
    requires Valid(e) && ValidEvent(ev)
  {
    u + Dist(e.startWin, Step(e, ev).entry.startWin)
  }

  /** The window start, unwrapped, that the packet meets: after any pending flush. */
  ghost function StartMet<P>(e: Entry<P>, u: int): int
    requires Valid(e)
  {
    u + (if e.flushData then UsedLength(e.slots) else 0)
  }

  /** A data packet carries its number, unwrapped against the window start it meets, unless that makes it too old. */
  ghost predicate Tagged<P>(e: Entry<P>, u: int, ev: Event<P>, num: P -> int)
    requires Valid(e)
  {
    var met := ServicePending(e).entry.startWin;
    ev.Receive? && !ev.kind.Bar? && !TooOld(met, ev.seqNum)
    ==> num(ev.payload) == StartMet(e, u) + Dist(met, ev.seqNum)
  }

  /** The event is a forced slide of the exceptional kind. */
  ghost predicate PrematureEvent<P>(e: Entry<P>, ev: Event<P>)
    requires Valid(e)
  {
    var f := ServicePending(e).entry;
    ev.Receive? && !TooOld(f.startWin, ev.seqNum) && Ref.Premature(f, Target(ev.seqNum, ev.kind, e.winSize))
  }

  lemma ReceiveIsFlushThenWindow<P>(e: Entry<P>, sn: int, kind: PacketKind, p: P)
    requires Quiet(e) && IsSeq(sn) && Ref.Ordered(e, kind)
    ensures var flushed := ServicePending(e);
            && Quiet(flushed.entry) && flushed.entry.winSize == e.winSize
            && var o := Window(flushed.entry, sn, kind, p);
               RxReorderPkt(e, sn, kind, p) == Outcome(o.entry, flushed.out + o.out, o.ok)
  {
    Inv.ServiceEmpties(e);
    hide Mask, Dist, AllEmpty, Window, ServicePending, Deliver;
    var o := Window(ServicePending(e).entry, sn, kind, p);
    assert [] + o.out == o.out;
  }

  /**
   * A call that meets a pending flush is the standard's timeout followed by the standard's step on what the flush
   * leaves, the latter under the same condition as a call that meets none.
   */
  lemma CallAfterFlushRefines<P>(e: Entry<P>, sn: int, kind: PacketKind, p: P)
    requires Quiet(e) && e.flushData && IsSeq(sn) && Ref.Ordered(e, kind)
    ensures var f, o := ServicePending(e), RxReorderPkt(e, sn, kind, p);
            && Std.IsTimeout(Ref.View(e), Std.Result(Ref.View(f.entry), f.out, true))
            && f.out <= o.out
            && (Ref.StdCall(Ref.View(f.entry), sn, kind, p) == Std.Result(Ref.View(o.entry), o.out[|f.out|..], o.ok)
                <==> TooOld(f.entry.startWin, sn) || !Ref.Premature(f.entry, Target(sn, kind, e.winSize)))
  {
    hide Window, ServicePending, Ref.StdCall, Ref.View, Std.IsTimeout, TooOld, Ref.Premature, Target, Deliver;
    Ref.FlushRefinesTimeout(e);
    ReceiveIsFlushThenWindow(e, sn, kind, p);
    Inv.ServiceEmpties(e);
    var f := ServicePending(e).entry;
    Ref.CallRefinesStandard(f, sn, kind, p);
    Ref.SteadyCall(f, sn, kind, p);
    var w := Window(f, sn, kind, p);
    assert (ServicePending(e).out + w.out)[|ServicePending(e).out|..] == w.out;
  }

  /** Two joined stages that move the start by less than a full turn move it by the forward distance. */
  lemma MovesByDist<P>(e: Entry<P>, u: int, out: seq<P>, e2: Entry<P>, t: int, s: bool, num: P -> int)
    requires Moves(e, u, out, e2, t, s, num) && t < 4096
    ensures t == Dist(e.startWin, e2.startWin)
  {
    DistUnique(e.startWin, e2.startWin, t);
  }

  lemma StartMetBounded<P>(e: Entry<P>, u: int)
    requires Valid(e)
    ensures 0 <= StartMet(e, u) - u <= e.winSize <= 1023
    ensures StartMet(e, u) == u + (if e.flushData then UsedLength(e.slots) else 0)
  {
  }

  lemma TaggedMeans<P>(e: Entry<P>, u: int, sn: int, kind: PacketKind, p: P, num: P -> int)
    requires Valid(e) && Tagged(e, u, Receive(sn, kind, p), num)
    ensures var met := ServicePending(e).entry.startWin;
            !kind.Bar? && !TooOld(met, sn) ==> num(p) == StartMet(e, u) + Dist(met, sn)
  {
  }

  lemma PrematureMeans<P>(e: Entry<P>, sn: int, kind: PacketKind, p: P)
    requires Valid(e)
    ensures var f := ServicePending(e).entry;
            !PrematureEvent(e, Receive(sn, kind, p))
            <==> TooOld(f.startWin, sn) || !Ref.Premature(f, Target(sn, kind, e.winSize))
  {
  }

  lemma QuietMeans<P>(e: Entry<P>)
    requires Quiet(e)
    ensures Valid(e) && 2 <= e.winSize <= MAX_WIN_SIZE && !e.checkStartWin && !e.forceNoDrop
    ensures e.winSize == |e.slots| && 0 <= e.startWin <= MAX_TID_VALUE
  {
  }

  /** The window stage, when the start it meets is unwrapped to `u`. */
  lemma WindowStage<P>(f: Entry<P>, u: int, sn: int, kind: PacketKind, p: P, num: P -> int)
    requires Quiet(f) && Valid(f) && IsSeq(sn) && NumberedFrom(f.slots, u, num)
    requires 2 <= f.winSize == |f.slots| <= MAX_WIN_SIZE && 0 <= f.startWin <= MAX_TID_VALUE
    requires !kind.Bar? && !TooOld(f.startWin, sn) ==> num(p) == u + Dist(f.startWin, sn)
    ensures var o := Window(f, sn, kind, p);
            var t := WindowBy(f, sn, kind, p);
            && Quiet(o.entry) && o.entry.winSize == f.winSize && t < 3071
            && Moves(f, u, o.out, o.entry, t,
                     TooOld(f.startWin, sn) || !Ref.Premature(f, Target(sn, kind, f.winSize)), num)
  {
    QuietMeans(f);
    WindowMoves(f, u, sn, kind, p, num);
    WindowByBounded(f, sn, kind, p);
    WindowQuiet(f, sn, kind, p);
  }

  lemma WindowQuiet<P>(f: Entry<P>, sn: int, kind: PacketKind, p: P)
    requires Quiet(f) && IsSeq(sn)
    ensures Quiet(Window(f, sn, kind, p).entry) && Window(f, sn, kind, p).entry.winSize == f.winSize
  {
    Inv.WindowKeeps(f, sn, kind, p);
  }

  lemma ReceiveMoves<P>(e: Entry<P>, u: int, sn: int, kind: PacketKind, p: P, num: P -> int)
    requires Quiet(e) && Valid(e) && e.winSize == |e.slots| <= MAX_WIN_SIZE && 0 <= e.startWin <= MAX_TID_VALUE
    requires IsSeq(e.lastSeq) || e.lastSeq == DEFAULT_SEQ_NUM
    requires IsSeq(sn) && Ref.Ordered(e, kind) && NumberedFrom(e.slots, u, num)
    requires Tagged(e, u, Receive(sn, kind, p), num)
    ensures var o := RxReorderPkt(e, sn, kind, p);
            && Quiet(o.entry) && o.entry.winSize == e.winSize
            && Moves(e, u, o.out, o.entry, Dist(e.startWin, o.entry.startWin),
                     !PrematureEvent(e, Receive(sn, kind, p)), num)
  {
    hide *;
    ReceiveIsFlushThenWindow(e, sn, kind, p);
    var flushed := ServicePending(e);
    var f := flushed.entry;
    QuietMeans(f);
    StartMetBounded(e, u);
    FlushMoves(e, u, num);
    TaggedMeans(e, u, sn, kind, p, num);
    PrematureMeans(e, sn, kind, p);
    var t0 := StartMet(e, u) - u;
    MovesNumbered(e, u, flushed.out, f, t0, true, num);
    WindowStage(f, u + t0, sn, kind, p, num);
    var o := Window(f, sn, kind, p);
    var t1 := WindowBy(f, sn, kind, p);
    var strict := TooOld(f.startWin, sn) || !Ref.Premature(f, Target(sn, kind, e.winSize));
    MovesJoin(e, u, flushed.out, f, t0, true, o.out, o.entry, t1, strict, num);
    MovesByDist(e, u, flushed.out + o.out, o.entry, t0 + t1, strict, num);
  }

  lemma ServiceStage<P>(e: Entry<P>, u: int, num: P -> int)
    requires Quiet(e) && NumberedFrom(e.slots, u, num)
    ensures var p := ServicePending(e);
            && Quiet(p.entry) && p.entry.winSize == e.winSize
            && Moves(e, u, p.out, p.entry, Dist(e.startWin, p.entry.startWin), true, num)
  {
    StartMetBounded(e, u);
    FlushMoves(e, u, num);
    Inv.ServiceEmpties(e);
    MovesByDist(e, u, ServicePending(e).out, ServicePending(e).entry, StartMet(e, u) - u, true, num);
  }

  lemma StayStage<P>(e: Entry<P>, u: int, e2: Entry<P>, num: P -> int)
    requires NumberedFrom(e.slots, u, num) && e2.slots == e.slots && e2.startWin == e.startWin
    ensures Moves(e, u, [], e2, Dist(e.startWin, e2.startWin), true, num)
  {
  }

  /** One quiet event moves the unwrapped start forward and delivers within the band, in order unless premature. */
  lemma StepMoves<P>(e: Entry<P>, u: int, ev: Event<P>, num: P -> int)
    requires Quiet(e) && QuietEvent(e, ev) && NumberedFrom(e.slots, u, num) && Tagged(e, u, ev, num)
    ensures var o := Step(e, ev);
            && Quiet(o.entry) && o.entry.winSize == e.winSize
            && Moves(e, u, o.out, o.entry, UnwrappedNext(e, u, ev) - u, !PrematureEvent(e, ev), num)
  {
    hide Moves, NumberedFrom, Mask, Dist, AllEmpty, RxReorderPkt, ServicePending;
    match ev
    case Receive(sn, kind, p) => ReceiveMoves(e, u, sn, kind, p, num);
    case ServiceFlush => ServiceStage(e, u, num);
    case TimerExpires => StayStage(e, u, Step(e, ev).entry, num);
    case SetNoDrop(_) => StayStage(e, u, Step(e, ev).entry, num);
    case AddBaResponse(_) => StayStage(e, u, Step(e, ev).entry, num);
  }

  ghost predicate QuietRun<P>(e: Entry<P>, u: int, evs: seq<Event<P>>, num: P -> int)
    decreases |evs|
  {
    Quiet(e) &&
    (evs == [] ||
     (QuietEvent(e, evs[0]) && Tagged(e, u, evs[0], num)
      && QuietRun(Step(e, evs[0]).entry, UnwrappedNext(e, u, evs[0]), evs[1..], num)))
  }

  ghost predicate NeverPremature<P>(e: Entry<P>, evs: seq<Event<P>>)
    decreases |evs|
  {
    evs == [] ||
    (Valid(e) && ValidEvent(evs[0]) && !PrematureEvent(e, evs[0]) && NeverPremature(Step(e, evs[0]).entry, evs[1..]))
  }

  lemma {:induction false} QuietRunEventsValid<P>(e: Entry<P>, u: int, evs: seq<Event<P>>, num: P -> int)
    requires QuietRun(e, u, evs, num)
    ensures forall ev :: ev in evs ==> ValidEvent(ev)
    decreases |evs|
  {
    if evs != [] {
      QuietRunEventsValid(Step(e, evs[0]).entry, UnwrappedNext(e, u, evs[0]), evs[1..], num);
      assert forall ev :: ev in evs ==> ev == evs[0] || ev in evs[1..];
    }
  }

  lemma QuietRunValid<P>(e: Entry<P>, u: int, evs: seq<Event<P>>, num: P -> int)
    requires QuietRun(e, u, evs, num)
    ensures Valid(e)
  {
  }

  lemma MovesOrder<P>(e: Entry<P>, u: int, out: seq<P>, e2: Entry<P>, t: int, strict: bool, num: P -> int)
    requires Moves(e, u, out, e2, t, strict, num)
    ensures forall i, j :: 0 <= i < j < |out| ==> num(out[i]) - e.winSize < num(out[j])
    ensures strict ==> forall i, j :: 0 <= i < j < |out| ==> num(out[i]) < num(out[j])
  {
  }

  /**
   * The main result about runs.  With sequence numbers unwrapped, a packet delivered after `x` has a number
   * greater than that of `x` less the window size; and on runs without a premature slide the numbers
   * delivered increase strictly.
   */
  lemma {:induction false} BoundedReordering<P>(e: Entry<P>, u: int, evs: seq<Event<P>>, num: P -> int)
    requires QuietRun(e, u, evs, num) && NumberedFrom(e.slots, u, num)
    ensures Valid(e) && (forall ev :: ev in evs ==> ValidEvent(ev))
    ensures var out := Run(e, evs).out;
            && (forall i, j :: 0 <= i < j < |out| ==> num(out[i]) - e.winSize < num(out[j]))
            && (NeverPremature(e, evs) ==> forall i, j :: 0 <= i < j < |out| ==> num(out[i]) < num(out[j]))
  {
    QuietRunEventsValid(e, u, evs, num);
    QuietRunValid(e, u, evs, num);
    var t := RunMoves(e, u, evs, num);
    MovesOrder(e, u, Run(e, evs).out, Run(e, evs).entry, t, NeverPremature(e, evs), num);
  }

  lemma RunCons<P>(e: Entry<P>, evs: seq<Event<P>>)
    requires Valid(e) && evs != [] && (forall ev :: ev in evs ==> ValidEvent(ev))
    ensures var o := Step(e, evs[0]);
            && Valid(o.entry)
            && var rest := Run(o.entry, evs[1..]);
               Run(e, evs) == Pass(rest.entry, o.out + rest.out)
  {
    Inv.StepKeeps(e, evs[0]);
  }

  lemma QuietRunCons<P>(e: Entry<P>, u: int, evs: seq<Event<P>>, num: P -> int)
    requires QuietRun(e, u, evs, num) && evs != []
    ensures Quiet(e) && Valid(e) && QuietEvent(e, evs[0]) && ValidEvent(evs[0]) && Tagged(e, u, evs[0], num)
    ensures QuietRun(Step(e, evs[0]).entry, UnwrappedNext(e, u, evs[0]), evs[1..], num)
    ensures NeverPremature(e, evs)
        <==> !PrematureEvent(e, evs[0]) && NeverPremature(Step(e, evs[0]).entry, evs[1..])
  {
  }

  lemma MovesWeaken<P>(e: Entry<P>, u: int, out: seq<P>, e2: Entry<P>, t: int, s1: bool, s2: bool, num: P -> int)
    requires Moves(e, u, out, e2, t, s1, num) && (s2 ==> s1)
    ensures Moves(e, u, out, e2, t, s2, num)
  {
  }

  lemma RunStay<P>(e: Entry<P>, u: int, num: P -> int)
    requires Valid(e) && NumberedFrom(e.slots, u, num)
    ensures Moves(e, u, Run(e, []).out, Run(e, []).entry, 0, true, num)
  {
  }

  lemma MovesNumbered<P>(e: Entry<P>, u: int, out: seq<P>, e2: Entry<P>, t: int, s: bool, num: P -> int)
    requires Moves(e, u, out, e2, t, s, num)
    ensures NumberedFrom(e2.slots, u + t, num)
  {
  }

  lemma {:induction false} RunMoves<P>(e: Entry<P>, u: int, evs: seq<Event<P>>, num: P -> int) returns (t: int)
    requires QuietRun(e, u, evs, num) && NumberedFrom(e.slots, u, num)
    requires Valid(e) && (forall ev :: ev in evs ==> ValidEvent(ev))
    ensures Moves(e, u, Run(e, evs).out, Run(e, evs).entry, t, NeverPremature(e, evs), num)
    decreases |evs|
  {
    hide *;
    if evs == [] {
      t := 0;
      RunStay(e, u, num);
      MovesWeaken(e, u, Run(e, evs).out, Run(e, evs).entry, 0, true, NeverPremature(e, evs), num);
    } else {
      QuietRunCons(e, u, evs, num);
      StepMoves(e, u, evs[0], num);
      RunCons(e, evs);
      var o := Step(e, evs[0]);
      var u1 := UnwrappedNext(e, u, evs[0]);
      MovesNumbered(e, u, o.out, o.entry, u1 - u, !PrematureEvent(e, evs[0]), num);
      var t2 := RunMoves(o.entry, u1, evs[1..], num);
      var rest := Run(o.entry, evs[1..]);
      MovesJoin(e, u, o.out, o.entry, u1 - u, !PrematureEvent(e, evs[0]),
                rest.out, rest.entry, t2, NeverPremature(o.entry, evs[1..]), num);
      t := u1 - u + t2;
    }
  }
}
