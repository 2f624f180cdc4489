/**
 * One receive reordering entry as a value, and what each driver operation does to it.
 *
 * The functions follow the branches of mlan_11n_rxreorder.c one by one.  `RxTable` holds the in-place
 * methods and proves that they compute these functions; `RxRefinement` compares them with the standard.
 * The payload type is a parameter, so that a proof can choose payloads that carry what it needs to count.
 */
module RxEntry {
  import opened SeqNum

  datatype Slot<P> = Empty | Held(payload: P)

  datatype PacketKind = Data | Amsdu | Bar

  /** The "no packet seen yet" value of `last_seq`. */
  const DEFAULT_SEQ_NUM := 0xffff

  /** The largest window: the buffer size field has ten bits. */
  const MAX_WIN_SIZE := 1023

  datatype Entry<P> = Entry(
    startWin: int,
    winSize: nat,
    slots: seq<Slot<P>>,
    lastSeq: int,
    pktCount: nat,
    checkStartWin: bool,
    forceNoDrop: bool,
    timerIsSet: bool,
    flushData: bool,
    amsdu: bool)

  /** A new state together with what was handed to `wlan_11n_dispatch_pkt`, in order. */
  datatype Pass<P> = Pass(entry: Entry<P>, out: seq<P>)

  datatype Outcome<P> = Outcome(entry: Entry<P>, out: seq<P>, ok: bool)

  datatype Event<P> =
    | Receive(seqNum: int, kind: PacketKind, payload: P)
    | TimerExpires
    | ServiceFlush
    | SetNoDrop(flag: bool)
    | AddBaResponse(amsduOk: bool)

  ghost predicate AllEmpty<P>(slots: seq<Slot<P>>) {
    forall i :: 0 <= i < |slots| ==> slots[i] == Empty
  }

  /** The invariant of every reachable entry; the last conjunct says that no packet is stranded. */
  ghost predicate Valid<P>(e: Entry<P>) {
    && e.winSize == |e.slots| <= MAX_WIN_SIZE
    && 0 <= e.startWin <= MAX_TID_VALUE
    && (e.startWin == MAX_TID_VALUE ==> AllEmpty(e.slots))
    && (IsSeq(e.lastSeq) || e.lastSeq == DEFAULT_SEQ_NUM)
    && e.pktCount < 256
    && (e.checkStartWin ==> AllEmpty(e.slots))
    && (e.winSize <= 1 ==> AllEmpty(e.slots))
    && (!AllEmpty(e.slots) ==> e.timerIsSet || e.flushData)
  }

  predicate ValidEvent<P>(ev: Event<P>) {
    ev.Receive? ==> IsSeq(ev.seqNum)
  }

  function Blank<P>(n: nat): (s: seq<Slot<P>>)
    ensures |s| == n && AllEmpty(s)
  {
    seq(n, _ => Empty)
  }

  /** The payloads held in `slots`, lowest slot first. */
  function Deliver<P>(slots: seq<Slot<P>>): seq<P> {
    if slots == [] then []
    else (if slots[0].Held? then [slots[0].payload] else []) + Deliver(slots[1..])
  }

  /** The array after its first `n` slots were given up and the rest moved down. */
  function Rotate<P>(slots: seq<Slot<P>>, n: nat): (r: seq<Slot<P>>)
    requires n <= |slots|
    ensures |r| == |slots|
  {
    slots[n..] + Blank(n)
  }

  /** How many slots `wlan_11n_dispatch_pkt_until_start_win` gives up. */
  function SlideCount(startWin: int, winSize: nat, newStart: int): (n: nat)
    ensures n <= winSize
  {
    if newStart > startWin then
      if newStart - startWin < winSize then newStart - startWin else winSize
    else winSize
  }

  function DispatchUntil<P>(e: Entry<P>, newStart: int): Pass<P>
    requires e.winSize == |e.slots|
  {
    var n := SlideCount(e.startWin, e.winSize, newStart);
    Pass(e.(slots := Rotate(e.slots, n), startWin := newStart), Deliver(e.slots[..n]))
  }

  /** Length of the gap-free stretch at the front of the window. */
  function FullPrefix<P>(slots: seq<Slot<P>>): (n: nat)
    ensures n <= |slots|
    ensures forall i :: 0 <= i < n ==> slots[i].Held?
    ensures n < |slots| ==> slots[n] == Empty
  {
    if slots == [] || slots[0].Empty? then 0 else 1 + FullPrefix(slots[1..])
  }

  function ScanAndDispatch<P>(e: Entry<P>): Pass<P> {
    var n := FullPrefix(e.slots);
    Pass(e.(slots := Rotate(e.slots, n), startWin := Mask(e.startWin + n)), Deliver(e.slots[..n]))
  }

  /** One past the highest slot in use, so 0 when nothing is held. */
  function UsedLength<P>(slots: seq<Slot<P>>): (n: nat)
    ensures n <= |slots|
    ensures n > 0 ==> slots[n - 1].Held?
    ensures forall i :: n <= i < |slots| ==> slots[i] == Empty
  {
    if slots == [] then 0
    else if slots[|slots| - 1].Held? then |slots|
    else UsedLength(slots[..|slots| - 1])
  }

  /** wlan_start_flush_data: slide to just past the last packet held. */
  function FlushAll<P>(e: Entry<P>): Pass<P>
    requires e.winSize == |e.slots|
  {
    var n := UsedLength(e.slots);
    if n == 0 then Pass(e, []) else DispatchUntil(e, Mask(e.startWin + n))
  }

  function ServicePending<P>(e: Entry<P>): Pass<P>
    requires e.winSize == |e.slots|
  {
    if e.flushData then FlushAll(e.(flushData := false)) else Pass(e, [])
  }

  /** The window start chosen when the start-up phase has seen enough packets. */
  function StartAfterStartUp(startWin: int, winSize: nat, lastSeq: int, seqNum: int): int {
    if lastSeq == DEFAULT_SEQ_NUM then startWin
    else
      var endWin := Mask(startWin + winSize - 1);
      if (endWin > startWin && lastSeq >= startWin && lastSeq < endWin)
         || (endWin < startWin && (lastSeq >= startWin || lastSeq < endWin)) then lastSeq + 1
      else if seqNum < startWin && seqNum > lastSeq then lastSeq + 1
      else startWin
  }

  datatype StartUpResult<P> = Returned(outcome: Outcome<P>) | Continue(entry: Entry<P>)

  /** The start-up phase: until the window start is trusted, packets go straight up.  pkt_count has 8 bits. */
  function StartUp<P>(e: Entry<P>, seqNum: int, kind: PacketKind, payload: P): StartUpResult<P> {
    if !e.checkStartWin then Continue(e)
    else if seqNum == e.startWin then Continue(e.(checkStartWin := false))
    else
      var e1 := e.(pktCount := (e.pktCount + 1) % 256);
      if e1.pktCount < e1.winSize / 2 then
        if e1.lastSeq == seqNum then Returned(Outcome(e1, [], false))
        else Returned(Outcome(e1.(lastSeq := seqNum), if kind.Bar? then [] else [payload], true))
      else
        Continue(e1.(checkStartWin := false,
                     startWin := StartAfterStartUp(e.startWin, e.winSize, e.lastSeq, seqNum)))
  }

  /** Giving up slots up to `newStart`, then restarting at the packet just received (a BAR is not one). */
  function Restart<P>(e: Entry<P>, newStart: int, seqNum: int, kind: PacketKind): Pass<P>
    requires e.winSize == |e.slots|
  {
    var p := DispatchUntil(e, newStart);
    Pass(p.entry.(startWin := if kind.Bar? then newStart else seqNum, timerIsSet := true), p.out)
  }

  /** Resume mode: give up the whole window. */
  function Resume<P>(e: Entry<P>, seqNum: int, kind: PacketKind): Pass<P>
    requires e.winSize == |e.slots|
  {
    if !e.forceNoDrop then Pass(e, []) else Restart(e, Mask(e.startWin + e.winSize), seqNum, kind)
  }

  /** The two-branch test for packets that are too old. */
  predicate TooOld(startWin: int, seqNum: int) {
    if startWin + TWOPOW11 > MAX_TID_VALUE - 1 then
      seqNum >= Mask(startWin + TWOPOW11) && seqNum < startWin
    else seqNum < startWin || seqNum >= startWin + TWOPOW11
  }

  /** The two-branch test for numbers beyond the window. */
  predicate Outside(startWin: int, endWin: int, seqNum: int) {
    || (endWin < startWin && seqNum < startWin && seqNum > endWin)
    || (endWin > startWin && (seqNum > endWin || seqNum < startWin))
  }

  /** The window start that makes `seqNum` the last number of the window. */
  function SlideStart(seqNum: int, winSize: nat): int {
    if seqNum - winSize + 1 >= 0 then seqNum - winSize + 1
    else (MAX_TID_VALUE - (winSize - seqNum)) + 1
  }

  /** The slot for `seqNum`. */
  function SlotIndex(startWin: int, seqNum: int): int {
    if seqNum >= startWin then seqNum - startWin else seqNum + MAX_TID_VALUE - startWin
  }

  /** The number that decides about sliding: a BAR asks for the window that starts at it. */
  function Target(seqNum: int, kind: PacketKind, winSize: nat): int {
    if kind.Bar? then Mask(seqNum + winSize - 1) else seqNum
  }

  function Slide<P>(e: Entry<P>, target: int): Pass<P>
    requires e.winSize == |e.slots|
  {
    if Outside(e.startWin, Mask(e.startWin + e.winSize - 1), target)
    then DispatchUntil(e, SlideStart(target, e.winSize))
    else Pass(e, [])
  }

  /** The slot for `seqNum` holds a packet. */
  predicate SlotTaken<P>(e: Entry<P>, seqNum: int) {
    var i := SlotIndex(e.startWin, seqNum);
    0 <= i < |e.slots| && e.slots[i].Held?
  }

  function Store<P>(e: Entry<P>, seqNum: int, payload: P): Entry<P>
    requires 0 <= SlotIndex(e.startWin, seqNum) < |e.slots|
  {
    e.(slots := e.slots[SlotIndex(e.startWin, seqNum) := Held(payload)])
  }

  /** Storing a packet, unless it is a duplicate, and releasing what is now in order. */
  function Place<P>(e: Entry<P>, target: int, kind: PacketKind, payload: P): Outcome<P>
    requires 0 <= SlotIndex(e.startWin, target) < |e.slots|
  {
    if kind.Bar? then
      var p := ScanAndDispatch(e);
      Outcome(p.entry.(timerIsSet := true), p.out, true)
    else if SlotTaken(e, target) then Outcome(e.(timerIsSet := true), [], false)
    else
      var p := ScanAndDispatch(Store(e, target, payload));
      Outcome(p.entry.(timerIsSet := true), p.out, true)
  }

  /** The receive window proper: drop, slide, store and release. */
  function Window<P>(e: Entry<P>, seqNum: int, kind: PacketKind, payload: P): Outcome<P>
    requires 2 <= e.winSize == |e.slots| <= MAX_WIN_SIZE
    requires 0 <= e.startWin <= MAX_TID_VALUE && IsSeq(seqNum)
  {
    if !e.forceNoDrop && TooOld(e.startWin, seqNum) then Outcome(e.(timerIsSet := true), [], false)
    else
      var target := Target(seqNum, kind, e.winSize);
      var slid := Slide(e.(forceNoDrop := false), target);
      SlideInRange(e.(forceNoDrop := false), target);
      var o := Place(slid.entry, target, kind, payload);
      Outcome(o.entry, slid.out + o.out, o.ok)
  }

  /** mlan_11n_rxreorder_pkt from the start-up test on. */
  function StartUpThenWindow<P>(e: Entry<P>, seqNum: int, kind: PacketKind, payload: P): Outcome<P>
    requires 2 <= e.winSize == |e.slots| <= MAX_WIN_SIZE
    requires 0 <= e.startWin <= MAX_TID_VALUE && IsSeq(seqNum)
    requires IsSeq(e.lastSeq) || e.lastSeq == DEFAULT_SEQ_NUM
  {
    match StartUp(e, seqNum, kind, payload)
    case Returned(o) => o
    case Continue(e1) =>
      ResumedInRange(e, seqNum, kind, payload);
      var resumed := Resume(e1, seqNum, kind);
      var o := Window(resumed.entry, seqNum, kind, payload);
      Outcome(o.entry, resumed.out + o.out, o.ok)
  }

  /** mlan_11n_rxreorder_pkt */
  function RxReorderPkt<P>(e: Entry<P>, seqNum: int, kind: PacketKind, payload: P): Outcome<P>
    requires e.winSize == |e.slots| <= MAX_WIN_SIZE
    requires 0 <= e.startWin <= MAX_TID_VALUE && IsSeq(seqNum)
    requires IsSeq(e.lastSeq) || e.lastSeq == DEFAULT_SEQ_NUM
  {
    if e.winSize <= 1 then Outcome(e, if kind.Bar? then [] else [payload], true)
    else
      var flushed := ServicePending(e);
      if kind.Amsdu? && !e.amsdu then Outcome(flushed.entry, flushed.out + [payload], true)
      else
        var o := StartUpThenWindow(flushed.entry, seqNum, kind, payload);
        Outcome(o.entry, flushed.out + o.out, o.ok)
  }

  /** One event in the life of an entry. */
  function Step<P>(e: Entry<P>, ev: Event<P>): Outcome<P>
    requires Valid(e) && ValidEvent(ev)
  {
    match ev
    case Receive(s, k, p) => RxReorderPkt(e, s, k, p)
    case TimerExpires => Outcome(if e.timerIsSet then e.(flushData := true, timerIsSet := false) else e, [], true)
    case ServiceFlush => var p := ServicePending(e); Outcome(p.entry, p.out, true)
    case SetNoDrop(flag) => Outcome(e.(forceNoDrop := flag), [], true)
    case AddBaResponse(ok) => Outcome(e.(amsdu := ok), [], true)
  }

  // ---- The arithmetic behind the branch tests ----

  /** The two-branch drop test rejects exactly forward distances of 2048 or more. */
  lemma TooOldIsFarAhead(startWin: int, seqNum: int)
    requires 0 <= startWin <= MAX_TID_VALUE && IsSeq(seqNum)
    ensures TooOld(startWin, seqNum) <==> Dist(startWin, seqNum) >= 2048
  {
    if seqNum >= startWin {
      DistUnique(startWin, seqNum, seqNum - startWin);
    } else {
      DistUnique(startWin, seqNum, seqNum - startWin + MAX_TID_VALUE);
    }
  }

  /** The slot number is the forward distance, whichever of the two formulas computes it. */
  lemma SlotIndexIsDist(startWin: int, seqNum: int)
    requires 0 <= startWin <= MAX_TID_VALUE && IsSeq(seqNum)
    ensures SlotIndex(startWin, seqNum) == Dist(startWin, seqNum)
  {
    DistUnique(startWin, seqNum, SlotIndex(startWin, seqNum));
  }

  /** The two-branch window test says exactly that the distance is at least the window size. */
  lemma OutsideIsBeyondWindow(startWin: int, winSize: nat, seqNum: int)
    requires 0 <= startWin <= MAX_TID_VALUE && IsSeq(seqNum) && 2 <= winSize <= MAX_WIN_SIZE
    ensures Outside(startWin, Mask(startWin + winSize - 1), seqNum) <==> Dist(startWin, seqNum) >= winSize
  {
    SlotIndexIsDist(startWin, seqNum);
  }

  lemma SlideStartIsMasked(seqNum: int, winSize: nat)
    requires IsSeq(seqNum) && 2 <= winSize <= MAX_WIN_SIZE
    ensures SlideStart(seqNum, winSize) == Mask(seqNum - winSize + 1)
    ensures Dist(SlideStart(seqNum, winSize), seqNum) == winSize - 1
  {
  }

  /** Every slot access on the data path is inside the array. */
  lemma SlotInRange(startWin: int, winSize: nat, target: int)
    requires 0 <= startWin <= MAX_TID_VALUE && IsSeq(target) && 2 <= winSize <= MAX_WIN_SIZE
    ensures var s := if Outside(startWin, Mask(startWin + winSize - 1), target)
                     then SlideStart(target, winSize) else startWin;
            0 <= SlotIndex(s, target) < winSize
  {
    SlotIndexIsDist(startWin, target);
    OutsideIsBeyondWindow(startWin, winSize, target);
    SlideStartIsMasked(target, winSize);
    SlotIndexIsDist(SlideStart(target, winSize), target);
  }

  lemma SlideInRange<P>(e: Entry<P>, target: int)
    requires 2 <= e.winSize == |e.slots| <= MAX_WIN_SIZE && 0 <= e.startWin <= MAX_TID_VALUE && IsSeq(target)
    ensures var slid := Slide(e, target).entry;
            0 <= SlotIndex(slid.startWin, target) < |slid.slots| == e.winSize
  {
    hide SlotIndex, Outside, SlideStart, SlideCount, Mask, Deliver;
    SlotInRange(e.startWin, e.winSize, target);
  }

  /** Start-up leaves a window start of at most 4096, one more than a sequence number can be. */
  lemma StartUpStartInRange(startWin: int, winSize: nat, lastSeq: int, seqNum: int)
    requires 0 <= startWin <= MAX_TID_VALUE
    requires IsSeq(lastSeq) || lastSeq == DEFAULT_SEQ_NUM
    ensures 0 <= StartAfterStartUp(startWin, winSize, lastSeq, seqNum) <= MAX_TID_VALUE
  {
  }

  /** What start-up and resuming leave is a window the rest can work on. */
  lemma ResumedInRange<P>(e: Entry<P>, seqNum: int, kind: PacketKind, payload: P)
    requires e.winSize == |e.slots| && 0 <= e.startWin <= MAX_TID_VALUE && IsSeq(seqNum)
    requires IsSeq(e.lastSeq) || e.lastSeq == DEFAULT_SEQ_NUM
    requires StartUp(e, seqNum, kind, payload).Continue?
    ensures var e1 := StartUp(e, seqNum, kind, payload).entry;
            && e1.winSize == |e1.slots| == e.winSize
            && var f := Resume(e1, seqNum, kind).entry;
               f.winSize == |f.slots| == e.winSize && 0 <= f.startWin <= MAX_TID_VALUE
  {
    hide Mask, StartAfterStartUp, Deliver, SlideCount, Rotate;
    StartUpStartInRange(e.startWin, e.winSize, e.lastSeq, seqNum);
  }

  // ---- One-step unfoldings, for proofs that hide the definitions ----

  /** `Window` past the drop test, step by step. */
  lemma WindowSteps<P>(e: Entry<P>, seqNum: int, kind: PacketKind, payload: P)
    requires 2 <= e.winSize == |e.slots| <= MAX_WIN_SIZE
    requires 0 <= e.startWin <= MAX_TID_VALUE && IsSeq(seqNum)
    requires e.forceNoDrop || !TooOld(e.startWin, seqNum)
    ensures var target := Target(seqNum, kind, e.winSize);
            var slid := Slide(e.(forceNoDrop := false), target);
            && 0 <= SlotIndex(slid.entry.startWin, target) < |slid.entry.slots| == e.winSize
            && var o := Place(slid.entry, target, kind, payload);
               Window(e, seqNum, kind, payload) == Outcome(o.entry, slid.out + o.out, o.ok)
  {
    SlideInRange(e.(forceNoDrop := false), Target(seqNum, kind, e.winSize));
  }

  lemma WindowDrops<P>(e: Entry<P>, seqNum: int, kind: PacketKind, payload: P)
    requires 2 <= e.winSize == |e.slots| <= MAX_WIN_SIZE
    requires 0 <= e.startWin <= MAX_TID_VALUE && IsSeq(seqNum)
    requires !e.forceNoDrop && TooOld(e.startWin, seqNum)
    ensures Window(e, seqNum, kind, payload) == Outcome(e.(timerIsSet := true), [], false)
  {
  }

  lemma PlaceSteps<P>(e: Entry<P>, target: int, kind: PacketKind, payload: P)
    requires 0 <= SlotIndex(e.startWin, target) < |e.slots|
    ensures var o := Place(e, target, kind, payload);
            if !kind.Bar? && SlotTaken(e, target) then o == Outcome(e.(timerIsSet := true), [], false)
            else
              var p := ScanAndDispatch(if kind.Bar? then e else Store(e, target, payload));
              o == Outcome(p.entry.(timerIsSet := true), p.out, true)
  {
  }
}
