/** How long start-up lasts, and the inputs on which delivery is out of order. */
module RxStartUp {
  import opened SeqNum
  import opened RxEntry
  import opened RxRuns
  import Inv = RxInvariant
  import Ref = RxRefinement

  /** A packet that is not the one the window starts with, and that does not bypass the window. */
  ghost predicate Mismatch<P>(ev: Event<P>, startWin: int, amsdu: bool) {
    ev.Receive? && IsSeq(ev.seqNum) && ev.seqNum != startWin && (ev.kind.Amsdu? ==> amsdu)
  }

  lemma StartUpLeft<P>(e: Entry<P>, ev: Event<P>)
    requires Valid(e) && ValidEvent(ev) && !e.checkStartWin
    ensures !Step(e, ev).entry.checkStartWin
  {
    Inv.ServiceEmpties(e);
    if ev.Receive? && e.winSize >= 2 && !(ev.kind.Amsdu? && !e.amsdu) {
      var f := ServicePending(e).entry;
      Inv.ResumeEmpties(f, ev.seqNum, ev.kind);
      Inv.WindowKeeps(Resume(f, ev.seqNum, ev.kind).entry, ev.seqNum, ev.kind, ev.payload);
    }
  }

  lemma {:induction false} StartUpNeverReturns<P>(e: Entry<P>, evs: seq<Event<P>>)
    requires Valid(e) && (forall ev :: ev in evs ==> ValidEvent(ev)) && !e.checkStartWin
    ensures !Run(e, evs).entry.checkStartWin
    decreases |evs|
  {
    if evs != [] {
      Inv.StepKeeps(e, evs[0]);
      StartUpLeft(e, evs[0]);
      StartUpNeverReturns(Step(e, evs[0]).entry, evs[1..]);
    }
  }

  lemma StartUpOver<P>(f: Entry<P>, sn: int, kind: PacketKind, p: P)
    requires Valid(f) && f.winSize >= 2 && IsSeq(sn) && StartUp(f, sn, kind, p).Continue?
    ensures !StartUpThenWindow(f, sn, kind, p).entry.checkStartWin
  {
    hide Window, Mask, AllEmpty, Resume, StartUp;
    Inv.StartUpKeeps(f, sn, kind, p);
    var e1 := StartUp(f, sn, kind, p).entry;
    Inv.ResumeEmpties(e1, sn, kind);
    Inv.WindowKeeps(Resume(e1, sn, kind).entry, sn, kind, p);
  }

  lemma MismatchAfterFlush<P>(f: Entry<P>, sn: int, kind: PacketKind, p: P)
    requires Valid(f) && f.winSize >= 2 && f.checkStartWin && IsSeq(sn) && sn != f.startWin
    ensures var o := StartUpThenWindow(f, sn, kind, p).entry;
            var c := (f.pktCount + 1) % 256;
            && (c < f.winSize / 2 ==>
                  o.checkStartWin && o.pktCount == c && o.startWin == f.startWin && o.amsdu == f.amsdu)
            && (c >= f.winSize / 2 ==> !o.checkStartWin)
  {
    hide Window, Mask, AllEmpty, Resume, StartAfterStartUp;
    if StartUp(f, sn, kind, p).Continue? {
      StartUpOver(f, sn, kind, p);
    }
  }

  lemma SameCount<P>(e: Entry<P>)
    requires Valid(e) && e.checkStartWin
    ensures var f := ServicePending(e).entry;
            && Valid(f) && f.checkStartWin && f.pktCount == e.pktCount && f.winSize == e.winSize
            && f.startWin == e.startWin && f.amsdu == e.amsdu
  {
    Inv.ServiceEmpties(e);
    NothingToFlush(e);
  }

  /** A mismatch either is counted, in 8 bits, or ends start-up. */
  lemma MismatchStep<P>(e: Entry<P>, ev: Event<P>)
    requires Valid(e) && ValidEvent(ev) && e.winSize >= 2 && e.checkStartWin && Mismatch(ev, e.startWin, e.amsdu)
    ensures var f := Step(e, ev).entry;
            var c := (e.pktCount + 1) % 256;
            && Valid(f) && f.winSize == e.winSize
            && (c < e.winSize / 2 ==>
                  f.checkStartWin && f.pktCount == c && f.startWin == e.startWin && f.amsdu == e.amsdu)
            && (c >= e.winSize / 2 ==> !f.checkStartWin)
  {
    hide StartUpThenWindow, ServicePending, AllEmpty, Mask;
    Inv.StepKeeps(e, ev);
    SameCount(e);
    MismatchAfterFlush(ServicePending(e).entry, ev.seqNum, ev.kind, ev.payload);
  }

  lemma NothingToFlush<P>(e: Entry<P>)
    requires Valid(e) && e.checkStartWin
    ensures ServicePending(e).entry == e.(flushData := false)
  {
    assert UsedLength(e.slots) == 0;
  }

  lemma RunKeepsStartUp<P>(e: Entry<P>, evs: seq<Event<P>>)
    requires Valid(e) && evs != [] && (forall ev :: ev in evs ==> ValidEvent(ev))
    ensures Valid(Step(e, evs[0]).entry)
    ensures Run(e, evs).entry == Run(Step(e, evs[0]).entry, evs[1..]).entry
  {
    Inv.StepKeeps(e, evs[0]);
  }

  lemma {:induction false} StartUpLengthFrom<P>(e: Entry<P>, evs: seq<Event<P>>)
    requires Valid(e) && 2 <= e.winSize && e.checkStartWin
    requires e.pktCount < 256 && e.pktCount < e.winSize / 2
    requires forall ev :: ev in evs ==> Mismatch(ev, e.startWin, e.amsdu) && ValidEvent(ev)
    ensures Run(e, evs).entry.checkStartWin
        <==> evs == [] || e.winSize >= 512 || e.pktCount + |evs| < e.winSize / 2
    decreases |evs|
  {
    hide Valid, Mismatch, ValidEvent, Step;
    if evs != [] {
      MismatchStep(e, evs[0]);
      RunKeepsStartUp(e, evs);
      hide Run;
      var f := Step(e, evs[0]).entry;
      if f.checkStartWin {
        StartUpLengthFrom(f, evs[1..]);
      } else {
        StartUpNeverReturns(f, evs[1..]);
      }
    }
  }

  /**
   * After n packets that all miss the start of a fresh window, start-up is still on exactly when n is below
   * half the window size, or the window size is 512 or more: then the 8-bit count never gets there.
   */
  lemma StartUpLength<P>(winSize: nat, seqNum: int, lastSeq: int, flushData: bool, amsdu: bool, evs: seq<Event<P>>)
    requires 2 <= winSize <= MAX_WIN_SIZE && IsSeq(seqNum) && (IsSeq(lastSeq) || lastSeq == DEFAULT_SEQ_NUM)
    requires forall ev :: ev in evs ==> Mismatch(ev, seqNum, amsdu) && ValidEvent(ev)
    ensures var e := Entry(seqNum, winSize, Blank<P>(winSize), lastSeq, 0, true, false, false, flushData, amsdu);
            && Valid(e)
            && (Run(e, evs).entry.checkStartWin <==> evs == [] || winSize >= 512 || |evs| < winSize / 2)
  {
    StartUpLengthFrom(Entry(seqNum, winSize, Blank<P>(winSize), lastSeq, 0, true, false, false, flushData, amsdu), evs);
  }

  /** A data packet on a settled, quiet entry, or the one start-up waits for: slide, store, release. */
  lemma DataCall<P>(e: Entry<P>, sn: int, p: P)
    requires Valid(e) && e.winSize >= 2 && !e.forceNoDrop && !e.flushData && IsSeq(sn) && !TooOld(e.startWin, sn)
    requires e.checkStartWin ==> sn == e.startWin
    ensures var slid := Slide(e.(checkStartWin := false), sn);
            && 0 <= SlotIndex(slid.entry.startWin, sn) < |slid.entry.slots|
            && (!SlotTaken(slid.entry, sn) ==>
                  var s := ScanAndDispatch(Store(slid.entry, sn, p));
                  Step(e, Receive(sn, Data, p)) == Outcome(s.entry.(timerIsSet := true), slid.out + s.out, true))
  {
    hide Window, Place, Slide, ScanAndDispatch, Store, SlotTaken, SlotIndex, TooOld, AllEmpty, Mask;
    var e1 := e.(checkStartWin := false);
    WindowSteps(e1, sn, Data, p);
    var slid := Slide(e1, sn);
    PlaceSteps(slid.entry, sn, Data, p);
    var o := Window(e1, sn, Data, p);
    assert [] + ([] + o.out) == o.out;
  }

  /** A window of two at `start`. */
  function Two(start: int, slots: seq<Slot<int>>, startingUp: bool, timer: bool): Entry<int> {
    Entry(start, 2, slots, DEFAULT_SEQ_NUM, 0, startingUp, false, timer, false, false)
  }

  /** What is released from two slots. */
  lemma ScanTwo(e: Entry<int>)
    requires |e.slots| == 2
    ensures var p := ScanAndDispatch(e);
            && (e.slots[0].Empty? ==> p == Pass(e.(startWin := Mask(e.startWin)), []))
            && (e.slots[0].Held? && e.slots[1].Empty? ==>
                  p == Pass(e.(slots := [Empty, Empty], startWin := Mask(e.startWin + 1)), [e.slots[0].payload]))
            && (e.slots[0].Held? && e.slots[1].Held? ==>
                  p == Pass(e.(slots := [Empty, Empty], startWin := Mask(e.startWin + 2)),
                            [e.slots[0].payload, e.slots[1].payload]))
  {
    hide Mask;
    var a, b := e.slots[0], e.slots[1];
    assert e.slots == [a, b];
    assert [a, b][1..] == [b] && [b][1..] == [] && [a][1..] == [];
    assert FullPrefix([b]) == (if b.Held? then 1 else 0);
    assert FullPrefix([a, b]) == (if a.Held? then 1 + FullPrefix([b]) else 0);
    assert [a, b][..0] == [] && [a, b][..1] == [a] && [a, b][..2] == [a, b];
    assert Deliver([b]) == if b.Held? then [b.payload] else [];
    assert Deliver([a]) == if a.Held? then [a.payload] else [];
    assert a.Held? ==> Deliver([a, b]) == [a.payload] + Deliver([b]);
    assert Rotate([a, b], 0) == [a, b];
    assert Rotate([a, b], 1) == [b, Empty];
    assert Rotate([a, b], 2) == [Empty, Empty];
  }

  /** The window 4095..0 holds number 0; payloads are unwrapped numbers. */
  function WrappingEntry(): Entry<int> {
    Two(4095, [Empty, Held(4096)], false, true)
  }

  lemma SlidesEarly()
    ensures Slide(WrappingEntry(), 1) == Pass(Two(0, [Empty, Empty], false, true), [4096])
  {
    var slots := WrappingEntry().slots;
    assert slots[..2] == slots && slots[1..] == [Held(4096)];
    assert Rotate(slots, 2) == [Empty, Empty];
  }

  lemma EarlyStep()
    ensures Valid(WrappingEntry())
    ensures Step(WrappingEntry(), Receive(1, Data, 4097)) ==
            Outcome(Two(0, [Empty, Held(4097)], false, true), [4096], true)
  {
    DataCall(WrappingEntry(), 1, 4097);
    SlidesEarly();
    hide Slide;
    var e := Two(0, [Empty, Empty], false, true);
    assert Store(e, 1, 4097) == Two(0, [Empty, Held(4097)], false, true);
    ScanTwo(Store(e, 1, 4097));
  }

  lemma AgainStep()
    ensures Valid(Two(0, [Empty, Held(4097)], false, true))
    ensures Step(Two(0, [Empty, Held(4097)], false, true), Receive(0, Data, 4096)) ==
            Outcome(Two(2, [Empty, Empty], false, true), [4096, 4097], true)
  {
    var e := Two(0, [Empty, Held(4097)], false, true);
    DataCall(e, 0, 4096);
    assert Slide(e, 0) == Pass(e, []);
    assert Store(e, 0, 4096) == Two(0, [Held(4096), Held(4097)], false, true);
    ScanTwo(Store(e, 0, 4096));
  }

  lemma EarlyIsPremature(num: int -> int)
    requires num(4096) == 4096 && num(4097) == 4097
    ensures var e, e1 := WrappingEntry(), Two(0, [Empty, Held(4097)], false, true);
            && Valid(e) && Valid(e1) && PrematureEvent(e, Receive(1, Data, 4097))
            && NumberedFrom(e.slots, 4095, num)
            && Tagged(e, 4095, Receive(1, Data, 4097), num) && Tagged(e1, 4096, Receive(0, Data, 4096), num)
  {
    var e := WrappingEntry();
    assert Ref.SlideDistance(e, 1) == 1 && e.slots[1].Held?;
  }

  /**
   * A premature slide breaks the order: with number 0 held, receiving 1 slides from 4095 to 0, which wraps,
   * so 0 goes up before its turn, and a retransmitted 0 goes up again.
   */
  lemma PrematureSlideBreaksOrder()
    ensures var e := WrappingEntry();
            var evs := [Receive(1, Data, 4097), Receive(0, Data, 4096)];
            && QuietRun(e, 4095, evs, x => x) && NumberedFrom(e.slots, 4095, x => x)
            && Valid(e) && (forall ev :: ev in evs ==> ValidEvent(ev))
            && Run(e, evs).out == [4096, 4096, 4097]
            && !NeverPremature(e, evs)
  {
    hide Step;
    var ev0, ev1 := Receive(1, Data, 4097), Receive(0, Data, 4096);
    assert [ev0, ev1][1..] == [ev1] && [ev1][1..] == [];
    EarlyStep();
    AgainStep();
    EarlyIsPremature(x => x);
    hide PrematureEvent, Tagged, NumberedFrom;
  }

  lemma FirstStep()
    ensures Step(Two(4094, Blank<int>(2), true, false), Receive(4094, Data, 4094)) ==
            Outcome(Two(4095, [Empty, Empty], false, true), [4094], true)
  {
    var e, e1 := Two(4094, Blank<int>(2), true, false), Two(4094, Blank<int>(2), false, false);
    DataCall(e, 4094, 4094);
    assert Slide(e1, 4094) == Pass(e1, []);
    assert Store(e1, 4094, 4094) == Two(4094, [Held(4094), Empty], false, false);
    ScanTwo(Store(e1, 4094, 4094));
  }

  lemma SecondStep()
    ensures Valid(Two(4095, [Empty, Empty], false, true))
    ensures Step(Two(4095, [Empty, Empty], false, true), Receive(0, Data, 4096)) == Outcome(WrappingEntry(), [], true)
  {
    var e := Two(4095, [Empty, Empty], false, true);
    DataCall(e, 0, 4096);
    assert Slide(e, 0) == Pass(e, []);
    assert Store(e, 0, 4096) == WrappingEntry();
    ScanTwo(WrappingEntry());
  }

  /** A fresh window of two at 4094 gets there by receiving 4094 and then 0. */
  lemma WrappingEntryReached()
    ensures var e := Two(4094, Blank<int>(2), true, false);
            var evs := [Receive(4094, Data, 4094), Receive(0, Data, 4096)];
            && Valid(e) && (forall ev :: ev in evs ==> ValidEvent(ev))
            && Run(e, evs) == Pass(WrappingEntry(), [4094])
  {
    hide Step;
    var ev0, ev1 := Receive(4094, Data, 4094), Receive(0, Data, 4096);
    assert [ev0, ev1][1..] == [ev1] && [ev1][1..] == [];
    FirstStep();
    SecondStep();
  }
}
