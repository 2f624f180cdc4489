/** The order of delivery where the window starts anew: at the end of start-up, and on resuming. */
module RxRestart {
  import opened SeqNum
  import opened RxEntry
  import opened RxRuns
  import Inv = RxInvariant
  import Ref = RxRefinement

  // ---- The end of start-up ----

  /**
   * The start chosen when start-up ends by counting: one past the last number seen if that lies in the window, its last
   * place excepted, or lies below the packet's own number and both below the start; otherwise the start stays.
   */
  lemma StartChosenExactly(startWin: int, winSize: nat, lastSeq: int, seqNum: int)
    requires 0 <= startWin <= MAX_TID_VALUE && 2 <= winSize <= MAX_WIN_SIZE && IsSeq(lastSeq) && IsSeq(seqNum)
    ensures StartAfterStartUp(startWin, winSize, lastSeq, seqNum)
         == if Dist(startWin, lastSeq) < winSize - 1 || lastSeq < seqNum < startWin then lastSeq + 1 else startWin
  {
    SlotIndexIsDist(startWin, lastSeq);
  }

  /** Starting up, with a window and without resuming. */
  ghost predicate StartingUp<P>(e: Entry<P>) {
    Valid(e) && e.winSize >= 2 && e.checkStartWin && !e.forceNoDrop
  }

  /** What start-up makes of the packet, any flush pending taken back first: there is nothing to flush. */
  function Verdict<P>(e: Entry<P>, sn: int, kind: PacketKind, p: P): StartUpResult<P> {
    StartUp(e.(flushData := false), sn, kind, p)
  }

  /** Start-up ends with the packet it waits for, or when half the window has been counted, in 8 bits. */
  lemma EndsExactly<P>(e: Entry<P>, sn: int, kind: PacketKind, p: P)
    requires StartingUp(e)
    ensures Verdict(e, sn, kind, p).Continue? <==> sn == e.startWin || (e.pktCount + 1) % 256 >= e.winSize / 2
    ensures var v := Verdict(e, sn, kind, p); v.Returned? ==> v.outcome.entry.pktCount == (e.pktCount + 1) % 256
  {
  }

  lemma NothingHeld<P>(e: Entry<P>)
    requires StartingUp(e)
    ensures ServicePending(e) == Pass(e.(flushData := false), [])
  {
    assert UsedLength(e.slots) == 0;
  }

  /** A packet that does not end start-up goes straight up, unless it repeats the last number; that becomes its own. */
  lemma StraightUp<P>(e: Entry<P>, sn: int, kind: PacketKind, p: P)
    requires StartingUp(e) && IsSeq(sn) && Ref.Ordered(e, kind) && Verdict(e, sn, kind, p).Returned?
    ensures var o := Step(e, Receive(sn, kind, p));
            && StartingUp(o.entry) && o.entry.lastSeq == sn && o.entry.startWin == e.startWin
            && o.ok == (sn != e.lastSeq) && o.out == if kind.Bar? || !o.ok then [] else [p]
  {
    hide Window, Resume, ServicePending, Mask, AllEmpty;
    NothingHeld(e);
    var o := Verdict(e, sn, kind, p).outcome;
    assert [] + o.out == o.out;
  }

  /** The packet that ends start-up meets the window that is left. */
  lemma EndsStartUp<P>(e: Entry<P>, sn: int, kind: PacketKind, p: P)
    requires StartingUp(e) && IsSeq(sn) && Ref.Ordered(e, kind) && Verdict(e, sn, kind, p).Continue?
    ensures var e1 := Verdict(e, sn, kind, p).entry;
            && Quiet(e1) && AllEmpty(e1.slots) && Step(e, Receive(sn, kind, p)) == Step(e1, Receive(sn, kind, p))
            && e1.startWin == if sn == e.startWin then e.startWin
                              else StartAfterStartUp(e.startWin, e.winSize, e.lastSeq, sn)
  {
    hide Window, ServicePending, Mask, AllEmpty, StartAfterStartUp;
    NothingHeld(e);
    Inv.StartUpKeeps(e.(flushData := false), sn, kind, p);
    SettledService(Verdict(e, sn, kind, p).entry);
  }

  lemma SettledService<P>(e: Entry<P>)
    requires e.winSize == |e.slots| && !e.flushData
    ensures ServicePending(e) == Pass(e, [])
  {
  }

  lemma EmptyNumbered<P>(slots: seq<Slot<P>>, u: int, num: P -> int)
    requires AllEmpty(slots)
    ensures NumberedFrom(slots, u, num)
  {
  }

  lemma SameRun<P>(e: Entry<P>, e1: Entry<P>, evs: seq<Event<P>>)
    requires Valid(e) && Valid(e1) && evs != [] && (forall ev :: ev in evs ==> ValidEvent(ev))
    requires Step(e, evs[0]) == Step(e1, evs[0])
    ensures Run(e, evs) == Run(e1, evs)
  {
    hide Step, Valid;
    RunCons(e, evs);
    RunCons(e1, evs);
  }

  /** What a quiet run delivers, from an unwrapped start. */
  ghost predicate InBand<P>(out: seq<P>, u: int, w: nat, strict: bool, num: P -> int) {
    && (forall i :: 0 <= i < |out| ==> u <= num(out[i]))
    && (forall i, j :: 0 <= i < j < |out| ==> num(out[i]) - w < num(out[j]))
    && (strict ==> forall i, j :: 0 <= i < j < |out| ==> num(out[i]) < num(out[j]))
  }

  lemma QuietRunInBand<P>(e: Entry<P>, u: int, evs: seq<Event<P>>, num: P -> int)
    requires QuietRun(e, u, evs, num) && NumberedFrom(e.slots, u, num)
    ensures Valid(e) && forall ev :: ev in evs ==> ValidEvent(ev)
    ensures InBand(Run(e, evs).out, u, e.winSize, NeverPremature(e, evs), num)
  {
    QuietRunEventsValid(e, u, evs, num);
    QuietRunValid(e, u, evs, num);
    var t := RunMoves(e, u, evs, num);
    MovesInBand(e, u, Run(e, evs).out, Run(e, evs).entry, t, NeverPremature(e, evs), num);
  }

  lemma MovesInBand<P>(e: Entry<P>, u: int, out: seq<P>, e2: Entry<P>, t: int, strict: bool, num: P -> int)
    requires Moves(e, u, out, e2, t, strict, num)
    ensures InBand(out, u, e.winSize, strict, num)
  {
  }

  /** Where the window starts after start-up: one past the last number seen, or where it was. */
  function StartLeft<P>(e: Entry<P>, sn: int): int {
    if sn != e.startWin && e.lastSeq != DEFAULT_SEQ_NUM
       && (Dist(e.startWin, e.lastSeq) < e.winSize - 1 || e.lastSeq < sn < e.startWin) then e.lastSeq + 1
    else e.startWin
  }

  /**
   * From the packet that ends start-up on: with numbers unwrapped, `u` for the start left, nothing that comes up is
   * numbered below `u`, and the order among what comes up is that of a quiet run. So where the last number seen lies
   * in the window, its last place excepted, all that comes up afterwards is numbered above it.
   */
  lemma OrderAfterStartUp<P>(e: Entry<P>, u: int, sn: int, kind: PacketKind, p: P, evs: seq<Event<P>>, num: P -> int)
    requires StartingUp(e) && IsSeq(sn) && Ref.Ordered(e, kind) && Verdict(e, sn, kind, p).Continue?
    requires QuietRun(Verdict(e, sn, kind, p).entry, u, [Receive(sn, kind, p)] + evs, num)
    ensures var e1, all := Verdict(e, sn, kind, p).entry, [Receive(sn, kind, p)] + evs;
            && e1.startWin == StartLeft(e, sn) && (forall ev :: ev in all ==> ValidEvent(ev))
            && InBand(Run(e, all).out, u, e.winSize, NeverPremature(e1, all), num)
  {
    hide StartAfterStartUp, Step, QuietRun, NeverPremature, InBand, NumberedFrom, AllEmpty, Dist, Run;
    var e1, all := Verdict(e, sn, kind, p).entry, [Receive(sn, kind, p)] + evs;
    EndsStartUp(e, sn, kind, p);
    if e.lastSeq == DEFAULT_SEQ_NUM {
      NoNumberSeen(e.startWin, e.winSize, sn);
    } else {
      StartChosenExactly(e.startWin, e.winSize, e.lastSeq, sn);
    }
    EmptyNumbered(e1.slots, u, num);
    QuietRunInBand(e1, u, all, num);
    SameRun(e, e1, all);
  }

  lemma NoNumberSeen(startWin: int, winSize: nat, sn: int)
    ensures StartAfterStartUp(startWin, winSize, DEFAULT_SEQ_NUM, sn) == startWin
  {
  }

  // ---- Resuming ----

  /** Settled, but told to resume with the next packet. */
  ghost predicate Resuming<P>(e: Entry<P>) {
    Valid(e) && e.winSize >= 2 && !e.checkStartWin && e.forceNoDrop
  }

  /** A packet at the start of an empty window goes up at once. */
  lemma FirstGoesUp<P>(e: Entry<P>, sn: int, kind: PacketKind, p: P)
    requires 2 <= e.winSize == |e.slots| <= MAX_WIN_SIZE && e.startWin == sn && IsSeq(sn) && !kind.Bar?
    requires AllEmpty(e.slots) && e.forceNoDrop
    ensures var o := Window(e, sn, kind, p);
            && o.ok && o.out == [p] && AllEmpty(o.entry.slots)
            && o.entry == e.(slots := o.entry.slots, startWin := Mask(sn + 1), forceNoDrop := false, timerIsSet := true)
  {
    hide Mask, TooOld, ScanAndDispatch, Place, Window;
    WindowSteps(e, sn, kind, p);
    var e0 := e.(forceNoDrop := false);
    NotOutside(sn, e.winSize);
    assert Slide(e0, sn) == Pass(e0, []);
    PlaceSteps(e0, sn, kind, p);
    OnlyFirst(Store(e0, sn, p), p);
    assert [] + [p] == [p];
  }

  lemma NotOutside(sn: int, winSize: nat)
    requires IsSeq(sn) && 2 <= winSize <= MAX_WIN_SIZE
    ensures !Outside(sn, Mask(sn + winSize - 1), sn)
  {
    SlotIndexIsDist(sn, sn);
    OutsideIsBeyondWindow(sn, winSize, sn);
  }

  lemma OnlyFirst<P>(e: Entry<P>, p: P)
    requires |e.slots| >= 2 && e.slots[0] == Held(p) && forall i :: 0 < i < |e.slots| ==> e.slots[i] == Empty
    ensures var q := ScanAndDispatch(e);
            && q.out == [p] && AllEmpty(q.entry.slots)
            && q.entry == e.(slots := q.entry.slots, startWin := Mask(e.startWin + 1))
  {
    hide Mask;
    assert e.slots[1..][0] == Empty && FullPrefix(e.slots[1..]) == 0;
    assert FullPrefix(e.slots) == 1;
    assert e.slots[..1] == [Held(p)] && [Held(p)][1..] == [];
    assert Deliver([Held(p)]) == [p];
  }

  /** Resuming with a packet: everything held goes up, then the packet, and the window starts behind it. */
  lemma ResumeRestarts<P>(e: Entry<P>, sn: int, kind: PacketKind, p: P)
    requires Resuming(e) && IsSeq(sn) && Ref.Ordered(e, kind) && !kind.Bar?
    ensures var o := Step(e, Receive(sn, kind, p));
            && o.ok && o.out == Deliver(e.slots) + [p]
            && Quiet(o.entry) && o.entry.winSize == e.winSize && AllEmpty(o.entry.slots)
            && o.entry.startWin == Mask(sn + 1)
  {
    hide Mask, AllEmpty, Deliver, Window, ServicePending, Resume;
    Inv.ServiceEmpties(e);
    var flushed := ServicePending(e);
    Inv.ResumeEmpties(flushed.entry, sn, kind);
    var resumed := Resume(flushed.entry, sn, kind);
    ResumedAt(flushed.entry, sn, kind);
    FirstGoesUp(resumed.entry, sn, kind, p);
    Inv.DeliverAllEmpty(resumed.entry.slots);
    Inv.StepKeeps(e, Receive(sn, kind, p));
    assert resumed.out + [] == resumed.out;
    Inv.ConcatAssoc(flushed.out, resumed.out, [p]);
  }

  lemma ResumedAt<P>(f: Entry<P>, sn: int, kind: PacketKind)
    requires f.winSize == |f.slots| && f.forceNoDrop && !kind.Bar?
    ensures Resume(f, sn, kind).entry.startWin == sn
  {
  }

  /** The window start a call meets: past everything held if a flush is pending. */
  function StartAfterFlush<P>(e: Entry<P>): int {
    if e.flushData && UsedLength(e.slots) > 0 then Mask(e.startWin + UsedLength(e.slots)) else e.startWin
  }

  lemma ServedAt<P>(e: Entry<P>)
    requires Valid(e)
    ensures ServicePending(e).entry.startWin == StartAfterFlush(e)
  {
  }

  /** A BAR on an empty window moves it only if the numbers asked for end beyond it. */
  lemma BarOnEmpty<P>(e: Entry<P>, sn: int, p: P)
    requires 2 <= e.winSize == |e.slots| <= MAX_WIN_SIZE && IsSeq(e.startWin) && IsSeq(sn)
    requires AllEmpty(e.slots) && e.forceNoDrop
    ensures var o := Window(e, sn, Bar, p);
            && o.ok && o.out == [] && AllEmpty(o.entry.slots)
            && o.entry.startWin == if Dist(e.startWin, Mask(sn + e.winSize - 1)) >= e.winSize then sn else e.startWin
  {
    hide Mask, Window, Place, ScanAndDispatch, Slide, Outside, Rotate, Dist;
    WindowSteps(e, sn, Bar, p);
    var e0 := e.(forceNoDrop := false);
    var target := Mask(sn + e.winSize - 1);
    SlidOnEmpty(e0, sn);
    var slid := Slide(e0, target).entry;
    PlaceSteps(slid, target, Bar, p);
    NothingInOrder(slid);
    assert [] + [] == Slide(e0, target).out;
  }

  lemma NothingInOrder<P>(e: Entry<P>)
    requires |e.slots| >= 2 && AllEmpty(e.slots) && IsSeq(e.startWin)
    ensures ScanAndDispatch(e) == Pass(e, [])
  {
    assert FullPrefix(e.slots) == 0;
    assert Rotate(e.slots, 0) == e.slots;
    MaskOfSeq(e.startWin);
  }

  lemma SlidOnEmpty<P>(e: Entry<P>, sn: int)
    requires 2 <= e.winSize == |e.slots| <= MAX_WIN_SIZE && IsSeq(e.startWin) && IsSeq(sn) && AllEmpty(e.slots)
    ensures var target := Mask(sn + e.winSize - 1);
            var s := Slide(e, target);
            && s.out == [] && AllEmpty(s.entry.slots) && |s.entry.slots| == e.winSize
            && s.entry.startWin == if Dist(e.startWin, target) >= e.winSize then sn else e.startWin
  {
    hide Outside, Rotate, Deliver, Mask, Dist, SlideStart;
    var target := Mask(sn + e.winSize - 1);
    OutsideIsBeyondWindow(e.startWin, e.winSize, target);
    BarSlidesTo(sn, e.winSize);
    if Dist(e.startWin, target) >= e.winSize {
      var n := SlideCount(e.startWin, e.winSize, sn);
      Inv.DeliverAllEmpty(e.slots[..n]);
      StillEmpty(e.slots, n);
    }
  }

  lemma BarSlidesTo(sn: int, winSize: nat)
    requires IsSeq(sn) && 2 <= winSize <= MAX_WIN_SIZE
    ensures SlideStart(Mask(sn + winSize - 1), winSize) == sn
  {
  }

  lemma StillEmpty<P>(slots: seq<Slot<P>>, n: nat)
    requires AllEmpty(slots) && n <= |slots|
    ensures AllEmpty(Rotate(slots, n)) && AllEmpty(slots[..n])
  {
  }

  /**
   * Resuming with a BAR: everything held goes up and nothing else, and the window is empty. It starts a whole window
   * past the start met, or at the number asked for if the window from there ends beyond that one.
   */
  lemma BarResumes<P>(e: Entry<P>, sn: int, p: P)
    requires Resuming(e) && IsSeq(sn)
    ensures var o := Step(e, Receive(sn, Bar, p));
            var n := Mask(StartAfterFlush(e) + e.winSize);
            && o.ok && o.out == Deliver(e.slots)
            && Quiet(o.entry) && o.entry.winSize == e.winSize && AllEmpty(o.entry.slots)
            && o.entry.startWin == if Dist(n, Mask(sn + e.winSize - 1)) >= e.winSize then sn else n
  {
    hide Mask, AllEmpty, Deliver, Window, ServicePending, Resume, Dist, StartAfterFlush;
    Inv.ServiceEmpties(e);
    ServedAt(e);
    var flushed := ServicePending(e);
    Inv.ResumeEmpties(flushed.entry, sn, Bar);
    var resumed := Resume(flushed.entry, sn, Bar);
    BarResumedAt(flushed.entry, sn);
    BarOnEmpty(resumed.entry, sn, p);
    Inv.DeliverAllEmpty(resumed.entry.slots);
    Inv.StepKeeps(e, Receive(sn, Bar, p));
    assert flushed.out + (resumed.out + []) == flushed.out + resumed.out;
    assert resumed.out + [] == resumed.out;
    BarQuiet(e, sn, p);
  }

  lemma BarResumedAt<P>(f: Entry<P>, sn: int)
    requires f.winSize == |f.slots| && f.forceNoDrop
    ensures Resume(f, sn, Bar).entry.startWin == Mask(f.startWin + f.winSize)
  {
  }

  lemma BarQuiet<P>(e: Entry<P>, sn: int, p: P)
    requires Resuming(e) && IsSeq(sn)
    ensures Quiet(Step(e, Receive(sn, Bar, p)).entry)
  {
    hide Mask, AllEmpty, Deliver, Window, ServicePending, Resume;
    Inv.ServiceEmpties(e);
    var f := ServicePending(e).entry;
    Inv.ResumeEmpties(f, sn, Bar);
    Inv.WindowKeeps(Resume(f, sn, Bar).entry, sn, Bar, p);
  }

  /** Told not to drop, a settled window resumes with the next packet, and no longer when told otherwise before. */
  lemma ToldToResume<P>(e: Entry<P>)
    requires Quiet(e)
    ensures var f := Step(e, SetNoDrop(true)).entry;
            && Resuming(f) && f.slots == e.slots && f.startWin == e.startWin
            && Step(f, SetNoDrop(false)) == Outcome(e, [], true)
  {
  }

  /** In a run that resumes with a BAR, what was held comes up first, and then nothing below the start left. */
  lemma OrderAfterBar<P>(e: Entry<P>, u: int, v: int, sn: int, p: P, evs: seq<Event<P>>, num: P -> int)
    requires Resuming(e) && IsSeq(sn) && NumberedFrom(e.slots, u, num)
    requires QuietRun(Step(e, Receive(sn, Bar, p)).entry, v, evs, num)
    ensures var f, all := Step(e, Receive(sn, Bar, p)).entry, [Receive(sn, Bar, p)] + evs;
            && Valid(f) && (forall ev :: ev in all ==> ValidEvent(ev))
            && Run(e, all).out == Deliver(e.slots) + Run(f, evs).out
            && Increasing(Deliver(e.slots), u, u + e.winSize, num)
            && InBand(Run(f, evs).out, v, e.winSize, NeverPremature(f, evs), num)
  {
    hide Step, Run, QuietRun, NeverPremature, InBand, NumberedFrom, AllEmpty, Deliver, Increasing, Dist, Mask,
      StartAfterFlush;
    var ev := Receive(sn, Bar, p);
    var f := Step(e, ev).entry;
    BarResumes(e, sn, p);
    EmptyNumbered(f.slots, v, num);
    QuietRunInBand(f, v, evs, num);
    assert ([ev] + evs)[1..] == evs;
    RunCons(e, [ev] + evs);
    DeliverIncreasing(e.slots, u, num);
  }

  // ---- Past the window ----

  /** With a window of at most one nothing is held back, and the entry does not change. */
  lemma PassesThrough<P>(e: Entry<P>, sn: int, kind: PacketKind, p: P)
    requires Valid(e) && e.winSize <= 1 && IsSeq(sn)
    ensures Step(e, Receive(sn, kind, p)) == Outcome(e, if kind.Bar? then [] else [p], true)
  {
  }

  /** An A-MSDU goes up at once, behind what a pending flush gives up, until a response allows A-MSDUs. */
  lemma AmsduBypasses<P>(e: Entry<P>, sn: int, p: P)
    requires Valid(e) && e.winSize >= 2 && !e.amsdu && IsSeq(sn)
    ensures var o := Step(e, Receive(sn, Amsdu, p));
            && o.ok && o.out == (if e.flushData then Deliver(e.slots) else []) + [p]
            && o.entry == e.(slots := o.entry.slots, startWin := StartAfterFlush(e), flushData := false)
            && (if e.flushData then AllEmpty(o.entry.slots) else o.entry.slots == e.slots)
    ensures forall ok :: Ref.Ordered(Step(e, AddBaResponse(ok)).entry, Amsdu) <==> ok
  {
    hide AllEmpty, Deliver, ServicePending, StartUpThenWindow, StartAfterFlush;
    Inv.ServiceEmpties(e);
    ServedAt(e);
    var f := ServicePending(e);
    if e.flushData {
      Inv.DeliverAllEmpty(f.entry.slots);
      assert f.out + [] == f.out;
    }
  }

  // ---- Runs that resume ----

  /**
   * So in a run that resumes: what was held comes up first, in order, then the packet resumed with, and nothing that
   * comes up after it, until the next time, is numbered at or below it.
   */
  lemma OrderAfterResume<P>(e: Entry<P>, u: int, sn: int, kind: PacketKind, p: P, evs: seq<Event<P>>, num: P -> int)
    requires Resuming(e) && IsSeq(sn) && Ref.Ordered(e, kind) && !kind.Bar? && NumberedFrom(e.slots, u, num)
    requires QuietRun(Step(e, Receive(sn, kind, p)).entry, num(p) + 1, evs, num)
    ensures var f, all := Step(e, Receive(sn, kind, p)).entry, [Receive(sn, kind, p)] + evs;
            && Valid(f) && (forall ev :: ev in all ==> ValidEvent(ev))
            && Run(e, all).out == Deliver(e.slots) + [p] + Run(f, evs).out
            && Increasing(Deliver(e.slots), u, u + e.winSize, num)
            && InBand(Run(f, evs).out, num(p) + 1, e.winSize, NeverPremature(f, evs), num)
  {
    hide Step, Run, QuietRun, NeverPremature, InBand, NumberedFrom, AllEmpty, Deliver, Increasing;
    var ev := Receive(sn, kind, p);
    var f := Step(e, ev).entry;
    ResumeRestarts(e, sn, kind, p);
    EmptyNumbered(f.slots, num(p) + 1, num);
    QuietRunInBand(f, num(p) + 1, evs, num);
    assert ([ev] + evs)[1..] == evs;
    RunCons(e, [ev] + evs);
    DeliverIncreasing(e.slots, u, num);
  }
}
