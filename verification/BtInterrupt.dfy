/**
 * The hand-off between the interrupt handler and the main thread of the Bluetooth driver, as steps of the two
 * (bt_main.c, bt_sdiommc.c). Every access to IntCounter, WakeupTries and ps_state is a step of its own. The two
 * interleave in any way, with two exceptions: sd_ireg is accessed under a lock, and the SDIO core calls the handler
 * with the host claimed, as the main thread has it while it processes causes and while it sends.
 */
module BtInterrupt {

  /** Bits of the interrupt status register. */
  const UP_LD := 0
  const DN_LD := 1
  const U8 := 256

  /** Where the interrupt handler is, after it has entered the causes in sd_ireg. */
  datatype IsrPc = Idle | Awaken | ResetTries | LoadCount | StoreCount(loaded: nat)

  /** Where the main thread is in its loop. */
  datatype MainPc =
    | Top | TestCount | TestWake | LoadTries | StoreTries(tries: nat) | ClearCount | Take | Process(taken: set<nat>)
    | TestSleep | TestReady | Send

  /** What has happened, for the record only. */
  datatype Event = Raised(causes: set<nat>) | Taken(causes: set<nat>) | Sent(whileAsleep: bool)

  /**
   * The shared fields and the two places. For the record only: the history, and where the main thread was when the
   * handler last reset WakeupTries.
   */
  datatype State = State(
    sdIreg: set<nat>,
    intCounter: nat,
    wakeupTries: nat,
    asleep: bool,
    txDnldRdy: bool,
    queued: nat,
    isr: IsrPc,
    main: MainPc,
    history: seq<Event>,
    resetAt: MainPc)

  /**
   * A step: a new interrupt, the next step of its handler, the next step of the main thread (with what a received
   * event or the bus makes of it), or a packet queued by the kernel.
   */
  datatype Action = Interrupt(causes: set<nat>) | IsrStep | MainStep(sleepEvent: bool, busOk: bool) | Enqueue

  function Initial(): State {
    State({}, 0, 0, false, true, 0, Idle, Top, [], Top)
  }

  /** The main thread holds the SDIO host: it processes causes, or sends. */
  predicate HostClaimed(pc: MainPc) {
    pc.Process? || pc.Send?
  }

  predicate Enabled(s: State, a: Action) {
    match a
    case Interrupt(_) => s.isr.Idle?
    case IsrStep => !s.isr.Idle?
    case MainStep(_, _) => HostClaimed(s.main) ==> s.isr.Idle?
    case Enqueue => true
  }

  /** sd_interrupt up to the lock's release, then bt_interrupt field by field. */
  function Isr(s: State): State {
    match s.isr
    case Idle => s
    case Awaken => s.(asleep := false, isr := ResetTries)
    case ResetTries => s.(wakeupTries := 0, isr := LoadCount, resetAt := s.main)
    case LoadCount => s.(isr := StoreCount(s.intCounter))
    case StoreCount(n) => s.(intCounter := n + 1, isr := Idle)
  }

  /** The loop of bt_service_main_thread; a wake-up at the top needs no cause. */
  function Main(s: State, sleepEvent: bool, busOk: bool): State {
    match s.main
    case Top => s.(main := TestCount)
    case TestCount => s.(main := if s.intCounter != 0 then ClearCount else TestWake)
    case TestWake => s.(main := if s.asleep && s.queued > 0 then LoadTries else TestSleep)
    case LoadTries => s.(main := StoreTries(s.wakeupTries))
    case StoreTries(n) => s.(wakeupTries := Increment(n), main := Top)
    case ClearCount => s.(intCounter := 0, main := Take)
    case Take => s.(sdIreg := {}, main := Process(s.sdIreg), history := s.history + [Taken(s.sdIreg)])
    case Process(taken) =>
      s.(txDnldRdy := s.txDnldRdy || DN_LD in taken,
         asleep := s.asleep || (UP_LD in taken && sleepEvent),
         main := TestSleep)
    case TestSleep => s.(main := if s.asleep then Top else TestReady)
    case TestReady => s.(main := if s.txDnldRdy && s.queued > 0 then Send else Top)
    case Send =>
      s.(queued := if s.queued > 0 then s.queued - 1 else 0,
         txDnldRdy := s.txDnldRdy && !busOk,
         main := Top,
         history := if busOk then s.history + [Sent(s.asleep)] else s.history)
  }

  function Step(s: State, a: Action): State {
    match a
    case Interrupt(causes) =>
      if s.isr.Idle? then s.(sdIreg := s.sdIreg + causes, isr := Awaken, history := s.history + [Raised(causes)]) else s
    case IsrStep => Isr(s)
    case MainStep(sleepEvent, busOk) => Main(s, sleepEvent, busOk)
    case Enqueue => s.(queued := s.queued + 1)
  }

  function Run(acts: seq<Action>): State {
    if acts == [] then Initial() else Step(Run(acts[..|acts| - 1]), acts[|acts| - 1])
  }

  const MAX_CMD53_RETRY := 3

  /** sbi_host_to_card: the transfer is tried three times; only a success takes the permission to send away. */
  method HostToCard(writes: nat -> bool, txDnldRdy: bool) returns (ok: bool, ready: bool, attempts: nat)
    ensures ok <==> exists k: nat :: k < 3 && writes(k)
    ensures 0 < attempts <= 3 && (ok ==> writes(attempts - 1)) && (!ok ==> attempts == 3)
    ensures forall k: nat :: k < attempts - 1 ==> !writes(k)
    ensures ready == (txDnldRdy && !ok)
  {
    ok, ready, attempts := writes(0), txDnldRdy, 1;
    while !ok
      invariant 0 < attempts <= MAX_CMD53_RETRY && ok == writes(attempts - 1) && ready == txDnldRdy
      invariant forall k: nat :: k < attempts - 1 ==> !writes(k)
      decreases MAX_CMD53_RETRY - attempts, !ok
    {
      if attempts >= MAX_CMD53_RETRY {
        return;
      }
      ok := writes(attempts);
      attempts := attempts + 1;
    }
    ready := false;
  }

  // ---- What the history says ----

  /** The causes raised since they were last taken. */
  function Outstanding(h: seq<Event>): set<nat> {
    if h == [] then {}
    else
      var before := Outstanding(h[..|h| - 1]);
      match h[|h| - 1]
      case Raised(cs) => before + cs
      case Taken(_) => {}
      case Sent(_) => before
  }

  /** Every taking takes exactly the outstanding causes. */
  ghost predicate TakesExactly(h: seq<Event>) {
    forall j :: 0 <= j < |h| && h[j].Taken? ==> h[j].causes == Outstanding(h[..j])
  }

  /** A packet may follow the one before only after a transmit-done cause has been taken. */
  function Credit(h: seq<Event>): bool {
    if h == [] then true
    else
      var e := h[|h| - 1];
      if e.Sent? then false else if e.Taken? && DN_LD in e.causes then true else Credit(h[..|h| - 1])
  }

  ghost predicate SentInTurn(h: seq<Event>) {
    forall j :: 0 <= j < |h| && h[j].Sent? ==> !h[j].whileAsleep && Credit(h[..j])
  }

  // ---- The invariant ----

  ghost predicate Inv(s: State) {
    && s.sdIreg == Outstanding(s.history) && TakesExactly(s.history) && SentInTurn(s.history)
    && (s.sdIreg != {} ==> s.intCounter != 0 || s.isr != Idle || s.main == Take)
    && (s.main == TestReady || s.main == Send ==> !s.asleep)
    && (s.main == Send ==> s.txDnldRdy && s.queued > 0)
    && (Credit(s.history) <==> s.txDnldRdy || (s.main.Process? && DN_LD in s.main.taken))
    && Recorded(s)
  }

  /** An interrupt has reset WakeupTries and is not cleared from the counter: on its way into it, or in it. */
  predicate Announced(s: State) {
    s.intCounter != 0 || s.isr.LoadCount? || s.isr.StoreCount?
  }

  /** The try that was being counted at the reset, if any, is the only one counted since. */
  ghost predicate TriesSince(tries: nat, main: MainPc, resetAt: MainPc) {
    match main
    case LoadTries => resetAt == LoadTries && tries == 0
    case StoreTries(n) => tries == 0 && (resetAt == main || (resetAt == LoadTries && n == 0))
    case _ =>
      tries == if resetAt == LoadTries then 1 else if resetAt.StoreTries? then Increment(resetAt.tries) else 0
  }

  /** An announced interrupt left no more tries than that, and a try begins only in sleep. */
  ghost predicate TriesRecorded(s: State) {
    && (Announced(s) ==> TriesSince(s.wakeupTries, s.main, s.resetAt))
    && (Announced(s) && s.main == TestWake ==> !s.asleep)
    && (s.isr.ResetTries? || s.isr.LoadCount? || s.isr.StoreCount? ==> !s.asleep)
  }

  /** With causes waiting and the handler past its reset, sleep comes from an event taken before the reset. */
  ghost predicate SleepRecorded(s: State) {
    && (s.isr.ResetTries? || s.isr.LoadCount? || s.isr.StoreCount? ==> !s.asleep)
    && (s.sdIreg != {} && !s.isr.Awaken? && !s.isr.ResetTries? && (s.main.Process? || s.asleep) ==> s.resetAt.Process?)
  }

  /** What the interrupt handler leaves behind. */
  ghost predicate Recorded(s: State) {
    TriesRecorded(s) && SleepRecorded(s)
  }

  /** An 8-bit increment. */
  function Increment(n: nat): nat {
    if n == U8 - 1 then 0 else n + 1
  }

  lemma Snoc(h: seq<Event>, e: Event)
    ensures (h + [e])[..|h|] == h
    ensures Outstanding(h + [e])
         == if e.Raised? then Outstanding(h) + e.causes else if e.Taken? then {} else Outstanding(h)
    ensures Credit(h + [e]) == if e.Sent? then false else if e.Taken? && DN_LD in e.causes then true else Credit(h)
    ensures TakesExactly(h) && (e.Taken? ==> e.causes == Outstanding(h)) ==> TakesExactly(h + [e])
    ensures SentInTurn(h) && (e.Sent? ==> !e.whileAsleep && Credit(h)) ==> SentInTurn(h + [e])
  {
    var g := h + [e];
    assert g[..|h|] == h;
    forall j | 0 <= j < |h|
      ensures g[..j] == h[..j]
    {
    }
  }

  lemma IsrKeepsRecord(s: State)
    requires Recorded(s) && !s.isr.Idle?
    ensures Recorded(Isr(s))
  {
  }

  lemma InterruptKeepsRecord(s: State, causes: set<nat>)
    requires Recorded(s)
    ensures Recorded(Step(s, Interrupt(causes)))
  {
  }

  lemma MainKeepsRecord(s: State, sleepEvent: bool, busOk: bool)
    requires Recorded(s) && (HostClaimed(s.main) ==> s.isr.Idle?)
    ensures Recorded(Main(s, sleepEvent, busOk))
  {
    hide TriesRecorded, SleepRecorded, Main;
    MainKeepsTries(s, sleepEvent, busOk);
    MainKeepsSleep(s, sleepEvent, busOk);
  }

  lemma MainKeepsTries(s: State, sleepEvent: bool, busOk: bool)
    requires TriesRecorded(s) && (HostClaimed(s.main) ==> s.isr.Idle?)
    ensures TriesRecorded(Main(s, sleepEvent, busOk))
  {
    hide Increment, TriesSince;
    if Announced(s) {
      if s.main.LoadTries? || s.main.StoreTries? {
        CountingKept(s.wakeupTries, s.main, s.resetAt);
      } else {
        TriesSinceSame(s.wakeupTries, s.main, Main(s, sleepEvent, busOk).main, s.resetAt);
      }
    }
  }

  /** Loading the count and storing it one up. */
  lemma CountingKept(tries: nat, main: MainPc, resetAt: MainPc)
    requires TriesSince(tries, main, resetAt)
    ensures main == LoadTries ==> TriesSince(tries, StoreTries(tries), resetAt)
    ensures main.StoreTries? ==> TriesSince(Increment(main.tries), Top, resetAt)
  {
  }

  lemma TriesSinceSame(tries: nat, main: MainPc, next: MainPc, resetAt: MainPc)
    requires !main.LoadTries? && !main.StoreTries? && !next.LoadTries? && !next.StoreTries?
    ensures TriesSince(tries, main, resetAt) <==> TriesSince(tries, next, resetAt)
  {
  }

  lemma MainKeepsSleep(s: State, sleepEvent: bool, busOk: bool)
    requires SleepRecorded(s) && (HostClaimed(s.main) ==> s.isr.Idle?)
    ensures SleepRecorded(Main(s, sleepEvent, busOk))
  {
  }

  lemma IsrKeeps(s: State)
    requires Inv(s) && !s.isr.Idle?
    ensures Inv(Isr(s))
  {
    hide Outstanding, TakesExactly, SentInTurn, Credit, Recorded;
    IsrKeepsRecord(s);
  }

  lemma MainKeeps(s: State, sleepEvent: bool, busOk: bool)
    requires Inv(s) && (HostClaimed(s.main) ==> s.isr.Idle?)
    ensures Inv(Main(s, sleepEvent, busOk))
  {
    Snoc(s.history, Taken(s.sdIreg));
    hide Outstanding, TakesExactly, SentInTurn, Credit, Recorded;
    Snoc(s.history, Sent(s.asleep));
    MainKeepsRecord(s, sleepEvent, busOk);
  }

  lemma EnqueueKeepsRecord(s: State)
    requires Recorded(s)
    ensures Recorded(Step(s, Enqueue))
  {
  }

  lemma StepKeeps(s: State, a: Action)
    requires Inv(s) && Enabled(s, a)
    ensures Inv(Step(s, a))
  {
    hide Outstanding, TakesExactly, SentInTurn, Credit, Recorded;
    match a {
      case Interrupt(causes) =>
        Snoc(s.history, Raised(causes));
        InterruptKeepsRecord(s, causes);
      case IsrStep => IsrKeeps(s);
      case MainStep(sleepEvent, busOk) => MainKeeps(s, sleepEvent, busOk);
      case Enqueue => EnqueueKeepsRecord(s);
    }
  }

  /** The steps of a run are possible when they are taken. */
  ghost predicate Possible(acts: seq<Action>) {
    acts != [] ==> Possible(acts[..|acts| - 1]) && Enabled(Run(acts[..|acts| - 1]), acts[|acts| - 1])
  }

  /** Some interleaving leads to the state. */
  ghost predicate Reachable(s: State) {
    exists acts :: Possible(acts) && Run(acts) == s
  }

  lemma {:induction false} RunKeeps(acts: seq<Action>)
    requires Possible(acts)
    ensures Inv(Run(acts))
  {
    hide Inv, Step, Enabled;
    if acts == [] {
      InitialInv();
    } else {
      RunKeeps(acts[..|acts| - 1]);
      StepKeeps(Run(acts[..|acts| - 1]), acts[|acts| - 1]);
    }
  }

  lemma ReachableKeeps(s: State)
    requires Reachable(s)
    ensures Inv(s)
  {
    hide Inv, Run;
    var acts :| Possible(acts) && Run(acts) == s;
    RunKeeps(acts);
  }

  lemma InitialInv()
    ensures Inv(Initial())
  {
  }

  // ---- What follows ----

  /** A cause in the history is still in sd_ireg or has been taken since. */
  lemma {:induction false} OutstandingOrTaken(h: seq<Event>, k: nat, c: nat)
    requires TakesExactly(h) && k < |h| && h[k].Raised? && c in h[k].causes
    ensures c in Outstanding(h) || exists j :: k < j < |h| && h[j].Taken? && c in h[j].causes
  {
    var before, e := h[..|h| - 1], h[|h| - 1];
    if k < |h| - 1 {
      assert forall j :: 0 <= j < |before| ==> before[..j] == h[..j];
      OutstandingOrTaken(before, k, c);
      if c !in Outstanding(h) && c in Outstanding(before) {
        assert e.Taken? && e.causes == Outstanding(before);
      }
    }
  }

  /**
   * In every run: a cause once raised is in sd_ireg until it is taken; a non-empty sd_ireg is announced by the
   * counter unless one of the two is between its two steps; no packet goes out in sleep, nor before the one
   * before it is acknowledged. Sending is permitted exactly when nothing has gone out yet or the last packet is
   * acknowledged, from when the main thread has processed the acknowledgement.
   */
  lemma HandOff(s: State)
    requires Reachable(s)
    ensures s.sdIreg != {} ==> s.intCounter != 0 || s.isr != Idle || s.main == Take
    ensures forall k, c :: 0 <= k < |s.history| && s.history[k].Raised? && c in s.history[k].causes ==>
              (c in s.sdIreg || exists j :: k < j < |s.history| && s.history[j].Taken? && c in s.history[j].causes)
    ensures TakesExactly(s.history) && SentInTurn(s.history)
    ensures Credit(s.history) <==> s.txDnldRdy || (s.main.Process? && DN_LD in s.main.taken)
  {
    ReachableKeeps(s);
    hide Reachable, Outstanding, SentInTurn, TakesExactly, Credit;
    forall k, c | 0 <= k < |s.history| && s.history[k].Raised? && c in s.history[k].causes
      ensures c in s.sdIreg || exists j :: k < j < |s.history| && s.history[j].Taken? && c in s.history[j].causes
    {
      OutstandingOrTaken(s.history, k, c);
    }
  }

  /** The condition on which the main thread goes to sleep at the top of its loop. */
  predicate WouldSleep(s: State) {
    s.wakeupTries != 0 || (s.intCounter == 0 && (!s.txDnldRdy || s.queued == 0))
  }

  /**
   * When the main thread sleeps although causes wait and the handler is done: exactly when the handler last reset
   * WakeupTries in the middle of a try being counted, before or after its load, unless the count loaded wraps to
   * zero. It never does with the card asleep again.
   */
  lemma SleepsExactly(s: State)
    requires Reachable(s) && s.main == Top && s.isr == Idle && s.sdIreg != {}
    ensures WouldSleep(s) <==> s.resetAt == LoadTries || (s.resetAt.StoreTries? && s.resetAt.tries != U8 - 1)
    ensures s.asleep ==> !WouldSleep(s)
  {
    hide Reachable, Outstanding, SentInTurn, TakesExactly, Credit;
    ReachableKeeps(s);
  }

  /** With no interrupt counted, it sleeps unless no try is out and a packet may go. */
  lemma SleepsWithoutCause(s: State)
    requires Reachable(s) && s.main == Top && s.intCounter == 0
    ensures WouldSleep(s) <==> s.wakeupTries != 0 || !Credit(s.history) || s.queued == 0
  {
    hide Reachable, Outstanding, SentInTurn, TakesExactly, Credit;
    ReachableKeeps(s);
  }

  lemma Extend(s: State, a: Action) returns (t: State)
    requires Reachable(s) && Enabled(s, a)
    ensures t == Step(s, a) && Reachable(t)
  {
    hide Step, Enabled;
    var acts :| Possible(acts) && Run(acts) == s;
    assert (acts + [a])[..|acts|] == acts;
    assert Possible(acts + [a]) && Run(acts + [a]) == Step(s, a);
    t := Step(s, a);
  }

  /** A whole interrupt, between two steps of the main thread. */
  lemma WholeInterrupt(s: State, causes: set<nat>) returns (t: State)
    requires Reachable(s) && s.isr == Idle
    ensures Reachable(t) && t.sdIreg == s.sdIreg + causes && t.intCounter == s.intCounter + 1 && t.isr == Idle
    ensures t.wakeupTries == 0 && !t.asleep && t.main == s.main && t.queued == s.queued && t.txDnldRdy == s.txDnldRdy
    ensures t.resetAt == s.main
  {
    hide Reachable;
    t := Extend(s, Interrupt(causes));
    t := Extend(t, IsrStep);
    t := Extend(t, IsrStep);
    t := Extend(t, IsrStep);
    t := Extend(t, IsrStep);
  }

  lemma MainSteps(s: State, sleepEvent: bool) returns (t: State)
    requires Reachable(s) && (HostClaimed(s.main) ==> s.isr.Idle?)
    ensures Reachable(t) && t == Main(s, sleepEvent, true)
  {
    hide Reachable, Main;
    t := Extend(s, MainStep(sleepEvent, true));
  }

  /** The main thread takes the waiting causes. */
  lemma TakesEvent(s: State) returns (t: State)
    requires Reachable(s) && s.main == Top && s.intCounter != 0
    ensures Reachable(t) && t == s.(main := t.main, sdIreg := {}, intCounter := 0, history := t.history)
    ensures t.main == Process(s.sdIreg)
  {
    hide Reachable;
    t := MainSteps(s, true);
    t := MainSteps(t, true);
    t := MainSteps(t, true);
    t := MainSteps(t, true);
  }

  /** It has taken an event that puts the card to sleep, and is about to act on it. */
  lemma TakesSleepEvent() returns (t: State)
    ensures Reachable(t) && t.main == Process({UP_LD}) && t.sdIreg == {} && t.intCounter == 0 && t.isr == Idle
    ensures t.wakeupTries == 0 && !t.asleep && t.queued == 1
  {
    t := Initial();
    assert Possible([]) && Run([]) == t;
    hide Reachable;
    t := Extend(t, Enqueue);
    t := WholeInterrupt(t, {UP_LD});
    t := TakesEvent(t);
  }

  /** From there, with a packet waiting and no count, to the start of a wake-up try. */
  lemma StartsTry(s: State) returns (t: State)
    requires Reachable(s) && s.main == Process({UP_LD}) && s.isr == Idle && s.intCounter == 0 && s.queued > 0
    ensures Reachable(t)
    ensures t == s.(main := LoadTries, asleep := true, txDnldRdy := t.txDnldRdy)
  {
    hide Reachable;
    t := MainSteps(s, true);
    t := MainSteps(t, true);
    t := MainSteps(t, true);
    t := MainSteps(t, true);
    t := MainSteps(t, true);
  }

  /** A round of the loop with nothing to take, the card awake and a packet permitted sends it. */
  lemma RoundSends(s: State) returns (t: State)
    requires Reachable(s) && s.main == Top && s.isr == Idle && s.intCounter == 0
    requires !s.asleep && Credit(s.history) && s.queued > 0
    ensures Reachable(t) && t.main == Top && t.queued == s.queued - 1 && !Credit(t.history)
    ensures t.history == s.history + [Sent(false)]
  {
    hide Reachable, Outstanding, SentInTurn, TakesExactly, Credit, Recorded;
    ReachableKeeps(s);
    t := MainSteps(s, false);
    assert t == s.(main := TestCount);
    t := MainSteps(t, false);
    assert t == s.(main := TestWake);
    t := MainSteps(t, false);
    assert t == s.(main := TestSleep);
    t := MainSteps(t, false);
    assert t == s.(main := TestReady);
    t := MainSteps(t, false);
    assert t == s.(main := Send);
    t := MainSteps(t, false);
    Snoc(s.history, Sent(false));
  }

  /** A round with nothing to take and the card asleep counts one try if a packet waits, and else does nothing. */
  lemma RoundTries(s: State) returns (t: State)
    requires Reachable(s) && s.main == Top && s.intCounter == 0 && s.asleep
    ensures Reachable(t) && t.main == Top
    ensures t == s.(wakeupTries := if s.queued > 0 then if s.wakeupTries == 255 then 0 else s.wakeupTries + 1
                                   else s.wakeupTries)
  {
    hide Reachable;
    t := MainSteps(s, false);
    assert t == s.(main := TestCount);
    t := MainSteps(t, false);
    assert t == s.(main := TestWake);
    t := MainSteps(t, false);
    t := MainSteps(t, false);
    if s.queued > 0 {
      t := MainSteps(t, false);
    }
  }

  /** A round with an acknowledgement waiting takes it and gives the permission back, whatever else it finds. */
  lemma RoundAcknowledges(s: State, sleepEvent: bool) returns (t: State)
    requires Reachable(s) && s.main == Top && s.isr == Idle && s.intCounter != 0 && DN_LD in s.sdIreg
    ensures Reachable(t) && t.txDnldRdy && Credit(t.history) && t.sdIreg == {} && t.intCounter == 0
    ensures t.asleep == (s.asleep || (UP_LD in s.sdIreg && sleepEvent))
  {
    hide Reachable, Outstanding, SentInTurn, TakesExactly, Credit;
    t := TakesEvent(s);
    t := MainSteps(t, sleepEvent);
    ReachableKeeps(t);
  }

  /** A cause waits, the counter says so, the handler is done, and the main thread goes to sleep. */
  ghost predicate SleepsOnCause(s: State) {
    Reachable(s) && s.main == Top && s.isr == Idle && s.sdIreg == {DN_LD} && s.intCounter == 1 && WouldSleep(s)
  }

  /** It happens with a whole interrupt before the load of the count: an atomic increment would not help. */
  lemma LostBeforeLoad()
    ensures exists s :: SleepsOnCause(s) && s.resetAt == LoadTries
  {
    hide Reachable;
    var s := TakesSleepEvent();
    s := StartsTry(s);
    s := WholeInterrupt(s, {DN_LD});
    s := MainSteps(s, false);
    s := MainSteps(s, false);
    assert SleepsOnCause(s);
  }

  /** With one between the load and the store. */
  lemma LostBeforeStore()
    ensures exists s :: SleepsOnCause(s) && s.resetAt == StoreTries(0)
  {
    hide Reachable;
    var s := TakesSleepEvent();
    s := StartsTry(s);
    s := MainSteps(s, false);
    s := WholeInterrupt(s, {DN_LD});
    s := MainSteps(s, false);
    assert SleepsOnCause(s);
  }
}
