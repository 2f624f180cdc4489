/**
 * Whole runs of the radar handling, from the detection on: their order, what each interface gets, how they end
 * and when they do not.
 */
module DfsRadarTheorems {
  import opened DfsRadar
  import opened DfsRadarRuns

  /** The detection, on an idle handler. */
  function Detect(privs: seq<Priv>, first: nat, r: Rdh, info: Info): Rdh
    requires |privs| < FIRST_ENTRY && first < |privs|
  {
    Handle(r.(stage := ChkIntfs, privs := privs, log := [], pending := multiset{}), first, info)
  }

  function RunOf(privs: seq<Priv>, first: nat, r: Rdh): Run {
    Run(privs, ActivePrivs(privs, 0), first, r.currChannel, r.newChannel)
  }

  lemma DetectInv(privs: seq<Priv>, first: nat, r: Rdh, info: Info)
    requires |privs| < FIRST_ENTRY && first < |privs| && NothingToRestart(privs) && ActivePrivs(privs, 0) != []
    ensures var s := Detect(privs, first, r, info); Inv(RunOf(privs, first, s), s)
  {
    hide DoGetInfoChannel, NothingToRestart, TxAll;
    var list := ActivePrivs(privs, 0);
    var x := Run(privs, list, first, 0, 0);
    var t := r.(stage := GetInfoChannel, privs := privs, log := TxAll(list, false), pending := multiset{},
                privCurrIdx := FIRST_ENTRY, privList := list, currChannel := 0, newChannel := 0);
    assert [] + TxAll(list, false) == TxAll(list, false);
    assert Detect(privs, first, r, info) == DoGetInfoChannel(t, first, info);
    GetInfoChannelInv(x, t, info);
  }

  /** A sequence of completions, each of a command then pending. */
  ghost predicate IsRun(r: Rdh, cs: seq<(Action, Info)>, s: Rdh)
    decreases |cs|
  {
    if cs == [] then s == r
    else cs[0].0 in r.pending && CanComplete(r, cs[0].0) && IsRun(Complete(r, cs[0].0, cs[0].1), cs[1..], s)
  }

  lemma {:induction false} RunInv(x: Run, r: Rdh, cs: seq<(Action, Info)>, s: Rdh)
    requires Inv(x, r) && IsRun(r, cs, s)
    ensures Inv(Now(x, s), s)
    decreases |cs|
  {
    hide Inv, Complete, CanComplete;
    if cs == [] {
      NowSame(x, r);
    } else {
      StepInv(x, r, cs[0].0, cs[0].1);
      var t := Complete(r, cs[0].0, cs[0].1);
      RunInv(Now(x, t), t, cs[1..], s);
      assert Now(Now(x, t), s) == Now(x, s);
    }
  }

  lemma {:induction false} StoppedElsewhere(x: Run, n: nat, p: nat)
    requires WellFormed(x.p0, x.list) && n <= |x.list| && p < |x.p0| && p !in x.list
    ensures StoppedUpTo(x, n)[p] == x.p0[p]
  {
    if n > 0 {
      StoppedElsewhere(x, n - 1, p);
    }
  }

  lemma {:induction false} RestartedElsewhere(x: Run, n: nat, p: nat)
    requires WellFormed(x.p0, x.list) && n <= |x.list| && p < |x.p0| && p !in x.list
    ensures RestartedUpTo(x, n)[p] == x.p0[p]
  {
    if n > 0 {
      RestartedElsewhere(x, n - 1, p);
    } else {
      StoppedElsewhere(x, |x.list|, p);
    }
  }

  /** The end of a complete run leaves nothing for a later one to restart. */
  lemma NothingLeftToRestart(x: Run)
    requires Ok(x)
    ensures NothingToRestart(RestartedUpTo(x, |x.list|))
  {
    var end := RestartedUpTo(x, |x.list|);
    forall p | 0 <= p < |end|
      ensures !end[p].adhocPrev.AdhocStarted?
    {
      if p in x.list {
        var k :| 0 <= k < |x.list| && x.list[k] == p;
        RestartedAt(x, |x.list|, k);
        RestartCases(x.p0[p], x.chosen);
      } else {
        RestartedElsewhere(x, |x.list|, p);
      }
    }
  }

  lemma UapStopped(q: Priv)
    requires q.role.Uap?
    ensures Stopped(q) == q.(bssStarted := false)
  {
  }

  lemma StopKeepsNothing(privs: seq<Priv>, q: nat)
    requires q < |privs| && privs[q].role.Uap? && NothingToRestart(privs)
    ensures NothingToRestart(privs[q := Stopped(privs[q])])
  {
  }

  /**
   * A run that reaches the end has either done everything or, for want of a channel, stopped the access point,
   * which is over when the stop has completed.
   */
  lemma RunEnds(privs: seq<Priv>, first: nat, r: Rdh, info: Info, cs: seq<(Action, Info)>, s: Rdh)
    requires |privs| < FIRST_ENTRY && first < |privs| && NothingToRestart(privs) && ActivePrivs(privs, 0) != []
    requires IsRun(Detect(privs, first, r, info), cs, s) && s.stage == Off
    ensures var x := RunOf(privs, first, s);
            && Ok(x)
            && (var q := Chooser(x);
                if x.p0[q].role.Uap? && (s.newChannel == 0 || s.newChannel == s.currChannel) then
                  && s.log == BeforeDtim(x) + [BssStop(q)]
                  && s.privs == (if s.pending == multiset{} then privs[q := privs[q].(bssStarted := false)] else privs)
                else s.log == FullTrace(x) && s.privs == RestartedUpTo(x, |x.list|))
            && NothingToRestart(s.privs)
  {
    DetectInv(privs, first, r, info);
    var t := Detect(privs, first, r, info);
    hide Detect, Ok, FullTrace, BeforeDtim, RestartedUpTo, Chooser, ActivePrivs, NothingToRestart, Stopped, NoHostAp;
    var x := RunOf(privs, first, s);
    RunInv(RunOf(privs, first, t), t, cs, s);
    StageIs(x, s);
    NothingLeftToRestart(x);
    if x.p0[Chooser(x)].role.Uap? {
      StopKeepsNothing(privs, Chooser(x));
      UapStopped(privs[Chooser(x)]);
    }
  }

  /** No active interface: nothing happens at all. */
  lemma NothingActive(privs: seq<Priv>, first: nat, r: Rdh, info: Info)
    requires |privs| < FIRST_ENTRY && first < |privs| && ActivePrivs(privs, 0) == []
    ensures var s := Detect(privs, first, r, info); s.stage.Off? && s.log == [] && s.pending == multiset{}
  {
  }

  // ---- Order ----

  /** The place of an action's stage in the sequence of stages. */
  function Place(a: Action): nat {
    match a
    case TxDisable(_) => 2
    case GetChannel(_) => 3
    case MarkNop(_) => 3
    case GetBeaconDtim(_) => 4
    case SetIe(_) => 5
    case RemIe(_) => 6
    case BssStop(_) => 7
    case Deauth(_) => 7
    case AdhocStop(_) => 7
    case SetChannel(_, _) => 8
    case BssStart(_) => 9
    case AdhocStart(_, _) => 9
    case TxEnable(_) => 10
  }

  ghost predicate InOrder(log: seq<Action>) {
    forall i, j :: 0 <= i < j < |log| ==> Place(log[i]) <= Place(log[j])
  }

  ghost predicate Within(log: seq<Action>, lo: nat, hi: nat) {
    forall i :: 0 <= i < |log| ==> lo <= Place(log[i]) <= hi
  }

  lemma Appends(a: seq<Action>, b: seq<Action>, hi: nat, place: nat)
    requires InOrder(a) && Within(a, 0, hi) && InOrder(b) && Within(b, place, place) && hi <= place
    ensures InOrder(a + b) && Within(a + b, 0, place)
  {
    hide Place;
  }

  function KindPlace(k: Kind): nat {
    match k
    case AskDtim => 4
    case AddIe => 5
    case DropIe => 6
    case Stop => 7
    case Set => 8
    case Start => 9
  }

  lemma ActsInPlace(k: Kind, q: Priv, p: nat, chosen: nat)
    ensures forall i :: 0 <= i < |ActionsFor(k, q, p, chosen)| ==> Place(ActionsFor(k, q, p, chosen)[i]) == KindPlace(k)
  {
  }

  lemma {:induction false} EachInPlace(x: Run, k: Kind, n: nat)
    requires WellFormed(x.p0, x.list) && n <= |x.list|
    ensures InOrder(Each(x, k, n)) && Within(Each(x, k, n), KindPlace(k), KindPlace(k))
  {
    hide ActionsFor, Place, KindPlace;
    if n > 0 {
      EachInPlace(x, k, n - 1);
      ActsInPlace(k, x.p0[x.list[n - 1]], x.list[n - 1], x.chosen);
    }
  }

  lemma AppendsStage(x: Run, before: seq<Action>, hi: nat, k: Kind)
    requires WellFormed(x.p0, x.list) && InOrder(before) && Within(before, 0, hi) && hi <= KindPlace(k)
    ensures InOrder(before + All(x, k)) && Within(before + All(x, k), 0, KindPlace(k))
  {
    hide InOrder, Within, KindPlace, Each;
    EachInPlace(x, k, |x.list|);
    Appends(before, All(x, k), hi, KindPlace(k));
  }

  lemma HeadInOrder(x: Run)
    requires Ok(x)
    ensures InOrder(BeforeDtim(x)) && Within(BeforeDtim(x), 0, 3)
  {
    hide Distinct, NothingToRestart;
    var log := BeforeDtim(x);
    assert forall i :: 0 <= i < |log| ==> Place(log[i]) == if i < |x.list| then 2 else 3;
  }

  lemma FullTraceInOrder(x: Run)
    requires Ok(x)
    ensures InOrder(FullTrace(x))
  {
    HeadInOrder(x);
    hide InOrder, Within, All, TxAll, BeforeDtim;
    AppendsStage(x, BeforeDtim(x), 3, AskDtim);
    AppendsStage(x, BeforeAdd(x), 4, AddIe);
    AppendsStage(x, BeforeDrop(x), 5, DropIe);
    AppendsStage(x, BeforeStop(x), 6, Stop);
    AppendsStage(x, BeforeSet(x), 7, Set);
    AppendsStage(x, BeforeStart(x), 8, Start);
    TxAllInPlace(x.list);
    Appends(BeforeEnable(x), TxAll(x.list, true), 9, 10);
  }

  lemma TxAllInPlace(list: seq<nat>)
    ensures InOrder(TxAll(list, true)) && Within(TxAll(list, true), 10, 10)
  {
  }

  lemma {:induction false} EachIsPrefix(x: Run, k: Kind, n: nat, m: nat)
    requires WellFormed(x.p0, x.list) && n <= m <= |x.list|
    ensures Each(x, k, n) <= Each(x, k, m)
    decreases m
  {
    if n < m {
      EachIsPrefix(x, k, n, m - 1);
    }
  }

  lemma PrefixGrows(a: seq<Action>, b: seq<Action>, c: seq<Action>)
    requires a + b <= c
    ensures a <= c
  {
    assert a == (a + b)[..|a|] == c[..|a|];
  }

  lemma StagePrefix(x: Run, before: seq<Action>, k: Kind, n: nat, whole: seq<Action>)
    requires WellFormed(x.p0, x.list) && n <= |x.list| && before + All(x, k) <= whole
    ensures before + Each(x, k, n) <= whole && before <= whole
  {
    EachIsPrefix(x, k, n, |x.list|);
    hide Each;
    assert before + Each(x, k, n) <= before + All(x, k);
    PrefixGrows(before, All(x, k), whole);
  }

  lemma PrefixEarly(x: Run, r: Rdh)
    requires Ok(x) && (AwaitingChannel(x, r) || Stuck(x, r) || AwaitingDtim(x, r) || AwaitingIe(x, r))
    ensures r.log <= FullTrace(x)
  {
    hide Distinct, NothingToRestart, Opening, TxAll, BeforeDtim, BeforeDrop, BeforeStop, Each, FullTrace, IeOnly, All;
    PrefixesOf(x, r.privCurrIdx + 1);
  }

  lemma PrefixStop(x: Run, r: Rdh)
    requires Ok(x) && AwaitingStop(x, r)
    ensures r.log <= FullTrace(x)
  {
    hide Distinct, NothingToRestart, BeforeStop, Each, FullTrace, Waiting, StoppedUpTo, Stopping, StopAction;
    PrefixesOf(x, r.privCurrIdx + 1);
  }

  lemma PrefixSet(x: Run, r: Rdh)
    requires Ok(x) && AwaitingSet(x, r)
    ensures r.log <= FullTrace(x)
  {
    hide Distinct, NothingToRestart, BeforeSet, Each, FullTrace, Waiting, StoppedUpTo;
    PrefixesOf(x, r.privCurrIdx + 1);
  }

  lemma PrefixStart(x: Run, r: Rdh)
    requires Ok(x) && AwaitingStart(x, r)
    ensures r.log <= FullTrace(x)
  {
    hide Distinct, NothingToRestart, BeforeStart, Each, FullTrace, Waiting, RestartedUpTo, Stopped, Restarting,
      RestartAction, IsCreator, NoHostAp;
    PrefixesOf(x, r.privCurrIdx + 1);
  }

  lemma PrefixHalted(x: Run, r: Rdh)
    requires Ok(x) && Halted(x, r)
    ensures r.log <= FullTrace(x)
  {
    hide Distinct, NothingToRestart, BeforeStart, Each, FullTrace, IeOnly, RestartedUpTo, NoHostAp, IsHostAp;
    PrefixesOf(x, r.privCurrIdx + 1);
  }

  lemma PrefixEnd(x: Run, r: Rdh)
    requires Ok(x) && (Finished(x, r) || GaveUp(x, r))
    ensures r.log <= FullTrace(x) || r.log == BeforeDtim(x) + [BssStop(Chooser(x))]
  {
    hide Ok, BeforeDtim, FullTrace, Chooser, RestartedUpTo, Stopped, NoHostAp;
  }

  /** At every moment the trace is a prefix of the full one, or ends in the stop of the access point. */
  lemma TraceIsPrefix(x: Run, r: Rdh)
    requires Inv(x, r)
    ensures Ok(x)
    ensures r.log <= FullTrace(x) || r.log == BeforeDtim(x) + [BssStop(Chooser(x))]
  {
    hide *;
    StageIs(x, r);
    if r.stage == Off {
      PrefixEnd(x, r);
    } else if r.stage == StopIntfs {
      PrefixStop(x, r);
    } else if r.stage == SetNewChannel {
      PrefixSet(x, r);
    } else if r.stage == RestartIntfs {
      if AwaitingStart(x, r) {
        PrefixStart(x, r);
      } else {
        PrefixHalted(x, r);
      }
    } else {
      PrefixEarly(x, r);
    }
  }

  lemma PrefixesOf(x: Run, n: nat)
    requires Ok(x)
    ensures var t := FullTrace(x);
            && Opening(x) <= t && TxAll(x.list, false) <= t && BeforeDrop(x) <= t && BeforeStop(x) <= t
            && (n <= |x.list| ==>
                  && BeforeDtim(x) + Each(x, AskDtim, n) <= t && BeforeStop(x) + Each(x, Stop, n) <= t
                  && BeforeSet(x) + Each(x, Set, n) <= t && BeforeStart(x) + Each(x, Start, n) <= t)
  {
    hide Each, TxAll, Distinct, NothingToRestart;
    var t := FullTrace(x);
    var m := if n <= |x.list| then n else 0;
    PrefixGrows(BeforeEnable(x), TxAll(x.list, true), t);
    StagePrefix(x, BeforeStart(x), Start, m, t);
    StagePrefix(x, BeforeSet(x), Set, m, t);
    StagePrefix(x, BeforeStop(x), Stop, m, t);
    StagePrefix(x, BeforeDrop(x), DropIe, m, t);
    StagePrefix(x, BeforeAdd(x), AddIe, m, t);
    StagePrefix(x, BeforeDtim(x), AskDtim, m, t);
    PrefixGrows(Opening(x), [MarkNop(x.curr)], t);
    PrefixGrows(TxAll(x.list, false), UapOnly(x.p0[x.first], GetChannel(x.first)), t);
  }

  lemma GaveUpInOrder(x: Run)
    requires Ok(x)
    ensures InOrder(BeforeDtim(x) + [BssStop(Chooser(x))])
  {
    HeadInOrder(x);
    hide BeforeDtim, Chooser, Distinct;
    Appends(BeforeDtim(x), [BssStop(Chooser(x))], 3, 7);
  }

  /**
   * At every moment of every run all stops of interfaces precede all channel settings, which precede all
   * restarts; traffic is stopped before all of them and restarted after.
   */
  lemma RunInOrder(privs: seq<Priv>, first: nat, r: Rdh, info: Info, cs: seq<(Action, Info)>, s: Rdh)
    requires |privs| < FIRST_ENTRY && first < |privs| && NothingToRestart(privs) && ActivePrivs(privs, 0) != []
    requires IsRun(Detect(privs, first, r, info), cs, s)
    ensures InOrder(s.log)
  {
    DetectInv(privs, first, r, info);
    var t := Detect(privs, first, r, info);
    var x := RunOf(privs, first, s);
    RunInv(RunOf(privs, first, t), t, cs, s);
    TraceIsPrefix(x, s);
    FullTraceInOrder(x);
    GaveUpInOrder(x);
    hide Place;
  }

  // ---- What each interface gets ----

  /** How often an action occurs. */
  function Times(log: seq<Action>, a: Action): nat {
    multiset(log)[a]
  }

  lemma TimesConcat(a: seq<Action>, b: seq<Action>, c: Action)
    ensures Times(a + b, c) == Times(a, c) + Times(b, c)
  {
  }

  /** Whether a stage does `a` for an interface found in state `q`. */
  predicate Does(k: Kind, q: Priv, p: nat, chosen: nat, a: Action) {
    ActionsFor(k, q, p, chosen) == [a]
  }

  lemma TimesActs(k: Kind, q: Priv, p: nat, chosen: nat, a: Action)
    requires !a.MarkNop?
    ensures Times(ActionsFor(k, q, p, chosen), a) == if Does(k, q, p, chosen, a) then 1 else 0
    ensures Does(k, q, p, chosen, a) ==> a.p == p
  {
    var acts := ActionsFor(k, q, p, chosen);
    assert acts == [] || acts == [acts[0]];
  }

  lemma NeverInNothing(a: Action)
    ensures Times([], a) == 0
  {
  }

  /** A stage does to interface `list[j]` what it is to do, once. */
  lemma {:induction false} EachOnce(x: Run, k: Kind, n: nat, j: nat, a: Action)
    requires WellFormed(x.p0, x.list) && Distinct(x.list) && n <= |x.list| && j < |x.list|
    requires !a.MarkNop? && a.p == x.list[j]
    ensures Times(Each(x, k, n), a) == if j < n && Does(k, x.p0[x.list[j]], x.list[j], x.chosen, a) then 1 else 0
  {
    hide Distinct, ActionsFor, Does, Times;
    NeverInNothing(a);
    if n > 0 {
      EachOnce(x, k, n - 1, j, a);
      var p := x.list[n - 1];
      TimesConcat(Each(x, k, n - 1), ActionsFor(k, x.p0[p], p, x.chosen), a);
      TimesActs(k, x.p0[p], p, x.chosen, a);
      if j != n - 1 {
        DifferentPrivs(x.list, j, n - 1);
      }
    }
  }

  lemma DifferentPrivs(list: seq<nat>, j: nat, k: nat)
    requires Distinct(list) && j < |list| && k < |list| && j != k
    ensures list[j] != list[k]
  {
  }

  lemma TimesOpening(x: Run, a: Action)
    requires Ok(x) && Place(a) >= 4 && Place(a) <= 9
    ensures Times(BeforeDtim(x), a) == 0 && Times(TxAll(x.list, true), a) == 0
  {
    hide Distinct, NothingToRestart, WellFormed;
    var head, tail := BeforeDtim(x), TxAll(x.list, true);
    assert forall i :: 0 <= i < |head| ==> Place(head[i]) < 4;
    assert forall i :: 0 <= i < |tail| ==> Place(tail[i]) == 10;
    assert a !in head && a !in tail;
  }

  /** An action occurs in the full trace as often as in its stages together. */
  lemma TimesFull(x: Run, a: Action)
    requires Ok(x) && Place(a) >= 4 && Place(a) <= 9
    ensures Times(FullTrace(x), a)
         == Times(All(x, AskDtim), a) + Times(All(x, AddIe), a) + Times(All(x, DropIe), a)
            + Times(All(x, Stop), a) + Times(All(x, Set), a) + Times(All(x, Start), a)
  {
    TimesOpening(x, a);
    hide Times, All, BeforeDtim, TxAll, Place, Ok;
    TimesConcat(BeforeDtim(x), All(x, AskDtim), a);
    TimesConcat(BeforeAdd(x), All(x, AddIe), a);
    TimesConcat(BeforeDrop(x), All(x, DropIe), a);
    TimesConcat(BeforeStop(x), All(x, Stop), a);
    TimesConcat(BeforeSet(x), All(x, Set), a);
    TimesConcat(BeforeStart(x), All(x, Start), a);
    TimesConcat(BeforeEnable(x), TxAll(x.list, true), a);
  }

  function KindOf(a: Action): Kind {
    var n := Place(a);
    if n <= 4 then AskDtim else if n == 5 then AddIe else if n == 6 then DropIe else if n == 7 then Stop
    else if n == 8 then Set else Start
  }

  lemma DoesOwnKind(k: Kind, q: Priv, p: nat, chosen: nat, a: Action)
    ensures Does(k, q, p, chosen, a) ==> k == KindOf(a)
  {
  }

  lemma TimesIn(x: Run, k: Kind, j: nat, a: Action)
    requires Ok(x) && j < |x.list| && !a.MarkNop? && a.p == x.list[j]
    ensures Times(All(x, k), a) == if k == KindOf(a) && Does(k, x.p0[a.p], a.p, x.chosen, a) then 1 else 0
  {
    hide Times, Each, Does, KindOf;
    EachOnce(x, k, |x.list|, j, a);
    DoesOwnKind(k, x.p0[a.p], a.p, x.chosen, a);
  }

  /** In the full trace an action of one of the command stages occurs once or not at all. */
  lemma TimesFor(x: Run, j: nat, a: Action)
    requires Ok(x) && j < |x.list| && !a.MarkNop? && a.p == x.list[j] && 4 <= Place(a) <= 9
    ensures Times(FullTrace(x), a) == if Does(KindOf(a), x.p0[a.p], a.p, x.chosen, a) then 1 else 0
  {
    hide Times, FullTrace, All, Does, Place, Ok, KindOf;
    TimesFull(x, a);
    TimesIn(x, AskDtim, j, a);
    TimesIn(x, AddIe, j, a);
    TimesIn(x, DropIe, j, a);
    TimesIn(x, Stop, j, a);
    TimesIn(x, Set, j, a);
    TimesIn(x, Start, j, a);
    assert KindOf(a) in {AskDtim, AddIe, DropIe, Stop, Set, Start};
  }

  /** After a complete run creators run their network again, and nothing is left to restart. */
  lemma EndState(x: Run, r: Rdh, j: nat)
    requires Ok(x) && r.privs == RestartedUpTo(x, |x.list|) && j < |x.list|
    ensures var p := x.list[j];
            var q, s := x.p0[p], r.privs[p];
            && (q.role.Uap? ==> s == q)
            && (IsCreator(q) ==> s.connected && s.adhoc == AdhocStarted && s.adhocChannel == x.chosen)
            && (q.role.Sta? && !IsCreator(q) ==> !s.connected && s.adhoc == AdhocIdle)
            && !s.adhocPrev.AdhocStarted?
  {
    RestartedAt(x, |x.list|, j);
    RestartCases(x.p0[x.list[j]], x.chosen);
    hide RestartedUpTo, Distinct;
  }
}
