/** When a run of the radar handling comes to its end: exactly when it has a master interface to go on with. */
module DfsRadarProgress {
  import opened DfsRadar
  import opened DfsRadarRuns
  import opened DfsRadarTheorems

  /** Some pending command will call the handler again. */
  ghost predicate CanMove(r: Rdh) {
    exists c :: c in r.pending && CanComplete(r, c) && Reenters(r.stage, c, r.privs[c.p])
  }

  lemma {:induction false} NoMasters(x: Run, n: nat)
    requires WellFormed(x.p0, x.list) && n <= |x.list|
    ensures Each(x, AddIe, n) == [] <==> forall k :: 0 <= k < n ==> !IsDfsMaster(x.p0[x.list[k]])
  {
    hide IsDfsMaster;
    if n > 0 {
      NoMasters(x, n - 1);
    }
  }

  lemma MovesFromIe(x: Run, r: Rdh)
    requires Ok(x) && Same(x, r) && AwaitingIe(x, r)
    ensures CanMove(r) <==> !(r.stage.SetCustomIe? && All(x, AddIe) == [])
  {
    hide Each, BeforeDrop, BeforeStop, Distinct, NothingToRestart;
    var adds := All(x, AddIe);
    if r.stage.SetCustomIe? {
      if adds != [] {
        assert adds[0] in r.pending;
        IeCompletes(x, r, adds[0]);
      }
    } else {
      var c :| c in r.pending;
      IeCompletes(x, r, c);
    }
  }

  lemma MovesEarly(x: Run, r: Rdh)
    requires Ok(x) && Same(x, r) && (AwaitingChannel(x, r) || AwaitingDtim(x, r))
    ensures CanMove(r)
  {
    hide Each, BeforeDtim, Opening, Distinct, NothingToRestart;
    var c := if r.stage.GetInfoChannel? then GetChannel(x.first) else GetBeaconDtim(x.list[r.privCurrIdx]);
    assert c in r.pending && CanComplete(r, c) && Reenters(r.stage, c, r.privs[c.p]);
  }

  lemma MovesFromStop(x: Run, r: Rdh)
    requires Ok(x) && Same(x, r) && (AwaitingStop(x, r) || AwaitingSet(x, r))
    ensures CanMove(r)
  {
    hide Each, BeforeStop, BeforeSet, Distinct, NothingToRestart, IeOnly, StoppedUpTo, Stopping;
    var p := x.list[r.privCurrIdx];
    var c := if r.stage.StopIntfs? then StopAction(x.p0[p], p) else SetChannel(p, x.chosen);
    assert c in r.pending && CanComplete(r, c) && Reenters(r.stage, c, r.privs[c.p]);
  }

  /** Waiting for a start: the handler is called again unless it is that of an access point with host 11h. */
  lemma MovesFromStart(x: Run, r: Rdh)
    requires Ok(x) && Same(x, r) && AwaitingStart(x, r)
    ensures CanMove(r) <==> !IsHostAp(x.p0[x.list[r.privCurrIdx]])
  {
    hide Each, BeforeStart, Distinct, NothingToRestart, RestartedUpTo, NoHostAp;
    var p := x.list[r.privCurrIdx];
    var q := x.p0[p];
    var c := RestartAction(q, p, x.chosen);
    SameHost(q, x.chosen);
    if !IsHostAp(q) {
      assert c in r.pending && CanComplete(r, c) && Reenters(r.stage, c, r.privs[c.p]);
    } else {
      forall d | d in r.pending && CanComplete(r, d)
        ensures !Reenters(r.stage, d, r.privs[d.p])
      {
        if d != c {
          assert d in r.pending - multiset{c};
        }
      }
    }
  }

  lemma SameHost(q: Priv, chosen: nat)
    ensures IsHostAp(Restarting(Stopped(q), chosen)) == IsHostAp(q)
    ensures q.role.Uap? ==> Restarting(Stopped(q), chosen).host11h == q.host11h
  {
  }

  /** The ways of standing still before the end. */
  lemma MovesUnless(x: Run, r: Rdh)
    requires Inv(x, r) && r.stage != Off
    ensures Ok(x)
    ensures CanMove(r) || Stuck(x, r) || (r.stage == SetCustomIe && All(x, AddIe) == [])
            || !NoHostAp(x, |x.list|)
  {
    hide *;
    StageIs(x, r);
    if r.stage == StopIntfs || r.stage == SetNewChannel {
      MovesFromStop(x, r);
    } else if r.stage == RestartIntfs {
      if AwaitingStart(x, r) {
        MovesFromStart(x, r);
        HostListed(x, r);
      } else {
        HostListed(x, r);
      }
    } else if r.stage == SetCustomIe || r.stage == RemCustomIe {
      MovesFromIe(x, r);
    } else if !Stuck(x, r) {
      MovesEarly(x, r);
    }
  }

  lemma HostListed(x: Run, r: Rdh)
    requires Ok(x)
    ensures Halted(x, r) ==> !NoHostAp(x, |x.list|)
    ensures AwaitingStart(x, r) ==> r.privCurrIdx < |x.list|
    ensures AwaitingStart(x, r) && IsHostAp(x.p0[x.list[r.privCurrIdx]]) ==> !NoHostAp(x, |x.list|)
  {
    hide Each, BeforeStart, Distinct, NothingToRestart, RestartedUpTo, IsHostAp, IeOnly, Waiting;
  }

  lemma {:induction false} ActiveCovers(privs: seq<Priv>, i: nat, p: nat)
    requires i <= p < |privs| && IsActive(privs[p])
    ensures p in ActivePrivs(privs, i)
    decreases p - i
  {
    if i < p {
      ActiveCovers(privs, i + 1, p);
    }
  }

  /** The radar interface is active if it is an access point, and some active interface is a master. */
  ghost predicate CanStart(privs: seq<Priv>, first: nat)
    requires first < |privs|
  {
    && (privs[first].role.Uap? ==> IsActive(privs[first]))
    && exists p :: 0 <= p < |privs| && IsActive(privs[p]) && IsDfsMaster(privs[p])
  }

  /** The detection itself gives up: it speaks for an access point, through a station, and finds no other channel. */
  ghost predicate GivesUpAtOnce(privs: seq<Priv>, first: nat, info: Info)
    requires first < |privs| && |privs| < FIRST_ENTRY && ActivePrivs(privs, 0) != []
  {
    var q := FirstSta(privs, ActivePrivs(privs, 0));
    privs[first].role.Sta? && privs[q].role.Uap? && (info.pick == 0 || info.pick == privs[q].bssChannel)
  }

  /** Besides, no active access point leaves its 11h handling to the host, unless the detection gives up at once. */
  ghost predicate CanFinish(privs: seq<Priv>, first: nat, info: Info)
    requires first < |privs| && |privs| < FIRST_ENTRY && ActivePrivs(privs, 0) != []
  {
    && CanStart(privs, first)
    && ((forall p :: 0 <= p < |privs| && IsActive(privs[p]) ==> !IsHostAp(privs[p]))
        || GivesUpAtOnce(privs, first, info))
  }

  lemma FinishableMoves(privs: seq<Priv>, first: nat, r: Rdh)
    requires first < |privs| && CanStart(privs, first) && r.stage != Off
    requires forall p :: 0 <= p < |privs| && IsActive(privs[p]) ==> !IsHostAp(privs[p])
    requires Inv(RunOf(privs, first, r), r)
    ensures CanMove(r)
  {
    hide Inv, CanMove, Each, IsDfsMaster, Distinct, NothingToRestart, IsHostAp;
    var x := RunOf(privs, first, r);
    MovesUnless(x, r);
    var p :| 0 <= p < |privs| && IsActive(privs[p]) && IsDfsMaster(privs[p]);
    ActiveCovers(privs, 0, p);
    NoMasters(x, |x.list|);
    if privs[first].role.Uap? {
      ActiveCovers(privs, 0, first);
    }
    assert NoHostAp(x, |x.list|);
  }

  /** Without a master the run stands still from the start: no announcement command, hence no completion. */
  lemma StallsAtOnce(privs: seq<Priv>, first: nat, r: Rdh, info: Info)
    requires |privs| < FIRST_ENTRY && first < |privs| && NothingToRestart(privs) && ActivePrivs(privs, 0) != []
    requires !CanStart(privs, first)
    ensures var s := Detect(privs, first, r, info); s.stage != Off && s.pending == multiset{}
  {
    var list := ActivePrivs(privs, 0);
    hide NothingToRestart, ActivePrivs, TxAll;
    if privs[first].role.Uap? {
      if IsActive(privs[first]) {
        ActiveUapStarts(privs, first);
      }
      NotListed(privs, list, first);
      IndexFinds(list, first, 0);
    } else {
      ActiveList(privs, list);
      assert forall k :: 0 <= k < |list| ==> !IsDfsMaster(privs[list[k]]);
      assert forall k :: 0 <= k < |list| ==> !privs[list[k]].role.Uap?;
      AllStations(privs, list, 0);
      NoneForMasters(privs, list);
      hide IsDfsMaster, RoleFrom, ForMasters, DoRemCustomIe;
      StallsWithStations(privs, list, first, r, info);
    }
  }

  lemma ActiveUapStarts(privs: seq<Priv>, first: nat)
    requires first < |privs| && privs[first].role.Uap? && IsActive(privs[first])
    ensures CanStart(privs, first)
  {
    assert IsDfsMaster(privs[first]);
  }

  lemma NotListed(privs: seq<Priv>, list: seq<nat>, p: nat)
    requires list == ActivePrivs(privs, 0) && p < |privs| && !IsActive(privs[p])
    ensures p !in list
  {
  }

  lemma ActiveList(privs: seq<Priv>, list: seq<nat>)
    requires list == ActivePrivs(privs, 0)
    ensures forall k :: 0 <= k < |list| ==> list[k] < |privs| && IsActive(privs[list[k]])
    ensures |list| <= |privs|
  {
  }

  lemma {:induction false} AllStations(privs: seq<Priv>, list: seq<nat>, i: nat)
    requires WellFormed(privs, list) && i <= |list|
    requires forall k :: 0 <= k < |list| ==> !privs[list[k]].role.Uap?
    ensures RoleFrom(privs, list, Uap, i) == |list|
    decreases |list| - i
  {
    if i < |list| {
      AllStations(privs, list, i + 1);
    }
  }

  lemma {:induction false} NoneForMasters(privs: seq<Priv>, list: seq<nat>)
    requires WellFormed(privs, list) && forall k :: 0 <= k < |list| ==> !IsDfsMaster(privs[list[k]])
    ensures ForMasters(privs, list, true) == []
  {
    hide IsDfsMaster;
    if list != [] {
      NoneForMasters(privs, list[..|list| - 1]);
    }
  }

  lemma StallsWithStations(privs: seq<Priv>, list: seq<nat>, first: nat, r: Rdh, info: Info)
    requires |privs| < FIRST_ENTRY && first < |privs| && list == ActivePrivs(privs, 0) && list != []
    requires WellFormed(privs, list) && !privs[first].role.Uap?
    requires forall k :: 0 <= k < |list| ==> !privs[list[k]].role.Uap?
    requires RoleFrom(privs, list, Uap, 0) == |list| && ForMasters(privs, list, true) == []
    ensures var s := Detect(privs, first, r, info); s.stage == SetCustomIe && s.pending == multiset{}
  {
    hide ActivePrivs, RoleFrom, ForMasters, TxAll, DoRemCustomIe;
    var q := FirstSta(privs, list);
    assert !privs[q].role.Uap?;
    assert multiset{} + multiset(ForMasters(privs, list, true)) == multiset{};
  }

  // ---- How long a run can be ----

  predicate IsCommand(a: Action) {
    !a.TxDisable? && !a.TxEnable? && !a.MarkNop?
  }

  /** The commands in a trace. */
  function Commands(log: seq<Action>): (n: nat)
    ensures n <= |log|
  {
    if log == [] then 0 else Commands(log[..|log| - 1]) + if IsCommand(log[|log| - 1]) then 1 else 0
  }

  lemma {:induction false} CommandsConcat(a: seq<Action>, b: seq<Action>)
    ensures Commands(a + b) == Commands(a) + Commands(b)
  {
    if b == [] {
      assert a + b == a;
    } else {
      assert (a + b)[..|a + b| - 1] == a + b[..|b| - 1];
      CommandsConcat(a, b[..|b| - 1]);
    }
  }

  lemma {:induction false} CommandsNone(log: seq<Action>)
    requires forall i :: 0 <= i < |log| ==> !IsCommand(log[i])
    ensures Commands(log) == 0
  {
    if log != [] {
      CommandsNone(log[..|log| - 1]);
    }
  }

  lemma {:induction false} CommandsAll(log: seq<Action>)
    requires forall i :: 0 <= i < |log| ==> IsCommand(log[i])
    ensures Commands(log) == |log|
  {
    if log != [] {
      CommandsAll(log[..|log| - 1]);
    }
  }

  /** Commands issued and not yet completed, against all issued: what the handling itself never changes. */
  function Completed(r: Rdh): int {
    Commands(r.log) - |r.pending|
  }

  lemma IssueBalances(r: Rdh, c: Action)
    requires IsCommand(c)
    ensures Completed(Issue(r, c)) == Completed(r)
  {
    CommandsConcat(r.log, [c]);
    CommandsAll([c]);
  }

  lemma IssueAllBalances(r: Rdh, cs: seq<Action>)
    requires forall i :: 0 <= i < |cs| ==> IsCommand(cs[i])
    ensures Completed(IssueAll(r, cs)) == Completed(r)
  {
    CommandsConcat(r.log, cs);
    CommandsAll(cs);
    assert |multiset(cs)| == |cs|;
  }

  lemma LogBalances(r: Rdh, acts: seq<Action>)
    requires forall i :: 0 <= i < |acts| ==> !IsCommand(acts[i])
    ensures Completed(r.(log := r.log + acts)) == Completed(r)
  {
    CommandsConcat(r.log, acts);
    CommandsNone(acts);
  }

  lemma {:induction false} MastersAreCommands(privs: seq<Priv>, list: seq<nat>, adding: bool)
    requires WellFormed(privs, list)
    ensures forall i :: 0 <= i < |ForMasters(privs, list, adding)| ==> IsCommand(ForMasters(privs, list, adding)[i])
  {
    hide IsDfsMaster;
    if list != [] {
      MastersAreCommands(privs, list[..|list| - 1], adding);
    }
  }

  lemma RestartBalances(r: Rdh)
    requires WellFormed(r.privs, r.privList)
    ensures Completed(DoRestartIntfs(r)) == Completed(r)
  {
    hide Completed, RestartWalk, Issue, TxAll;
    var (privs, j) := RestartWalk(r.privs, r.privList, r.newChannel, Next(r.privCurrIdx));
    var s := r.(privs := privs, privCurrIdx := j);
    SameLog(r, s);
    if j < |r.privList| {
      IssueBalances(s, RestartAction(privs[r.privList[j]], r.privList[j], r.newChannel));
    } else {
      var t := Enter(s, RestartTraffic);
      SameLog(r, t);
      NoCommandInTx(r.privList, true);
      LogBalances(t, TxAll(r.privList, true));
      SameLog(t.(log := t.log + TxAll(r.privList, true)), DoRestartTraffic(t));
    }
  }

  lemma NoCommandInTx(list: seq<nat>, enable: bool)
    ensures forall i :: 0 <= i < |list| ==> !IsCommand(TxAll(list, enable)[i])
  {
  }

  lemma SameLog(r: Rdh, s: Rdh)
    requires s.log == r.log && s.pending == r.pending
    ensures Completed(s) == Completed(r)
  {
  }

  lemma SetBalances(r: Rdh)
    requires WellFormed(r.privs, r.privList)
    ensures Completed(DoSetNewChannel(r)) == Completed(r)
  {
    hide Completed, RoleFrom, Issue, DoRestartIntfs;
    var j := RoleFrom(r.privs, r.privList, Uap, Next(r.privCurrIdx));
    var s := r.(privCurrIdx := j);
    SameLog(r, s);
    if j < |r.privList| {
      IssueBalances(s, SetChannel(r.privList[j], r.newChannel));
    } else {
      SameLog(r, Enter(s, RestartIntfs));
      RestartBalances(Enter(s, RestartIntfs));
    }
  }

  lemma StopBalances(r: Rdh)
    requires WellFormed(r.privs, r.privList)
    ensures Completed(DoStopIntfs(r)) == Completed(r)
  {
    hide Completed, StopWalk, Issue, DoSetNewChannel;
    var (privs, j) := StopWalk(r.privs, r.privList, Next(r.privCurrIdx));
    var s := r.(privs := privs, privCurrIdx := j);
    SameLog(r, s);
    if j < |r.privList| {
      IssueBalances(s, StopAction(privs[r.privList[j]], r.privList[j]));
    } else {
      SameLog(r, Enter(s, SetNewChannel));
      SetBalances(Enter(s, SetNewChannel));
    }
  }

  lemma DropBalances(r: Rdh)
    requires WellFormed(r.privs, r.privList)
    ensures Completed(DoRemCustomIe(r)) == Completed(r)
  {
    hide Completed, ForMasters, IssueAll, DoStopIntfs;
    if r.privCurrIdx == FIRST_ENTRY {
      var cs := ForMasters(r.privs, r.privList, false);
      MastersAreCommands(r.privs, r.privList, false);
      IssueAllBalances(r, cs);
      SameLog(IssueAll(r, cs), DoRemCustomIe(r));
    } else {
      SameLog(r, Enter(r, StopIntfs));
      StopBalances(Enter(r, StopIntfs));
    }
  }

  lemma AddBalances(r: Rdh)
    requires WellFormed(r.privs, r.privList)
    ensures Completed(DoSetCustomIe(r)) == Completed(r)
  {
    hide Completed, ForMasters, IssueAll, DoRemCustomIe;
    if r.privCurrIdx == FIRST_ENTRY {
      var cs := ForMasters(r.privs, r.privList, true);
      MastersAreCommands(r.privs, r.privList, true);
      IssueAllBalances(r, cs);
      SameLog(IssueAll(r, cs), DoSetCustomIe(r));
    } else {
      SameLog(r, Enter(r, RemCustomIe));
      DropBalances(Enter(r, RemCustomIe));
    }
  }

  lemma DtimBalances(r: Rdh)
    requires WellFormed(r.privs, r.privList)
    ensures Completed(DoGetInfoBeaconDtim(r)) == Completed(r)
  {
    hide Completed, RoleFrom, Issue, DoSetCustomIe;
    var j := RoleFrom(r.privs, r.privList, Uap, Next(r.privCurrIdx));
    var s := r.(privCurrIdx := j);
    SameLog(r, s);
    if j < |r.privList| {
      IssueBalances(s, GetBeaconDtim(r.privList[j]));
    } else {
      SameLog(r, Enter(s, SetCustomIe));
      AddBalances(Enter(s, SetCustomIe));
    }
  }

  lemma ChooseBalances(r: Rdh, q: nat, pick: nat)
    requires WellFormed(r.privs, r.privList) && q < |r.privs|
    ensures Completed(ChooseChannel(r, q, pick)) == Completed(r)
  {
    hide Completed, DoGetInfoBeaconDtim, Issue;
    var l := r.(log := r.log + [MarkNop(r.currChannel)]);
    var s := r.(log := r.log + [MarkNop(r.currChannel)], newChannel := pick);
    LogBalances(r, [MarkNop(r.currChannel)]);
    SameLog(l, s);
    if (pick == 0 || pick == r.currChannel) && r.privs[q].role.Uap? {
      IssueBalances(s, BssStop(q));
      SameLog(Issue(s, BssStop(q)), Issue(s, BssStop(q)).(stage := Off));
    } else {
      SameLog(s, Enter(s, GetInfoBeaconDtim));
      DtimBalances(Enter(s, GetInfoBeaconDtim));
    }
  }

  lemma ChannelBalances(r: Rdh, p: nat, info: Info)
    requires WellFormed(r.privs, r.privList) && p < |r.privs| && r.privList != []
    ensures Completed(DoGetInfoChannel(r, p, info)) == Completed(r)
  {
    hide Completed, ChooseChannel, Issue, IndexFrom, FirstSta;
    if r.privCurrIdx == FIRST_ENTRY {
      if r.privs[p].role.Uap? {
        var j := IndexFrom(r.privList, p, 0);
        SameLog(r, r.(privCurrIdx := j));
        IssueBalances(r.(privCurrIdx := j), GetChannel(p));
      } else {
        var q := FirstSta(r.privs, r.privList);
        SameLog(r, r.(currChannel := r.privs[q].bssChannel));
        ChooseBalances(r.(currChannel := r.privs[q].bssChannel), q, info.pick);
      }
    } else {
      SameLog(r, r.(currChannel := info.reported));
      ChooseBalances(r.(currChannel := info.reported), p, info.pick);
      ChooseBalances(r, p, info.pick);
    }
  }

  /** One completion is one command fewer outstanding, whatever the handler then issues. */
  lemma CompleteBalances(r: Rdh, c: Action, info: Info)
    requires CanComplete(r, c) && r.stage in {GetInfoChannel, GetInfoBeaconDtim, SetCustomIe, RemCustomIe, StopIntfs,
                                              SetNewChannel, RestartIntfs, Off}
    ensures Completed(Complete(r, c, info)) == Completed(r) + 1
  {
    hide Commands, Effect, Reenters, WellFormed, DoGetInfoChannel, DoGetInfoBeaconDtim, DoSetCustomIe, DoRemCustomIe,
      DoStopIntfs, DoSetNewChannel, DoRestartIntfs;
    var s := r.(pending := r.pending - multiset{c}, privs := r.privs[c.p := Effect(r.privs[c.p], c)]);
    assert |s.pending| == |r.pending| - 1;
    assert Completed(s) == Completed(r) + 1;
    if Reenters(r.stage, c, s.privs[c.p]) && r.stage != Off {
      WellFormedKept(r, s);
      match r.stage {
        case GetInfoChannel => ChannelBalances(s, c.p, info);
        case GetInfoBeaconDtim => DtimBalances(s);
        case SetCustomIe => AddBalances(s);
        case RemCustomIe => DropBalances(s);
        case StopIntfs => StopBalances(s);
        case SetNewChannel => SetBalances(s);
        case RestartIntfs => RestartBalances(s);
      }
    }
  }

  lemma WellFormedKept(r: Rdh, s: Rdh)
    requires WellFormed(r.privs, r.privList) && |s.privs| == |r.privs| && s.privList == r.privList
    ensures WellFormed(s.privs, s.privList)
  {
  }

  lemma {:induction false} RunBalances(x: Run, r: Rdh, cs: seq<(Action, Info)>, s: Rdh)
    requires Inv(x, r) && IsRun(r, cs, s)
    ensures Completed(s) == Completed(r) + |cs|
    decreases |cs|
  {
    hide Inv, Complete, CanComplete, Completed;
    if cs != [] {
      StageIs(x, r);
      StepInv(x, r, cs[0].0, cs[0].1);
      CompleteBalances(r, cs[0].0, cs[0].1);
      var t := Complete(r, cs[0].0, cs[0].1);
      RunBalances(Now(x, t), t, cs[1..], s);
    }
  }

  lemma TraceLength(x: Run)
    requires Ok(x)
    ensures |FullTrace(x)| <= 8 * |x.list| + 2 && |BeforeDtim(x)| <= |x.list| + 2
  {
    hide Each, Distinct, NothingToRestart, TxAll;
  }

  lemma PrefixLength<T>(a: seq<T>, b: seq<T>)
    requires a <= b
    ensures |a| <= |b|
  {
  }

  /** The whole of the trace is bounded. */
  lemma LogBounded(x: Run, r: Rdh)
    requires Inv(x, r)
    ensures |r.log| <= 8 * |x.list| + 2
  {
    hide Inv, FullTrace, BeforeDtim, Chooser, WellFormed, Distinct, NothingToRestart;
    TraceIsPrefix(x, r);
    TraceLength(x);
    if r.log <= FullTrace(x) {
      PrefixLength(r.log, FullTrace(x));
    }
  }

  lemma CompletedBelow(r: Rdh)
    ensures Completed(r) <= |r.log|
  {
  }

  lemma DetectBalances(privs: seq<Priv>, first: nat, r: Rdh, info: Info)
    requires |privs| < FIRST_ENTRY && first < |privs| && ActivePrivs(privs, 0) != []
    ensures Completed(Detect(privs, first, r, info)) == 0
  {
    hide DoGetInfoChannel, TxAll, Completed;
    var list := ActivePrivs(privs, 0);
    var u := r.(stage := GetInfoChannel, privs := privs, log := [], pending := multiset{},
                privCurrIdx := FIRST_ENTRY, privList := list, currChannel := 0, newChannel := 0);
    var t := u.(log := [] + TxAll(list, false));
    NothingCompleted(u);
    NoCommandInTx(list, false);
    LogBalances(u, TxAll(list, false));
    ChannelBalances(t, first, info);
    assert Detect(privs, first, r, info) == DoGetInfoChannel(t, first, info);
  }

  lemma NothingCompleted(r: Rdh)
    requires r.log == [] && r.pending == multiset{}
    ensures Completed(r) == 0
  {
  }

  /** A run has at most 8n + 2 completions for n active interfaces; where `FinishesExactly` lets it go on, it ends. */
  lemma RunsAreBounded(privs: seq<Priv>, first: nat, r: Rdh, info: Info, cs: seq<(Action, Info)>, s: Rdh)
    requires |privs| < FIRST_ENTRY && first < |privs| && NothingToRestart(privs) && ActivePrivs(privs, 0) != []
    requires IsRun(Detect(privs, first, r, info), cs, s)
    ensures |cs| <= 8 * |ActivePrivs(privs, 0)| + 2
  {
    var t := Detect(privs, first, r, info);
    var x := RunOf(privs, first, s);
    DetectInv(privs, first, r, info);
    DetectBalances(privs, first, r, info);
    hide Inv, Detect, NothingToRestart, Commands, IsRun;
    RunInv(RunOf(privs, first, t), t, cs, s);
    RunBalances(RunOf(privs, first, t), t, cs, s);
    LogBounded(x, s);
  }

  // ---- When every run ends ----

  /** However the completions fall, the handler is over or will be called again. */
  ghost predicate NeverStandsStill(r: Rdh) {
    forall cs, s :: IsRun(r, cs, s) ==> s.stage == Off || CanMove(s)
  }

  lemma StandsStill(r: Rdh, cs: seq<(Action, Info)>, s: Rdh)
    requires IsRun(r, cs, s) && s.stage != Off && !CanMove(s)
    ensures !NeverStandsStill(r)
  {
  }

  lemma NoRunYet(r: Rdh)
    ensures IsRun(r, [], r) && (r.pending == multiset{} ==> !CanMove(r))
  {
  }

  lemma RunLonger(r: Rdh, c: Action, info: Info, cs: seq<(Action, Info)>, s: Rdh)
    requires c in r.pending && CanComplete(r, c) && IsRun(Complete(r, c, info), cs, s)
    ensures IsRun(r, [(c, info)] + cs, s)
  {
    assert ([(c, info)] + cs)[1..] == cs;
  }

  lemma {:induction false} OffStays(x: Run, r: Rdh, cs: seq<(Action, Info)>, s: Rdh)
    requires Inv(x, r) && r.stage == Off && IsRun(r, cs, s)
    ensures s.stage == Off
    decreases |cs|
  {
    hide Inv, Complete, CanComplete;
    if cs != [] {
      StepFromOff(x, r, cs[0].0, cs[0].1);
      OffStays(x, Complete(r, cs[0].0, cs[0].1), cs[1..], s);
    }
  }

  /** With another channel chosen and an access point with host 11h in the list, a run is not over. */
  lemma HostNotOver(x: Run, r: Rdh)
    requires Inv(x, r) && Ok(x) && !NoHostAp(x, |x.list|) && x.chosen != 0 && x.chosen != x.curr
    ensures r.stage != Off
  {
    hide Ok, Chooser, RestartedUpTo, FullTrace, NoHostAp, BeforeDtim, IeOnly;
    StageIs(x, r);
  }

  lemma ChosenNotOver(x: Run, r: Rdh)
    requires Inv(x, r) && Ok(x) && !NoHostAp(x, |x.list|) && ChannelChosen(x)
    ensures r.stage != Off
  {
    hide Ok, Chooser, RestartedUpTo, FullTrace, NoHostAp, BeforeDtim, IeOnly;
    StageIs(x, r);
  }

  /** One step of the way to the standstill; another channel is found on the way if one is still to be found. */
  lemma HostStep(x: Run, r: Rdh, c: Action) returns (t: Rdh)
    requires Inv(x, r) && r.stage != Off && Ok(x) && !NoHostAp(x, |x.list|) && c in r.pending
    ensures CanComplete(r, c) && t == Complete(r, c, Info(1, 2)) && Inv(Now(x, t), t) && t.stage != Off
    ensures Completed(t) == Completed(r) + 1
  {
    hide Inv, Complete, CanComplete, Commands, NoHostAp, Ok, ChannelChosen;
    StageIs(x, r);
    StepFromActive(x, r, c, Info(1, 2));
    CompleteBalances(r, c, Info(1, 2));
    t := Complete(r, c, Info(1, 2));
    var y := Now(x, t);
    SameOk(x, t.currChannel, t.newChannel);
    if r.stage == GetInfoChannel {
      HostNotOver(y, t);
    } else {
      ChosenNotOver(y, t);
    }
  }

  lemma SameOk(x: Run, curr: nat, chosen: nat)
    requires Ok(x)
    ensures var y := x.(curr := curr, chosen := chosen);
            Ok(y) && (NoHostAp(y, |y.list|) <==> NoHostAp(x, |x.list|))
  {
  }

  /** Some run stands still. */
  lemma {:induction false} FindStandstill(x: Run, r: Rdh) returns (cs: seq<(Action, Info)>, s: Rdh)
    requires Inv(x, r) && r.stage != Off && Ok(x) && !NoHostAp(x, |x.list|)
    ensures IsRun(r, cs, s) && s.stage != Off && !CanMove(s)
    decreases 8 * |x.list| + 2 - Completed(r)
  {
    hide Inv, Complete, NoHostAp, Ok, Completed, IsRun, Reenters, WellFormed;
    LogBounded(x, r);
    CompletedBelow(r);
    if CanMove(r) {
      var c :| c in r.pending && CanComplete(r, c) && Reenters(r.stage, c, r.privs[c.p]);
      var t := HostStep(x, r, c);
      SameOk(x, t.currChannel, t.newChannel);
      LogBounded(Now(x, t), t);
      CompletedBelow(t);
      cs, s := FindStandstill(Now(x, t), t);
      RunLonger(r, c, Info(1, 2), cs, s);
      cs := [(c, Info(1, 2))] + cs;
    } else {
      cs, s := [], r;
      NoRunYet(r);
    }
  }

  lemma HostInList(privs: seq<Priv>, first: nat, r: Rdh, p: nat)
    requires p < |privs| && IsActive(privs[p]) && IsHostAp(privs[p])
    requires var x := RunOf(privs, first, r); Ok(x)
    ensures var x := RunOf(privs, first, r); !NoHostAp(x, |x.list|)
  {
    hide IsHostAp, NothingToRestart, Distinct;
    ActiveCovers(privs, 0, p);
    var x := RunOf(privs, first, r);
    var k :| 0 <= k < |x.list| && x.list[k] == p;
  }

  /** After the detection the handling is over exactly if it gave up at once. */
  lemma OverAtOnce(privs: seq<Priv>, first: nat, r: Rdh, info: Info)
    requires |privs| < FIRST_ENTRY && first < |privs| && NothingToRestart(privs) && ActivePrivs(privs, 0) != []
    ensures var t := Detect(privs, first, r, info);
            && (GivesUpAtOnce(privs, first, info) ==> t.stage == Off)
            && (t.stage == Off && !GivesUpAtOnce(privs, first, info) ==>
                  var x := RunOf(privs, first, t); Ok(x) && NoHostAp(x, |x.list|))
  {
    DetectInv(privs, first, r, info);
    var t := Detect(privs, first, r, info);
    var x := RunOf(privs, first, t);
    DetectChannels(privs, first, r, info);
    hide Detect, ActivePrivs, FirstSta, RestartedUpTo, FullTrace, BeforeDtim, NoHostAp, IeOnly, Inv;
    StageIs(x, t);
  }

  /** What the detection makes of its channels. */
  lemma DetectChannels(privs: seq<Priv>, first: nat, r: Rdh, info: Info)
    requires |privs| < FIRST_ENTRY && first < |privs| && ActivePrivs(privs, 0) != []
    ensures var t := Detect(privs, first, r, info);
            var q := FirstSta(privs, ActivePrivs(privs, 0));
            && (privs[first].role.Uap? ==> t.stage == GetInfoChannel)
            && (privs[first].role.Sta? ==> t.currChannel == privs[q].bssChannel && t.newChannel == info.pick)
            && (GivesUpAtOnce(privs, first, info) ==> t.stage == Off)
  {
    var list := ActivePrivs(privs, 0);
    hide ActivePrivs, FirstSta, TxAll, DoGetInfoBeaconDtim, IndexFrom;
    var t := r.(stage := GetInfoChannel, privs := privs, log := [] + TxAll(list, false), pending := multiset{},
                privCurrIdx := FIRST_ENTRY, privList := list, currChannel := 0, newChannel := 0);
    assert Detect(privs, first, r, info) == DoGetInfoChannel(t, first, info);
    if privs[first].role.Sta? {
      var q := FirstSta(privs, list);
      var u := t.(currChannel := privs[q].bssChannel, log := t.log + [MarkNop(privs[q].bssChannel)],
                  newChannel := info.pick);
      DtimKeepsChannels(Enter(u, GetInfoBeaconDtim));
    }
  }

  /** The stages after the choice of the channel leave it alone. */
  lemma DtimKeepsChannels(r: Rdh)
    requires WellFormed(r.privs, r.privList)
    ensures var s := DoGetInfoBeaconDtim(r);
            s.currChannel == r.currChannel && s.newChannel == r.newChannel
  {
    hide RoleFrom, ForMasters, StopWalk, RestartWalk, TxAll;
  }

  /**
   * Every run from the detection can always go on until it is over, if and only if there is a master to go on with
   * and no active access point leaves its 11h handling to the host, or else the detection gives up at once.
   */
  lemma FinishesExactly(privs: seq<Priv>, first: nat, r: Rdh, info: Info)
    requires |privs| < FIRST_ENTRY && first < |privs| && NothingToRestart(privs) && ActivePrivs(privs, 0) != []
    ensures CanFinish(privs, first, info) <==> NeverStandsStill(Detect(privs, first, r, info))
  {
    hide Detect, CanStart, GivesUpAtOnce, NothingToRestart, ActivePrivs, IsHostAp, IsActive, Ok, NoHostAp, Inv,
      NeverStandsStill;
    DetectInv(privs, first, r, info);
    var t := Detect(privs, first, r, info);
    var x := RunOf(privs, first, t);
    StageIs(x, t);
    OverAtOnce(privs, first, r, info);
    if !CanStart(privs, first) {
      StallsAtOnce(privs, first, r, info);
      NoRunYet(t);
      StandsStill(t, [], t);
    } else if CanFinish(privs, first, info) {
      AlwaysMoves(privs, first, r, info);
    } else {
      var p :| 0 <= p < |privs| && IsActive(privs[p]) && IsHostAp(privs[p]);
      HostInList(privs, first, t, p);
      var cs, s := FindStandstill(x, t);
      StandsStill(t, cs, s);
    }
  }

  lemma AlwaysMoves(privs: seq<Priv>, first: nat, r: Rdh, info: Info)
    requires |privs| < FIRST_ENTRY && first < |privs| && NothingToRestart(privs) && ActivePrivs(privs, 0) != []
    requires CanFinish(privs, first, info)
    ensures NeverStandsStill(Detect(privs, first, r, info))
  {
    hide Detect, CanStart, GivesUpAtOnce, NothingToRestart, ActivePrivs, IsHostAp, IsActive, Inv, IsRun, CanMove;
    DetectInv(privs, first, r, info);
    var t := Detect(privs, first, r, info);
    OverAtOnce(privs, first, r, info);
    forall cs, s | IsRun(t, cs, s)
      ensures s.stage == Off || CanMove(s)
    {
      RunInv(RunOf(privs, first, t), t, cs, s);
      if t.stage == Off {
        OffStays(RunOf(privs, first, t), t, cs, s);
      } else if s.stage != Off {
        FinishableMoves(privs, first, s);
      }
    }
  }
}
