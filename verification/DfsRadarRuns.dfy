/**
 * The invariant of the radar handling, with every command completing successfully and in any order: at each stage
 * the trace so far, the state of every interface and what is still pending are known exactly.
 */
module DfsRadarRuns {
  import opened DfsRadar

  /** A run: the interfaces as the detection found them, the active ones, and the channels as last set. */
  datatype Run = Run(p0: seq<Priv>, list: seq<nat>, first: nat, curr: nat, chosen: nat)

  ghost predicate Distinct(list: seq<nat>) {
    forall j, k :: 0 <= j < k < |list| ==> list[j] != list[k]
  }

  /** No interface still remembers an ad-hoc network to restart. */
  ghost predicate NothingToRestart(privs: seq<Priv>) {
    forall p :: 0 <= p < |privs| ==> !privs[p].adhocPrev.AdhocStarted?
  }

  ghost predicate Ok(x: Run) {
    && WellFormed(x.p0, x.list) && Distinct(x.list) && |x.p0| < FIRST_ENTRY && x.first < |x.p0|
    && (forall k :: 0 <= k < |x.list| ==> IsActive(x.p0[x.list[k]]))
    && NothingToRestart(x.p0) && x.list != []
  }

  // ---- The reference trace ----

  datatype Kind = AskDtim | AddIe | DropIe | Stop | Set | Start

  function UapOnly(q: Priv, a: Action): (acts: seq<Action>)
    ensures |acts| <= 1
  {
    if q.role.Uap? then [a] else []
  }

  function MasterOnly(q: Priv, a: Action): (acts: seq<Action>)
    ensures |acts| <= 1
  {
    if IsDfsMaster(q) then [a] else []
  }

  /** The creator of a running ad-hoc network. */
  predicate IsCreator(q: Priv) {
    q.role.Sta? && q.ibss && q.adhoc.AdhocStarted?
  }

  /** What a stage does for interface `p`, found in state `q` by the detection. */
  function ActionsFor(k: Kind, q: Priv, p: nat, chosen: nat): (acts: seq<Action>)
    ensures |acts| <= 1
  {
    match k
    case AskDtim => UapOnly(q, GetBeaconDtim(p))
    case AddIe => MasterOnly(q, SetIe(p))
    case DropIe => MasterOnly(q, RemIe(p))
    case Stop => [StopAction(q, p)]
    case Set => UapOnly(q, SetChannel(p, chosen))
    case Start => if IsCreator(q) then [AdhocStart(p, chosen)] else UapOnly(q, BssStart(p))
  }

  /** The actions of one stage for the first `n` interfaces. */
  function Each(x: Run, k: Kind, n: nat): (acts: seq<Action>)
    requires WellFormed(x.p0, x.list) && n <= |x.list|
    ensures |acts| <= n
  {
    if n == 0 then [] else Each(x, k, n - 1) + ActionsFor(k, x.p0[x.list[n - 1]], x.list[n - 1], x.chosen)
  }

  function All(x: Run, k: Kind): seq<Action>
    requires WellFormed(x.p0, x.list)
  {
    Each(x, k, |x.list|)
  }

  /** Everything up to the choice of the channel: traffic stopped, a UAP asked for its channel. */
  function Opening(x: Run): seq<Action>
    requires x.first < |x.p0|
  {
    TxAll(x.list, false) + UapOnly(x.p0[x.first], GetChannel(x.first))
  }

  /** Everything done before the commands of each stage, and the whole trace. */
  function BeforeDtim(x: Run): seq<Action>
    requires Ok(x)
  {
    Opening(x) + [MarkNop(x.curr)]
  }

  function BeforeAdd(x: Run): seq<Action>
    requires Ok(x)
  {
    BeforeDtim(x) + All(x, AskDtim)
  }

  function BeforeDrop(x: Run): seq<Action>
    requires Ok(x)
  {
    BeforeAdd(x) + All(x, AddIe)
  }

  function BeforeStop(x: Run): seq<Action>
    requires Ok(x)
  {
    BeforeDrop(x) + All(x, DropIe)
  }

  function BeforeSet(x: Run): seq<Action>
    requires Ok(x)
  {
    BeforeStop(x) + All(x, Stop)
  }

  function BeforeStart(x: Run): seq<Action>
    requires Ok(x)
  {
    BeforeSet(x) + All(x, Set)
  }

  function BeforeEnable(x: Run): seq<Action>
    requires Ok(x)
  {
    BeforeStart(x) + All(x, Start)
  }

  function FullTrace(x: Run): seq<Action>
    requires Ok(x)
  {
    BeforeEnable(x) + TxAll(x.list, true)
  }

  // ---- What the run does to the interfaces ----

  function Stopped(q: Priv): Priv {
    Effect(Stopping(q), StopAction(q, 0))
  }

  function Restarted(q: Priv, chosen: nat): Priv {
    var s := Restarting(Stopped(q), chosen);
    if q.role.Uap? || IsCreator(q) then Effect(s, RestartAction(q, 0, chosen)) else s
  }

  /** The first `n` interfaces stopped. */
  function StoppedUpTo(x: Run, n: nat): (privs: seq<Priv>)
    requires WellFormed(x.p0, x.list) && n <= |x.list|
    ensures |privs| == |x.p0|
  {
    if n == 0 then x.p0
    else StoppedUpTo(x, n - 1)[x.list[n - 1] := Stopped(x.p0[x.list[n - 1]])]
  }

  /** All interfaces stopped and the first `n` restarted. */
  function RestartedUpTo(x: Run, n: nat): (privs: seq<Priv>)
    requires WellFormed(x.p0, x.list) && n <= |x.list|
    ensures |privs| == |x.p0|
  {
    if n == 0 then StoppedUpTo(x, |x.list|)
    else RestartedUpTo(x, n - 1)[x.list[n - 1] := Restarted(x.p0[x.list[n - 1]], x.chosen)]
  }

  lemma {:induction false} StoppedAt(x: Run, n: nat, k: nat)
    requires WellFormed(x.p0, x.list) && Distinct(x.list) && n <= |x.list| && k < |x.list|
    ensures StoppedUpTo(x, n)[x.list[k]] == if k < n then Stopped(x.p0[x.list[k]]) else x.p0[x.list[k]]
  {
    hide Stopped;
    if n > 0 {
      StoppedAt(x, n - 1, k);
    }
  }

  lemma {:induction false} RestartedAt(x: Run, n: nat, k: nat)
    requires WellFormed(x.p0, x.list) && Distinct(x.list) && n <= |x.list| && k < |x.list|
    ensures RestartedUpTo(x, n)[x.list[k]]
         == if k < n then Restarted(x.p0[x.list[k]], x.chosen) else Stopped(x.p0[x.list[k]])
  {
    hide Stopped, Restarted, StoppedUpTo;
    if n > 0 {
      RestartedAt(x, n - 1, k);
    } else {
      StoppedAt(x, |x.list|, k);
    }
  }

  // ---- The invariant ----

  /** Completions left over from the beacon stages, which no later stage reacts to. */
  ghost predicate IeOnly(x: Run, cs: multiset<Action>) {
    forall c :: c in cs ==> (c.SetIe? || c.RemIe?) && c.p < |x.p0|
  }

  ghost predicate Waiting(x: Run, pending: multiset<Action>, c: Action) {
    c in pending && IeOnly(x, pending - multiset{c})
  }

  ghost predicate Same(x: Run, r: Rdh) {
    r.privList == x.list && r.currChannel == x.curr && r.newChannel == x.chosen && |r.privs| == |x.p0|
  }

  /** The interface the new channel is chosen for. */
  function Chooser(x: Run): (q: nat)
    requires WellFormed(x.p0, x.list) && x.list != [] && x.first < |x.p0|
    ensures q < |x.p0|
  {
    if x.p0[x.first].role.Uap? then x.first else FirstSta(x.p0, x.list)
  }

  /** An access point does not go on without another channel. */
  ghost predicate ChannelChosen(x: Run)
    requires Ok(x)
  {
    x.p0[Chooser(x)].role.Uap? ==> x.chosen != 0 && x.chosen != x.curr
  }

  ghost predicate AwaitingChannel(x: Run, r: Rdh)
    requires Ok(x)
  {
    && r.stage.GetInfoChannel? && r.privCurrIdx < |x.list| && x.list[r.privCurrIdx] == x.first
    && x.p0[x.first].role.Uap? && r.privs == x.p0 && r.log == Opening(x) && r.pending == multiset{GetChannel(x.first)}
  }

  ghost predicate Stuck(x: Run, r: Rdh)
    requires Ok(x)
  {
    && r.stage.GetInfoChannel? && x.first !in x.list && x.p0[x.first].role.Uap?
    && r.privs == x.p0 && r.log == TxAll(x.list, false) && r.pending == multiset{}
  }

  ghost predicate AwaitingDtim(x: Run, r: Rdh)
    requires Ok(x)
  {
    var i := r.privCurrIdx;
    && r.stage.GetInfoBeaconDtim? && i < |x.list| && x.p0[x.list[i]].role.Uap?
    && r.privs == x.p0 && r.log == BeforeDtim(x) + Each(x, AskDtim, i + 1)
    && r.pending == multiset{GetBeaconDtim(x.list[i])}
  }

  ghost predicate AwaitingIe(x: Run, r: Rdh)
    requires Ok(x)
  {
    && r.privCurrIdx == |x.list| && r.privs == x.p0 && IeOnly(x, r.pending)
    && (if r.stage.SetCustomIe? then r.log == BeforeDrop(x) && r.pending == multiset(All(x, AddIe))
        else r.stage.RemCustomIe? && r.log == BeforeStop(x) && |r.pending| > 0)
  }

  ghost predicate AwaitingStop(x: Run, r: Rdh)
    requires Ok(x)
  {
    var i := r.privCurrIdx;
    && r.stage.StopIntfs? && i < |x.list|
    && r.privs == StoppedUpTo(x, i)[x.list[i] := Stopping(x.p0[x.list[i]])]
    && r.log == BeforeStop(x) + Each(x, Stop, i + 1)
    && Waiting(x, r.pending, StopAction(x.p0[x.list[i]], x.list[i]))
  }

  ghost predicate AwaitingSet(x: Run, r: Rdh)
    requires Ok(x)
  {
    var i := r.privCurrIdx;
    && r.stage.SetNewChannel? && i < |x.list| && x.p0[x.list[i]].role.Uap?
    && r.privs == StoppedUpTo(x, |x.list|)
    && r.log == BeforeSet(x) + Each(x, Set, i + 1)
    && Waiting(x, r.pending, SetChannel(x.list[i], x.chosen))
  }

  /** An access point whose 11h handling is left to the host: its start does not call the handler again. */
  predicate IsHostAp(q: Priv) {
    q.role.Uap? && q.host11h
  }

  /** None of the first `n` interfaces is one. */
  ghost predicate NoHostAp(x: Run, n: nat)
    requires WellFormed(x.p0, x.list) && n <= |x.list|
  {
    forall k :: 0 <= k < n ==> !IsHostAp(x.p0[x.list[k]])
  }

  ghost predicate AwaitingStart(x: Run, r: Rdh)
    requires Ok(x)
  {
    var i := r.privCurrIdx;
    && r.stage.RestartIntfs? && i < |x.list| && NoHostAp(x, i)
    && (x.p0[x.list[i]].role.Uap? || IsCreator(x.p0[x.list[i]]))
    && r.privs == RestartedUpTo(x, i)[x.list[i] := Restarting(Stopped(x.p0[x.list[i]]), x.chosen)]
    && r.log == BeforeStart(x) + Each(x, Start, i + 1)
    && Waiting(x, r.pending, RestartAction(x.p0[x.list[i]], x.list[i], x.chosen))
  }

  /** An access point with host 11h has been started, and nothing will call the handler again. */
  ghost predicate Halted(x: Run, r: Rdh)
    requires Ok(x)
  {
    var i := r.privCurrIdx;
    && r.stage.RestartIntfs? && i < |x.list| && NoHostAp(x, i) && IsHostAp(x.p0[x.list[i]])
    && r.privs == RestartedUpTo(x, i + 1) && r.log == BeforeStart(x) + Each(x, Start, i + 1) && IeOnly(x, r.pending)
  }

  /** The end of a run that set its channel. */
  ghost predicate Finished(x: Run, r: Rdh)
    requires Ok(x)
  {
    && r.stage.Off? && r.privs == RestartedUpTo(x, |x.list|) && r.log == FullTrace(x) && IeOnly(x, r.pending)
    && NoHostAp(x, |x.list|)
  }

  /** The end of a run for which no other channel was found: the access point is stopped. */
  ghost predicate GaveUp(x: Run, r: Rdh)
    requires Ok(x)
  {
    var q := Chooser(x);
    && r.stage.Off? && x.p0[q].role.Uap? && (x.chosen == 0 || x.chosen == x.curr)
    && r.log == BeforeDtim(x) + [BssStop(q)]
    && (if r.pending == multiset{} then r.privs == x.p0[q := Stopped(x.p0[q])]
        else r.pending == multiset{BssStop(q)} && r.privs == x.p0)
  }

  ghost predicate Inv(x: Run, r: Rdh) {
    && Ok(x) && Same(x, r)
    && (AwaitingChannel(x, r) || Stuck(x, r) || GaveUp(x, r)
        || (ChannelChosen(x) && (AwaitingDtim(x, r) || AwaitingIe(x, r) || AwaitingStop(x, r) || AwaitingSet(x, r)
                                 || AwaitingStart(x, r) || Halted(x, r) || Finished(x, r))))
  }

  // ---- Each stage, entered at interface `i`, leaves the invariant ----

  ghost predicate At(x: Run, r: Rdh, i: nat) {
    Ok(x) && Same(x, r) && Next(r.privCurrIdx) == i <= |x.list| && ChannelChosen(x)
  }

  lemma RestartTrafficInv(x: Run, r: Rdh)
    requires Ok(x) && Same(x, r) && ChannelChosen(x) && IeOnly(x, r.pending) && NoHostAp(x, |x.list|)
    requires r.privs == RestartedUpTo(x, |x.list|) && r.log == BeforeEnable(x)
    ensures Inv(x, DoRestartTraffic(r))
  {
    hide TxAll, BeforeEnable, RestartedUpTo, IeOnly, NoHostAp;
    var s := DoRestartTraffic(r);
    assert Finished(x, s);
  }

  /** Walking on over interfaces that are not restarted. */
  lemma {:induction false} RestartWalks(x: Run, i: nat)
    requires Ok(x) && i <= |x.list|
    ensures var (privs, j) := RestartWalk(RestartedUpTo(x, i), x.list, x.chosen, i);
            && i <= j <= |x.list| && |privs| == |x.p0| && Each(x, Start, j) == Each(x, Start, i)
            && (forall k :: i <= k < j ==> !x.p0[x.list[k]].role.Uap?)
            && (j == |x.list| ==> privs == RestartedUpTo(x, j))
            && (j < |x.list| ==>
                  var q := x.p0[x.list[j]];
                  && privs == RestartedUpTo(x, j)[x.list[j] := Restarting(Stopped(q), x.chosen)]
                  && (q.role.Uap? || IsCreator(q))
                  && ActionsFor(Start, q, x.list[j], x.chosen) == [RestartAction(privs[x.list[j]], x.list[j], x.chosen)]
                  && privs[x.list[j]].role == q.role)
    decreases |x.list| - i
  {
    hide RestartedUpTo, Distinct, IsActive, Restarting, Stopped;
    if i < |x.list| {
      var p := x.list[i];
      var q := x.p0[p];
      RestartedAt(x, i, i);
      assert IsActive(q) && !q.adhocPrev.AdhocStarted?;
      var s := Restarting(Stopped(q), x.chosen);
      RestartCases(q, x.chosen);
      if !IsDfsMaster(s) {
        RestartedNext(x, i);
        RestartWalks(x, i + 1);
      }
    }
  }

  lemma RestartedNext(x: Run, i: nat)
    requires WellFormed(x.p0, x.list) && i < |x.list|
    ensures RestartedUpTo(x, i + 1) == RestartedUpTo(x, i)[x.list[i] := Restarted(x.p0[x.list[i]], x.chosen)]
    ensures forall k :: Each(x, k, i + 1) == Each(x, k, i) + ActionsFor(k, x.p0[x.list[i]], x.list[i], x.chosen)
  {
  }

  lemma StoppedNext(x: Run, i: nat)
    requires WellFormed(x.p0, x.list) && i < |x.list|
    ensures StoppedUpTo(x, i + 1) == StoppedUpTo(x, i)[x.list[i] := Stopped(x.p0[x.list[i]])]
    ensures forall k :: Each(x, k, i + 1) == Each(x, k, i) + ActionsFor(k, x.p0[x.list[i]], x.list[i], x.chosen)
  {
  }

  /** Which interfaces are masters again after the stop: access points and creators. */
  lemma RestartCases(q: Priv, chosen: nat)
    requires IsActive(q) && !q.adhocPrev.AdhocStarted?
    ensures var s := Restarting(Stopped(q), chosen);
            && (IsDfsMaster(s) <==> q.role.Uap? || IsCreator(q)) && s.role == q.role
            && (!IsDfsMaster(s) ==> Restarted(q, chosen) == s)
            && (q.role.Uap? ==> Restarted(q, chosen) == q)
            && (IsCreator(q) ==> Restarted(q, chosen) == s.(connected := true, adhoc := AdhocStarted))
            && !Restarted(q, chosen).adhocPrev.AdhocStarted?
  {
  }

  lemma RestartIntfsInv(x: Run, r: Rdh, i: nat)
    requires At(x, r, i) && r.stage.RestartIntfs? && IeOnly(x, r.pending) && NoHostAp(x, i)
    requires r.privs == RestartedUpTo(x, i) && r.log == BeforeStart(x) + Each(x, Start, i)
    ensures Inv(x, DoRestartIntfs(r))
  {
    hide RestartedUpTo, Each, Opening, TxAll, IeOnly, Chooser, RestartWalk, Restarting, Stopped, IsCreator, BeforeStart,
      DoRestartTraffic, ActionsFor, Distinct, RestartAction, Finished, NoHostAp;
    RestartWalks(x, i);
    HostApsPassed(x, i, RestartWalk(r.privs, r.privList, r.newChannel, i).1);
    var (privs, j) := RestartWalk(r.privs, r.privList, r.newChannel, i);
    var s := r.(privs := privs, privCurrIdx := j);
    if j < |x.list| {
      var p := x.list[j];
      var c := RestartAction(privs[p], p, x.chosen);
      RestartedNext(x, j);
      SameRestart(privs[p], x.p0[p], p, x.chosen);
      NowWaiting(x, r.pending, c);
      assert (BeforeStart(x) + Each(x, Start, i)) + [c] == BeforeStart(x) + (Each(x, Start, i) + [c]);
      assert DoRestartIntfs(r) == Issue(s, c);
      assert AwaitingStart(x, Issue(s, c));
    } else {
      RestartTrafficInv(x, Enter(s, RestartTraffic));
    }
  }

  /** Walking over interfaces that are no access points passes none with host 11h. */
  lemma HostApsPassed(x: Run, i: nat, j: nat)
    requires WellFormed(x.p0, x.list) && i <= j <= |x.list| && NoHostAp(x, i)
    requires forall k :: i <= k < j ==> !x.p0[x.list[k]].role.Uap?
    ensures NoHostAp(x, j)
  {
  }

  lemma SameRestart(a: Priv, b: Priv, p: nat, chosen: nat)
    requires a.role == b.role
    ensures RestartAction(a, p, chosen) == RestartAction(b, p, chosen)
  {
  }

  lemma NowWaiting(x: Run, pending: multiset<Action>, c: Action)
    requires IeOnly(x, pending)
    ensures Waiting(x, pending + multiset{c}, c)
  {
    assert pending + multiset{c} - multiset{c} == pending;
  }

  /** Walking on over interfaces in the wrong role. */
  lemma {:induction false} RoleWalks(x: Run, privs: seq<Priv>, k: Kind, i: nat)
    requires WellFormed(x.p0, x.list) && i <= |x.list| && |privs| == |x.p0| && (k.AskDtim? || k.Set?)
    requires forall n :: 0 <= n < |x.list| ==> privs[x.list[n]].role == x.p0[x.list[n]].role
    ensures var j := RoleFrom(privs, x.list, Uap, i);
            && i <= j <= |x.list| && Each(x, k, j) == Each(x, k, i)
            && (j < |x.list| ==>
                  && x.p0[x.list[j]].role.Uap?
                  && Each(x, k, j + 1) == Each(x, k, j) + ActionsFor(k, x.p0[x.list[j]], x.list[j], x.chosen))
    decreases |x.list| - i
  {
    hide Each, RestartedUpTo;
    if i < |x.list| {
      RestartedNext(x, i);
      if !privs[x.list[i]].role.Uap? {
        RoleWalks(x, privs, k, i + 1);
        assert Each(x, k, i + 1) == Each(x, k, i) + [];
      }
    }
  }

  lemma StoppedRoles(x: Run)
    requires Ok(x)
    ensures forall n :: 0 <= n < |x.list| ==> StoppedUpTo(x, |x.list|)[x.list[n]].role == x.p0[x.list[n]].role
  {
    forall n | 0 <= n < |x.list|
      ensures StoppedUpTo(x, |x.list|)[x.list[n]].role == x.p0[x.list[n]].role
    {
      StoppedAt(x, |x.list|, n);
    }
  }

  lemma SetNewChannelInv(x: Run, r: Rdh, i: nat)
    requires At(x, r, i) && r.stage.SetNewChannel? && IeOnly(x, r.pending)
    requires r.privs == StoppedUpTo(x, |x.list|) && r.log == BeforeSet(x) + Each(x, Set, i)
    ensures Inv(x, DoSetNewChannel(r))
  {
    hide RestartedUpTo, StoppedUpTo, Each, Opening, TxAll, IeOnly, Chooser, RoleFrom, BeforeSet, DoRestartIntfs,
      Distinct, Finished;
    StoppedRoles(x);
    RoleWalks(x, r.privs, Set, i);
    var j := RoleFrom(r.privs, r.privList, Uap, i);
    var s := r.(privCurrIdx := j);
    if j < |x.list| {
      var c := SetChannel(x.list[j], x.chosen);
      NowWaiting(x, r.pending, c);
      assert (BeforeSet(x) + Each(x, Set, i)) + [c] == BeforeSet(x) + (Each(x, Set, i) + [c]);
      assert AwaitingSet(x, Issue(s, c));
    } else {
      NoneDone(x, Start);
      assert BeforeStart(x) + [] == BeforeStart(x);
      RestartIntfsInv(x, Enter(s, RestartIntfs), 0);
    }
  }

  lemma NoneDone(x: Run, k: Kind)
    requires Ok(x)
    ensures Each(x, k, 0) == [] && StoppedUpTo(x, 0) == x.p0 && RestartedUpTo(x, 0) == StoppedUpTo(x, |x.list|)
  {
  }

  lemma StopIntfsInv(x: Run, r: Rdh, i: nat)
    requires At(x, r, i) && r.stage.StopIntfs? && IeOnly(x, r.pending)
    requires r.privs == StoppedUpTo(x, i) && r.log == BeforeStop(x) + Each(x, Stop, i)
    ensures Inv(x, DoStopIntfs(r))
  {
    hide RestartedUpTo, StoppedUpTo, Each, Opening, TxAll, IeOnly, Chooser, Stopping, BeforeStop, DoSetNewChannel,
      Distinct, Finished, StopAction;
    if i < |x.list| {
      var p := x.list[i];
      var q := x.p0[p];
      StoppedAt(x, i, i);
      StoppedNext(x, i);
      StopCases(q, p);
      var c := StopAction(q, p);
      NowWaiting(x, r.pending, c);
      var s := r.(privs := r.privs[p := Stopping(q)], privCurrIdx := i);
      assert StopWalk(r.privs, r.privList, i) == (s.privs, i);
      assert (BeforeStop(x) + Each(x, Stop, i)) + [c] == BeforeStop(x) + (Each(x, Stop, i) + [c]);
      assert AwaitingStop(x, Issue(s, c));
    } else {
      NoneDone(x, Set);
      assert BeforeSet(x) + [] == BeforeSet(x);
      SetNewChannelInv(x, Enter(r, SetNewChannel), 0);
    }
  }

  lemma StopCases(q: Priv, p: nat)
    requires IsActive(q)
    ensures NeedsStop(q) && StopAction(Stopping(q), p) == StopAction(q, p)
    ensures Effect(Stopping(q), StopAction(q, p)) == Stopped(q)
    ensures ActionsFor(Stop, q, p, 0) == [StopAction(q, p)]
  {
  }

  lemma {:induction false} ForMastersIsEach(x: Run, n: nat, adding: bool)
    requires WellFormed(x.p0, x.list) && n <= |x.list|
    ensures ForMasters(x.p0, x.list[..n], adding) == Each(x, if adding then AddIe else DropIe, n)
  {
    if n > 0 {
      assert x.list[..n][..n - 1] == x.list[..n - 1];
      ForMastersIsEach(x, n - 1, adding);
    }
  }

  lemma AllMasters(x: Run, adding: bool)
    requires WellFormed(x.p0, x.list)
    ensures ForMasters(x.p0, x.list, adding) == All(x, if adding then AddIe else DropIe)
  {
    assert x.list[..|x.list|] == x.list;
    ForMastersIsEach(x, |x.list|, adding);
  }

  ghost predicate IeSeq(x: Run, cs: seq<Action>) {
    forall k :: 0 <= k < |cs| ==> (cs[k].SetIe? || cs[k].RemIe?) && cs[k].p < |x.p0|
  }

  lemma IeSeqOnly(x: Run, pending: multiset<Action>, cs: seq<Action>)
    requires IeOnly(x, pending) && IeSeq(x, cs)
    ensures IeOnly(x, pending + multiset(cs)) && IeOnly(x, multiset(cs))
    ensures |pending + multiset(cs)| == |pending| + |cs|
  {
    forall c | c in multiset(cs)
      ensures (c.SetIe? || c.RemIe?) && c.p < |x.p0|
    {
      assert c in cs;
    }
  }

  /** As many announcements are dropped as were added, one for each master. */
  lemma {:induction false} IeCounts(x: Run, n: nat)
    requires WellFormed(x.p0, x.list) && n <= |x.list|
    ensures |Each(x, AddIe, n)| == |Each(x, DropIe, n)|
    ensures IeSeq(x, Each(x, AddIe, n)) && IeSeq(x, Each(x, DropIe, n))
  {
    if n > 0 {
      IeCounts(x, n - 1);
    }
  }

  lemma RemCustomIeInv(x: Run, r: Rdh)
    requires Ok(x) && Same(x, r) && ChannelChosen(x) && r.stage.RemCustomIe? && IeOnly(x, r.pending)
    requires r.privCurrIdx == FIRST_ENTRY && r.privs == x.p0 && r.log == BeforeDrop(x) && |All(x, AddIe)| > 0
    ensures Inv(x, DoRemCustomIe(r))
  {
    hide ForMasters, Each, BeforeDrop, Chooser, Distinct, DoStopIntfs;
    AllMasters(x, false);
    IeCounts(x, |x.list|);
    IeSeqOnly(x, r.pending, All(x, DropIe));
    assert AwaitingIe(x, DoRemCustomIe(r));
  }

  lemma SetCustomIeInv(x: Run, r: Rdh)
    requires Ok(x) && Same(x, r) && ChannelChosen(x) && r.stage.SetCustomIe? && r.pending == multiset{}
    requires r.privCurrIdx == FIRST_ENTRY && r.privs == x.p0 && r.log == BeforeAdd(x)
    ensures Inv(x, DoSetCustomIe(r)) && AwaitingIe(x, DoSetCustomIe(r))
  {
    hide ForMasters, Each, BeforeAdd, Chooser, Distinct, DoRemCustomIe;
    AllMasters(x, true);
    IeCounts(x, |x.list|);
    IeSeqOnly(x, r.pending, All(x, AddIe));
    assert multiset{} + multiset(All(x, AddIe)) == multiset(All(x, AddIe));
    assert AwaitingIe(x, DoSetCustomIe(r));
  }

  lemma DtimInv(x: Run, r: Rdh, i: nat)
    requires At(x, r, i) && r.stage.GetInfoBeaconDtim? && r.pending == multiset{}
    requires r.privs == x.p0 && r.log == BeforeDtim(x) + Each(x, AskDtim, i)
    ensures Inv(x, DoGetInfoBeaconDtim(r))
  {
    hide RestartedUpTo, StoppedUpTo, Each, Opening, TxAll, IeOnly, Chooser, RoleFrom, BeforeDtim, DoSetCustomIe,
      Distinct, Finished;
    RoleWalks(x, r.privs, AskDtim, i);
    var j := RoleFrom(r.privs, r.privList, Uap, i);
    var s := r.(privCurrIdx := j);
    if j < |x.list| {
      var c := GetBeaconDtim(x.list[j]);
      assert (BeforeDtim(x) + Each(x, AskDtim, i)) + [c] == BeforeDtim(x) + (Each(x, AskDtim, i) + [c]);
      assert multiset{} + multiset{c} == multiset{c};
      assert AwaitingDtim(x, Issue(s, c));
    } else {
      SetCustomIeInv(x, Enter(s, SetCustomIe));
    }
  }

  lemma ChooseInv(x: Run, r: Rdh, q: nat, pick: nat)
    requires Ok(x) && r.privList == x.list && r.privs == x.p0 && r.log == Opening(x) && r.pending == multiset{}
    requires x.curr == r.currChannel && x.chosen == pick && q == Chooser(x)
    ensures Inv(x, ChooseChannel(r, q, pick))
    ensures Same(x, ChooseChannel(r, q, pick))
  {
    hide Opening, Chooser, Each, DoGetInfoBeaconDtim, Distinct;
    var s := r.(log := r.log + [MarkNop(r.currChannel)], newChannel := pick);
    if (pick == 0 || pick == r.currChannel) && r.privs[q].role.Uap? {
      assert GaveUp(x, Issue(s, BssStop(q)).(stage := Off));
    } else {
      NoneDone(x, AskDtim);
      assert BeforeDtim(x) + [] == BeforeDtim(x);
      DtimInv(x, Enter(s, GetInfoBeaconDtim), 0);
    }
  }

  /** The run as its state now shows it. */
  function Now(x: Run, r: Rdh): Run {
    x.(curr := r.currChannel, chosen := r.newChannel)
  }

  lemma {:induction false} IndexFinds(list: seq<nat>, p: nat, i: nat)
    requires i <= |list| && p !in list[..i]
    ensures var j := IndexFrom(list, p, i);
            j <= |list| && (j < |list| ==> list[j] == p) && (j == |list| ==> p !in list)
    decreases |list| - i
  {
    if i < |list| && list[i] != p {
      assert list[..i + 1] == list[..i] + [list[i]];
      IndexFinds(list, p, i + 1);
    } else {
      assert i == |list| ==> list[..i] == list;
    }
  }

  lemma GetInfoChannelInv(x: Run, r: Rdh, info: Info)
    requires Ok(x) && Same(x, r) && r.stage.GetInfoChannel? && r.privCurrIdx == FIRST_ENTRY
    requires r.privs == x.p0 && r.log == TxAll(x.list, false) && r.pending == multiset{}
    ensures var s := DoGetInfoChannel(r, x.first, info); Inv(Now(x, s), s)
  {
    hide TxAll, FirstSta, ChooseChannel, Distinct;
    var s := DoGetInfoChannel(r, x.first, info);
    if x.p0[x.first].role.Uap? {
      IndexFinds(x.list, x.first, 0);
      assert multiset{} + multiset{GetChannel(x.first)} == multiset{GetChannel(x.first)};
      assert Now(x, s) == x;
      assert AwaitingChannel(x, s) || Stuck(x, s);
    } else {
      var q := FirstSta(r.privs, r.privList);
      var y := x.(curr := r.privs[q].bssChannel, chosen := info.pick);
      assert Opening(y) == TxAll(x.list, false) + [] == TxAll(x.list, false);
      ChooseInv(y, r.(currChannel := r.privs[q].bssChannel), q, info.pick);
    }
  }

  // ---- Every completion keeps the invariant ----

  lemma StepFromChannel(x: Run, r: Rdh, c: Action, info: Info)
    requires Ok(x) && Same(x, r) && AwaitingChannel(x, r) && c in r.pending
    ensures CanComplete(r, c)
    ensures var s := Complete(r, c, info);
            Inv(Now(x, s), s) && s.currChannel == info.reported && s.newChannel == info.pick
  {
    hide ChooseChannel, Opening, Ok, Chooser, Complete, CanComplete, Inv;
    ChannelReported(x, r, c, info);
    SameOpening(x, info.reported, info.pick);
    var y := x.(curr := info.reported, chosen := info.pick);
    ChooseInv(y, r.(pending := multiset{}, currChannel := info.reported), x.first, info.pick);
  }

  lemma ChannelReported(x: Run, r: Rdh, c: Action, info: Info)
    requires Ok(x) && Same(x, r) && AwaitingChannel(x, r) && c in r.pending
    ensures CanComplete(r, c) && WellFormed(x.p0, x.list) && x.first < |r.privs|
    ensures Complete(r, c, info)
         == ChooseChannel(r.(pending := multiset{}, currChannel := info.reported), x.first, info.pick)
  {
    hide ChooseChannel, Opening, Distinct, NothingToRestart, IsActive;
    assert c == GetChannel(x.first);
    assert r.pending - multiset{c} == multiset{};
    assert r.privs[c.p := Effect(r.privs[c.p], c)] == r.privs;
  }

  /** The opening and the chooser do not depend on the channels. */
  lemma SameOpening(x: Run, curr: nat, chosen: nat)
    requires Ok(x)
    ensures var y := x.(curr := curr, chosen := chosen);
            Ok(y) && Opening(y) == Opening(x) && Chooser(y) == Chooser(x)
            && (x.p0[x.first].role.Uap? ==> Chooser(y) == x.first)
  {
    hide Distinct, NothingToRestart, IsActive, TxAll, FirstSta;
  }

  lemma StepFromDtim(x: Run, r: Rdh, c: Action, info: Info)
    requires Ok(x) && Same(x, r) && ChannelChosen(x) && AwaitingDtim(x, r) && c in r.pending
    ensures CanComplete(r, c) && Inv(x, Complete(r, c, info))
  {
    hide DoGetInfoBeaconDtim, Chooser, Each, BeforeDtim, Distinct, Inv, ChannelChosen, NothingToRestart, IsActive;
    assert c == GetBeaconDtim(x.list[r.privCurrIdx]);
    assert r.pending - multiset{c} == multiset{};
    assert r.privs[c.p := Effect(r.privs[c.p], c)] == r.privs;
    DtimInv(x, r.(pending := multiset{}), r.privCurrIdx + 1);
  }

  /** The completion of an announcement command, by interface `c.p`, changes no interface. */
  lemma IeCompletes(x: Run, r: Rdh, c: Action)
    requires Ok(x) && Same(x, r) && AwaitingIe(x, r) && c in r.pending
    ensures CanComplete(r, c) && Reenters(r.stage, c, r.privs[c.p]) && IeOnly(x, r.pending - multiset{c})
    ensures r.privs[c.p := Effect(r.privs[c.p], c)] == r.privs
    ensures r.stage.SetCustomIe? ==> |All(x, AddIe)| > 0
  {
    hide Each, BeforeDrop, BeforeStop, Distinct;
    assert r.stage.SetCustomIe? ==> |multiset(All(x, AddIe))| == |All(x, AddIe)|;
  }

  lemma StepFromIe(x: Run, r: Rdh, c: Action, info: Info)
    requires Ok(x) && Same(x, r) && ChannelChosen(x) && AwaitingIe(x, r) && c in r.pending
    ensures CanComplete(r, c) && Inv(x, Complete(r, c, info))
  {
    hide *;
    IeCompletes(x, r, c);
    var s := r.(pending := r.pending - multiset{c});
    if r.stage.SetCustomIe? {
      StepFromAdd(x, r, c, info, s);
    } else {
      StepFromDrop(x, r, c, info, s);
    }
  }

  lemma StepFromAdd(x: Run, r: Rdh, c: Action, info: Info, s: Rdh)
    requires Ok(x) && Same(x, r) && ChannelChosen(x) && AwaitingIe(x, r) && CanComplete(r, c)
    requires r.stage.SetCustomIe? && s == r.(pending := r.pending - multiset{c}) && IeOnly(x, s.pending)
    requires r.privs[c.p := Effect(r.privs[c.p], c)] == r.privs && |All(x, AddIe)| > 0
    requires Reenters(r.stage, c, r.privs[c.p])
    ensures Inv(x, Complete(r, c, info))
  {
    hide DoRemCustomIe, Chooser, Each, BeforeDrop, BeforeStop, Distinct, IeOnly, Inv, Effect, Reenters,
      ChannelChosen, All;
    assert Complete(r, c, info) == DoRemCustomIe(Enter(s, RemCustomIe));
    RemCustomIeInv(x, Enter(s, RemCustomIe));
  }

  lemma StepFromDrop(x: Run, r: Rdh, c: Action, info: Info, s: Rdh)
    requires Ok(x) && Same(x, r) && ChannelChosen(x) && AwaitingIe(x, r) && CanComplete(r, c)
    requires !r.stage.SetCustomIe? && s == r.(pending := r.pending - multiset{c}) && IeOnly(x, s.pending)
    requires r.privs[c.p := Effect(r.privs[c.p], c)] == r.privs && Reenters(r.stage, c, r.privs[c.p])
    ensures Inv(x, Complete(r, c, info))
  {
    hide DoStopIntfs, Chooser, Each, BeforeDrop, BeforeStop, Distinct, IeOnly, Inv, Effect, Reenters,
      ChannelChosen, All;
    assert Complete(r, c, info) == DoStopIntfs(Enter(s, StopIntfs));
    NoneDone(x, Stop);
    assert BeforeStop(x) + [] == BeforeStop(x);
    StopIntfsInv(x, Enter(s, StopIntfs), 0);
  }

  /** A leftover announcement completes: nothing happens. */
  lemma Leftover(x: Run, r: Rdh, c: Action, info: Info)
    requires Ok(x) && Same(x, r) && c in r.pending && (c.SetIe? || c.RemIe?) && c.p < |x.p0|
    requires r.stage.StopIntfs? || r.stage.SetNewChannel? || r.stage.RestartIntfs? || r.stage.Off?
    ensures CanComplete(r, c) && Complete(r, c, info) == r.(pending := r.pending - multiset{c})
  {
    assert r.privs[c.p := Effect(r.privs[c.p], c)] == r.privs;
  }

  lemma StillWaiting(x: Run, pending: multiset<Action>, awaited: Action, c: Action)
    requires Waiting(x, pending, awaited) && c in pending && c != awaited
    ensures (c.SetIe? || c.RemIe?) && c.p < |x.p0| && Waiting(x, pending - multiset{c}, awaited)
  {
    assert c in pending - multiset{awaited};
    assert forall d :: d in pending - multiset{c} - multiset{awaited} ==> d in pending - multiset{awaited};
  }

  lemma StepFromStop(x: Run, r: Rdh, c: Action, info: Info)
    requires Ok(x) && Same(x, r) && ChannelChosen(x) && AwaitingStop(x, r) && c in r.pending
    ensures CanComplete(r, c) && Inv(x, Complete(r, c, info))
  {
    hide DoStopIntfs, Chooser, Each, BeforeStop, Distinct, IeOnly, Inv, StoppedUpTo, StopAction, Stopping,
      Effect, Waiting;
    var i := r.privCurrIdx;
    var p := x.list[i];
    var awaited := StopAction(x.p0[p], p);
    if c == awaited {
      StopCases(x.p0[p], p);
      StopReenters(x.p0[p], p);
      StoppedNext(x, i);
      var s := r.(pending := r.pending - multiset{c}, privs := StoppedUpTo(x, i + 1));
      assert r.privs[p := Stopped(x.p0[p])] == s.privs;
      WaitingOver(x, r.pending, c);
      assert Complete(r, c, info) == DoStopIntfs(s);
      StopIntfsInv(x, s, i + 1);
    } else {
      StillWaiting(x, r.pending, awaited, c);
      Leftover(x, r, c, info);
      StopStays(x, r, r.pending - multiset{c});
    }
  }

  lemma StopReenters(q: Priv, p: nat)
    ensures var c := StopAction(q, p); !c.MarkNop? && c.p == p && forall z :: Reenters(StopIntfs, c, z)
  {
  }

  lemma WaitingOver(x: Run, pending: multiset<Action>, c: Action)
    requires Waiting(x, pending, c)
    ensures IeOnly(x, pending - multiset{c})
  {
  }

  lemma StopStays(x: Run, r: Rdh, rest: multiset<Action>)
    requires Ok(x) && Same(x, r) && ChannelChosen(x) && AwaitingStop(x, r)
    requires Waiting(x, rest, StopAction(x.p0[x.list[r.privCurrIdx]], x.list[r.privCurrIdx]))
    ensures Inv(x, r.(pending := rest))
  {
    hide Chooser, Each, BeforeStop, Distinct, StoppedUpTo, StopAction, Stopping, Waiting, ChannelChosen;
    assert AwaitingStop(x, r.(pending := rest));
  }

  lemma StepFromSet(x: Run, r: Rdh, c: Action, info: Info)
    requires Ok(x) && Same(x, r) && ChannelChosen(x) && AwaitingSet(x, r) && c in r.pending
    ensures CanComplete(r, c) && Inv(x, Complete(r, c, info))
  {
    hide DoSetNewChannel, Chooser, Each, BeforeSet, Distinct, IeOnly, Inv, StoppedUpTo, Waiting;
    var i := r.privCurrIdx;
    var awaited := SetChannel(x.list[i], x.chosen);
    if c == awaited {
      var s := r.(pending := r.pending - multiset{c});
      assert r.privs[c.p := Effect(r.privs[c.p], c)] == r.privs;
      WaitingOver(x, r.pending, c);
      assert Complete(r, c, info) == DoSetNewChannel(s);
      SetNewChannelInv(x, s, i + 1);
    } else {
      StillWaiting(x, r.pending, awaited, c);
      Leftover(x, r, c, info);
      SetStays(x, r, r.pending - multiset{c});
    }
  }

  lemma SetStays(x: Run, r: Rdh, rest: multiset<Action>)
    requires Ok(x) && Same(x, r) && ChannelChosen(x) && AwaitingSet(x, r)
    requires Waiting(x, rest, SetChannel(x.list[r.privCurrIdx], x.chosen))
    ensures Inv(x, r.(pending := rest))
  {
    hide Chooser, Each, BeforeSet, Distinct, StoppedUpTo, Waiting, ChannelChosen;
    assert AwaitingSet(x, r.(pending := rest));
  }

  lemma StepFromStart(x: Run, r: Rdh, c: Action, info: Info)
    requires Ok(x) && Same(x, r) && ChannelChosen(x) && AwaitingStart(x, r) && c in r.pending
    ensures CanComplete(r, c) && Inv(x, Complete(r, c, info))
  {
    hide Chooser, Each, BeforeStart, Distinct, IeOnly, Inv, RestartedUpTo, Restarting, RestartAction,
      Complete, Waiting, Stopped, Restarted, IsCreator, NoHostAp, ChannelChosen, IsActive;
    var p := x.list[r.privCurrIdx];
    var awaited := RestartAction(x.p0[p], p, x.chosen);
    if c == awaited {
      Restarts(x, r, c, info);
    } else {
      StillWaiting(x, r.pending, awaited, c);
      Leftover(x, r, c, info);
      StartStays(x, r, r.pending - multiset{c});
    }
  }

  /** The start waited for completes: on to the next interface, unless it was an access point with host 11h. */
  lemma Restarts(x: Run, r: Rdh, c: Action, info: Info)
    requires Ok(x) && Same(x, r) && ChannelChosen(x) && AwaitingStart(x, r) && c in r.pending
    requires c == RestartAction(x.p0[x.list[r.privCurrIdx]], x.list[r.privCurrIdx], x.chosen)
    ensures CanComplete(r, c) && Inv(x, Complete(r, c, info))
  {
    hide DoRestartIntfs, Chooser, Each, BeforeStart, Distinct, IeOnly, Inv, RestartedUpTo, Restarting, RestartAction,
      Complete, CanComplete, Waiting, Stopped, Restarted, IsCreator, NoHostAp, IsHostAp, ChannelChosen,
      NothingToRestart;
    var i := r.privCurrIdx;
    StartCompletes(x, r, c, info);
    RestartedNext(x, i);
    WaitingOver(x, r.pending, c);
    var s := r.(pending := r.pending - multiset{c}, privs := RestartedUpTo(x, i + 1));
    if IsHostAp(x.p0[x.list[i]]) {
      HaltedNow(x, s);
    } else {
      OneMoreNotHost(x, i);
      RestartIntfsInv(x, s, i + 1);
    }
  }

  lemma StartCompletes(x: Run, r: Rdh, c: Action, info: Info)
    requires Ok(x) && Same(x, r) && AwaitingStart(x, r) && c in r.pending
    requires c == RestartAction(x.p0[x.list[r.privCurrIdx]], x.list[r.privCurrIdx], x.chosen)
    ensures CanComplete(r, c)
    ensures var s := r.(pending := r.pending - multiset{c}, privs := RestartedUpTo(x, r.privCurrIdx + 1));
            && WellFormed(s.privs, s.privList)
            && Complete(r, c, info) == if IsHostAp(x.p0[x.list[r.privCurrIdx]]) then s else DoRestartIntfs(s)
  {
    hide DoRestartIntfs, Each, BeforeStart, Distinct, RestartedUpTo, Restarting, RestartAction, Effect, Reenters,
      Waiting, Stopped, Restarted, IsCreator, NoHostAp, IsHostAp;
    var p := x.list[r.privCurrIdx];
    RestartCompletes(x.p0[p], p, x.chosen);
    RestartedNext(x, r.privCurrIdx);
    assert r.privs[p := Restarted(x.p0[p], x.chosen)] == RestartedUpTo(x, r.privCurrIdx + 1);
  }

  lemma OneMoreNotHost(x: Run, i: nat)
    requires WellFormed(x.p0, x.list) && i < |x.list| && NoHostAp(x, i) && !IsHostAp(x.p0[x.list[i]])
    ensures NoHostAp(x, i + 1)
  {
  }

  lemma HaltedNow(x: Run, s: Rdh)
    requires Ok(x) && Same(x, s) && ChannelChosen(x) && Halted(x, s)
    ensures Inv(x, s)
  {
    hide Ok, Same, ChannelChosen, Halted;
  }

  /** Started with host 11h: what still completes are leftover announcements. */
  lemma StepFromHalted(x: Run, r: Rdh, c: Action, info: Info)
    requires Ok(x) && Same(x, r) && ChannelChosen(x) && Halted(x, r) && c in r.pending
    ensures CanComplete(r, c) && Inv(x, Complete(r, c, info))
  {
    hide Chooser, Each, BeforeStart, Distinct, RestartedUpTo, NoHostAp, IsHostAp, ChannelChosen;
    Leftover(x, r, c, info);
    HaltedNow(x, Complete(r, c, info));
  }

  lemma RestartCompletes(q: Priv, p: nat, chosen: nat)
    requires IsActive(q) && !q.adhocPrev.AdhocStarted? && (q.role.Uap? || IsCreator(q))
    ensures var c := RestartAction(q, p, chosen);
            && !c.MarkNop? && c.p == p
            && Effect(Restarting(Stopped(q), chosen), c) == Restarted(q, chosen)
            && (Reenters(RestartIntfs, c, Restarted(q, chosen)) <==> !IsHostAp(q))
  {
  }

  lemma StartStays(x: Run, r: Rdh, rest: multiset<Action>)
    requires Ok(x) && Same(x, r) && ChannelChosen(x) && AwaitingStart(x, r)
    requires Waiting(x, rest, RestartAction(x.p0[x.list[r.privCurrIdx]], x.list[r.privCurrIdx], x.chosen))
    ensures Inv(x, r.(pending := rest))
  {
    hide Chooser, Each, BeforeStart, Distinct, RestartedUpTo, Waiting, ChannelChosen, Restarting, Stopped,
      RestartAction, IsCreator, NoHostAp;
    assert AwaitingStart(x, r.(pending := rest));
  }

  lemma StepFromFinished(x: Run, r: Rdh, c: Action, info: Info)
    requires Ok(x) && Same(x, r) && ChannelChosen(x) && Finished(x, r) && c in r.pending
    ensures CanComplete(r, c) && Inv(x, Complete(r, c, info)) && Complete(r, c, info).stage.Off?
  {
    hide Chooser, RestartedUpTo, FullTrace, NoHostAp, ChannelChosen, Distinct, NothingToRestart;
    Leftover(x, r, c, info);
    assert Finished(x, Complete(r, c, info));
  }

  lemma StepFromGaveUp(x: Run, r: Rdh, c: Action, info: Info)
    requires Ok(x) && Same(x, r) && GaveUp(x, r) && c in r.pending
    ensures CanComplete(r, c) && Inv(x, Complete(r, c, info)) && Complete(r, c, info).stage.Off?
  {
    hide Chooser, BeforeDtim, Distinct, NothingToRestart, WellFormed;
    assert c == BssStop(Chooser(x));
    assert r.pending - multiset{c} == multiset{};
    assert GaveUp(x, Complete(r, c, info));
  }

  /** After the end only the stop of an access point that gave up has an effect. */
  lemma StepFromOff(x: Run, r: Rdh, c: Action, info: Info)
    requires Inv(x, r) && r.stage.Off? && c in r.pending
    ensures CanComplete(r, c) && Inv(x, Complete(r, c, info)) && Complete(r, c, info).stage.Off?
  {
    hide *;
    StageIs(x, r);
    if GaveUp(x, r) {
      StepFromGaveUp(x, r, c, info);
    } else {
      StepFromFinished(x, r, c, info);
    }
  }

  lemma NowSame(x: Run, r: Rdh)
    requires Inv(x, r)
    ensures Now(x, r) == x
  {
    hide Ok, AwaitingChannel, Stuck, GaveUp, ChannelChosen, AwaitingDtim, AwaitingIe, AwaitingStop, AwaitingSet,
      AwaitingStart, Halted, Finished;
  }

  /** Any pending command may complete next; the invariant stays. */
  lemma StepInv(x: Run, r: Rdh, c: Action, info: Info)
    requires Inv(x, r) && c in r.pending
    ensures CanComplete(r, c)
    ensures var s := Complete(r, c, info); Inv(Now(x, s), s)
  {
    if r.stage.Off? {
      StepFromOff(x, r, c, info);
      NowSame(x, Complete(r, c, info));
    } else {
      StepFromActive(x, r, c, info);
    }
  }

  /** The channels are settled when the access point's own is known, and do not change after that. */
  lemma StepFromActive(x: Run, r: Rdh, c: Action, info: Info)
    requires Inv(x, r) && c in r.pending && r.stage != Off
    ensures CanComplete(r, c)
    ensures var s := Complete(r, c, info);
            && Inv(Now(x, s), s)
            && (r.stage == GetInfoChannel ==> s.currChannel == info.reported && s.newChannel == info.pick)
            && (r.stage != GetInfoChannel ==> Now(x, s) == x && ChannelChosen(x))
  {
    StageIs(x, r);
    hide *;
    if r.stage == GetInfoChannel {
      StepFromChannel(x, r, c, info);
    } else {
      if r.stage == GetInfoBeaconDtim {
        StepFromDtim(x, r, c, info);
      } else if r.stage == SetCustomIe || r.stage == RemCustomIe {
        StepFromIe(x, r, c, info);
      } else if r.stage == StopIntfs {
        StepFromStop(x, r, c, info);
      } else if r.stage == SetNewChannel {
        StepFromSet(x, r, c, info);
      } else if AwaitingStart(x, r) {
        StepFromStart(x, r, c, info);
      } else {
        StepFromHalted(x, r, c, info);
      }
      NowSame(x, Complete(r, c, info));
    }
  }

  /** What the invariant says in each stage. */
  lemma StageIs(x: Run, r: Rdh)
    requires Inv(x, r)
    ensures Ok(x) && Same(x, r)
    ensures r.stage.GetInfoChannel? ==> AwaitingChannel(x, r) || Stuck(x, r)
    ensures r.stage.GetInfoChannel? && r.pending != multiset{} ==> AwaitingChannel(x, r)
    ensures !r.stage.GetInfoChannel? && !r.stage.Off? ==> ChannelChosen(x)
    ensures r.stage.GetInfoBeaconDtim? ==> AwaitingDtim(x, r)
    ensures r.stage.SetCustomIe? || r.stage.RemCustomIe? ==> AwaitingIe(x, r)
    ensures r.stage.StopIntfs? ==> AwaitingStop(x, r)
    ensures r.stage.SetNewChannel? ==> AwaitingSet(x, r)
    ensures r.stage.RestartIntfs? ==> AwaitingStart(x, r) || Halted(x, r)
    ensures r.stage.Off? ==> GaveUp(x, r) || (ChannelChosen(x) && Finished(x, r))
    ensures !r.stage.ChkIntfs? && !r.stage.StopTraffic? && !r.stage.RestartTraffic?
  {
    hide Chooser, Each, Distinct, RestartedUpTo, StoppedUpTo, Waiting, Opening, BeforeDtim, BeforeAdd, BeforeDrop,
      BeforeStop, BeforeSet, BeforeStart, FullTrace, IeOnly, Ok, Same, ChannelChosen, NoHostAp, IsHostAp;
  }
}
