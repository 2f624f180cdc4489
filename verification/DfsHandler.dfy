/**
 * The radar handler as the driver runs it: a resumable switch over fields updated in place, each stage falling
 * through to the next (mlan_11h.c).
 */
module DfsHandler {
  import opened DfsRadar

  class RadarHandler {
    var stage: Stage
    var privCurrIdx: nat
    var privList: seq<nat>
    var currChannel: nat
    var newChannel: nat
    /** The adapter's interfaces. */
    const privs: array<Priv>
    /** What the handler has done to the outside, and the commands not completed yet. */
    ghost var log: seq<Action>
    ghost var pending: multiset<Action>

    ghost function State(): Rdh
      reads this, privs
    {
      Rdh(stage, privCurrIdx, privList, currChannel, newChannel, privs[..], log, pending)
    }

    ghost predicate Valid()
      reads this, privs
    {
      && privs.Length < FIRST_ENTRY
      && (stage != ChkIntfs && stage != Off ==> WellFormed(privs[..], privList) && privList != [])
    }

    constructor (adapterPrivs: array<Priv>)
      requires adapterPrivs.Length < FIRST_ENTRY
      ensures privs == adapterPrivs && Valid() && stage == Off && log == [] && pending == multiset{}
    {
      privs := adapterPrivs;
      stage, privCurrIdx, privList, currChannel, newChannel := Off, 0, [], 0, 0;
      log, pending := [], multiset{};
    }

    /** A command goes out. */
    ghost method Send(c: Action)
      modifies this`log, this`pending
      ensures log == old(log) + [c] && pending == old(pending) + multiset{c}
    {
      log := log + [c];
      pending := pending + multiset{c};
    }

    /** An action that no completion answers. */
    ghost method Note(a: Action)
      modifies this`log
      ensures log == old(log) + [a]
    {
      log := log + [a];
    }

    /** wlan_get_privs_by_cond with wlan_is_intf_active */
    method ActiveInterfaces() returns (list: seq<nat>)
      ensures list == ActivePrivs(privs[..], 0)
    {
      list := [];
      assert [] + ActivePrivs(privs[..], 0) == ActivePrivs(privs[..], 0);
      for i := 0 to privs.Length
        invariant list + ActivePrivs(privs[..], i) == ActivePrivs(privs[..], 0)
      {
        ActiveNext(list, privs[..], i);
        if IsActive(privs[i]) {
          list := list + [i];
        }
      }
    }

    method TxDisableAll()
      modifies this`log
      ensures log == old(log) + TxAll(privList, false)
    {
      for i := 0 to |privList|
        invariant log == old(log) + TxAll(privList, false)[..i]
      {
        Note(TxDisable(privList[i]));
        assert TxAll(privList, false)[..i + 1] == TxAll(privList, false)[..i] + [TxDisable(privList[i])];
      }
    }

    method TxEnableAll()
      modifies this`log
      ensures log == old(log) + TxAll(privList, true)
    {
      for i := 0 to |privList|
        invariant log == old(log) + TxAll(privList, true)[..i]
      {
        Note(TxEnable(privList[i]));
        assert TxAll(privList, true)[..i + 1] == TxAll(privList, true)[..i] + [TxEnable(privList[i])];
      }
    }

    /** wlan_11h_get_priv_curr_idx: moves the index to the interface's place. */
    method GetPrivCurrIdx(p: nat) returns (found: bool)
      requires Valid() && stage == GetInfoChannel && privCurrIdx == FIRST_ENTRY
      modifies this`privCurrIdx
      ensures State() == old(State()).(privCurrIdx := IndexFrom(privList, p, 0))
      ensures found <==> privCurrIdx < |privList|
    {
      found := false;
      privCurrIdx := Next(privCurrIdx);
      while privCurrIdx < |privList|
        invariant privCurrIdx <= |privList| && IndexFrom(privList, p, privCurrIdx) == IndexFrom(privList, p, 0)
        invariant !found
      {
        if p == privList[privCurrIdx] {
          found := true;
          break;
        }
        privCurrIdx := Next(privCurrIdx);
      }
    }

    /** The first station of the list, or its last interface. */
    method FindSta() returns (q: nat)
      requires Valid() && stage == GetInfoChannel
      ensures q == FirstSta(privs[..], privList)
    {
      q := privList[0];
      var i := 0;
      while i < |privList|
        invariant 0 <= i <= |privList|
        invariant RoleFrom(privs[..], privList, Sta, i) == RoleFrom(privs[..], privList, Sta, 0)
        invariant i > 0 ==> q == privList[i - 1]
      {
        q := privList[i];
        if privs[q].role == Sta {
          break;
        }
        i := i + 1;
      }
    }

    /** Moves the index to the next access point; `while (++idx < count)` over the list. */
    method NextUap()
      requires Valid() && stage != ChkIntfs && stage != Off
      modifies this`privCurrIdx
      ensures State() == old(State()).(privCurrIdx := RoleFrom(privs[..], privList, Uap, Next(old(privCurrIdx))))
    {
      privCurrIdx := Next(privCurrIdx);
      while privCurrIdx < |privList|
        invariant RoleFrom(privs[..], privList, Uap, privCurrIdx)
               == RoleFrom(privs[..], privList, Uap, Next(old(privCurrIdx)))
        decreases |privList| - privCurrIdx
      {
        if privs[privList[privCurrIdx]].role == Uap {
          break;
        }
        privCurrIdx := Next(privCurrIdx);
      }
    }

    /** The announcement command for one interface, if it is a master; moves on to the next. */
    method Announce(adding: bool, ghost before: Rdh)
      requires privs.Length < FIRST_ENTRY && WellFormed(privs[..], privList) && privCurrIdx < |privList|
      requires Announced(before, State(), adding, privCurrIdx)
      requires before.privList == privList && before.privs == privs[..]
      modifies this`privCurrIdx, this`log, this`pending
      ensures privCurrIdx == old(privCurrIdx) + 1 && Announced(before, State(), adding, privCurrIdx)
    {
      hide Announced, ForMasters, IsDfsMaster;
      var p := privList[privCurrIdx];
      AnnouncedNext(before, State(), adding, privCurrIdx);
      if IsDfsMaster(privs[p]) {
        Send(if adding then SetIe(p) else RemIe(p));
      }
      IndexMoved(before, State(), adding, privCurrIdx + 1);
      privCurrIdx := Next(privCurrIdx);
    }

    /** One announcement command for each master; moves the index to the end of the list. */
    method AnnounceAll(adding: bool)
      requires Valid() && stage != ChkIntfs && stage != Off && privCurrIdx == FIRST_ENTRY
      modifies this`privCurrIdx, this`log, this`pending
      ensures State() == IssueAll(old(State()), ForMasters(privs[..], privList, adding)).(privCurrIdx := |privList|)
    {
      hide ForMasters, Announced;
      ghost var before := State();
      NoneAnnounced(before, adding);
      privCurrIdx := Next(privCurrIdx);
      while privCurrIdx < |privList|
        invariant 0 <= privCurrIdx <= |privList| && WellFormed(privs[..], privList)
        invariant State() == before.(privCurrIdx := privCurrIdx, log := log, pending := pending)
        invariant Announced(before, State(), adding, privCurrIdx)
      {
        Announce(adding, before);
      }
      AllAnnounced(before, State(), adding);
    }

    /** RDH_STOP_INTFS: saves a creator's state and moves on to the next interface to be stopped. */
    method StopNext()
      requires Valid() && stage == StopIntfs
      modifies this`privCurrIdx, privs
      ensures var (after, j) := StopWalk(old(privs[..]), privList, Next(old(privCurrIdx)));
              State() == old(State()).(privs := after, privCurrIdx := j)
    {
      ghost var goal := StopWalk(privs[..], privList, Next(privCurrIdx));
      privCurrIdx := Next(privCurrIdx);
      while privCurrIdx < |privList|
        invariant WellFormed(privs[..], privList)
        invariant StopWalk(privs[..], privList, privCurrIdx) == goal
        decreases |privList| - privCurrIdx
      {
        var stop := StopOne(goal);
        if stop {
          break;
        }
        privCurrIdx := Next(privCurrIdx);
      }
      assert privCurrIdx >= |privList| ==> goal == (privs[..], privCurrIdx);
    }

    /** One interface of the walk. */
    method StopOne(ghost goal: (seq<Priv>, nat)) returns (stop: bool)
      requires privs.Length < FIRST_ENTRY && WellFormed(privs[..], privList) && privCurrIdx < |privList|
      requires StopWalk(privs[..], privList, privCurrIdx) == goal
      modifies privs
      ensures if stop then goal == (privs[..], privCurrIdx)
              else StopWalk(privs[..], privList, privCurrIdx + 1) == goal
    {
      hide NeedsStop;
      var p := privList[privCurrIdx];
      ghost var was := privs[..];
      if privs[p].role == Sta && IsDfsMaster(privs[p]) {
        privs[p] := privs[p].(adhocPrev := privs[p].adhoc);
      }
      assert privs[..] == was[p := Stopping(was[p])];
      stop := NeedsStop(privs[p]);
      SameNeed(was[p]);
    }

    /** RDH_RESTART_INTFS: makes former creators masters again and moves on to the next interface to be started. */
    method RestartNext()
      requires Valid() && stage == RestartIntfs
      modifies this`privCurrIdx, privs
      ensures var (after, j) := RestartWalk(old(privs[..]), privList, newChannel, Next(old(privCurrIdx)));
              State() == old(State()).(privs := after, privCurrIdx := j)
    {
      ghost var goal := RestartWalk(privs[..], privList, newChannel, Next(privCurrIdx));
      privCurrIdx := Next(privCurrIdx);
      while privCurrIdx < |privList|
        invariant WellFormed(privs[..], privList)
        invariant RestartWalk(privs[..], privList, newChannel, privCurrIdx) == goal
        decreases |privList| - privCurrIdx
      {
        var stop := RestartOne(goal);
        if stop {
          break;
        }
        privCurrIdx := Next(privCurrIdx);
      }
      assert privCurrIdx >= |privList| ==> goal == (privs[..], privCurrIdx);
    }

    method RestartOne(ghost goal: (seq<Priv>, nat)) returns (stop: bool)
      requires privs.Length < FIRST_ENTRY && WellFormed(privs[..], privList) && privCurrIdx < |privList|
      requires RestartWalk(privs[..], privList, newChannel, privCurrIdx) == goal
      modifies privs
      ensures if stop then goal == (privs[..], privCurrIdx)
              else RestartWalk(privs[..], privList, newChannel, privCurrIdx + 1) == goal
    {
      var p := privList[privCurrIdx];
      ghost var was := privs[..];
      if privs[p].role == Sta {
        if privs[p].adhocPrev == AdhocStarted {
          privs[p] := privs[p].(adhoc := AdhocStarting, adhocPrev := AdhocIdle);
        }
        if IsDfsMaster(privs[p]) {
          privs[p] := privs[p].(adhocChannel := newChannel);
        }
      }
      assert privs[..] == was[p := Restarting(was[p], newChannel)];
      stop := IsDfsMaster(privs[p]);
    }

    /** The second half of the channel stage for interface `q`: marks the channel and settles the new one. */
    method SettleChannel(q: nat, pick: nat)
      requires Valid() && stage == GetInfoChannel && q < privs.Length
      modifies this`stage, this`privCurrIdx, this`newChannel, this`log, this`pending
      ensures stage == Off || (Valid() && stage == GetInfoBeaconDtim && privCurrIdx == FIRST_ENTRY)
      ensures ChooseChannel(old(State()), q, pick)
           == if stage == Off then State() else DoGetInfoBeaconDtim(State())
    {
      hide DoGetInfoBeaconDtim;
      Note(MarkNop(currChannel));
      newChannel := pick;
      if newChannel == 0 || newChannel == currChannel {
        if privs[q].role == Uap {
          Send(BssStop(q));
          stage := Off;
          return;
        }
      }
      privCurrIdx := FIRST_ENTRY;
      stage := GetInfoBeaconDtim;
    }

    /** RDH_GET_INFO_CHANNEL */
    method LearnChannel(p: nat, info: Info)
      requires Valid() && stage == GetInfoChannel && p < privs.Length
      modifies this`stage, this`privCurrIdx, this`currChannel, this`newChannel, this`log, this`pending
      ensures stage == Off || stage == GetInfoChannel
              || (Valid() && stage == GetInfoBeaconDtim && privCurrIdx == FIRST_ENTRY)
      ensures DoGetInfoChannel(old(State()), p, info)
           == if stage == GetInfoBeaconDtim then DoGetInfoBeaconDtim(State()) else State()
    {
      hide ChooseChannel, DoGetInfoBeaconDtim, FirstSta, IndexFrom;
      if privCurrIdx == FIRST_ENTRY {
        if privs[p].role == Uap {
          var found := GetPrivCurrIdx(p);
          if found {
            Send(GetChannel(p));
          }
          return;
        }
        var q := FindSta();
        currChannel := privs[q].bssChannel;
        SettleChannel(q, info.pick);
      } else {
        if privCurrIdx < |privList| {
          currChannel := info.reported;
        }
        SettleChannel(p, info.pick);
      }
    }

    /** The stages from the beacon information on; each falls through to the next when its interfaces are done. */
    method FromBeaconDtim()
      requires Valid() && stage == GetInfoBeaconDtim
      modifies this`stage, this`privCurrIdx, this`log, this`pending
      ensures stage == GetInfoBeaconDtim || (Valid() && stage == SetCustomIe && privCurrIdx == FIRST_ENTRY)
      ensures DoGetInfoBeaconDtim(old(State())) == if stage == SetCustomIe then DoSetCustomIe(State()) else State()
    {
      hide RoleFrom, DoSetCustomIe;
      NextUap();
      if privCurrIdx < |privList| {
        Send(GetBeaconDtim(privList[privCurrIdx]));
        return;
      }
      privCurrIdx := FIRST_ENTRY;
      stage := SetCustomIe;
    }

    method FromSetCustomIe()
      requires Valid() && stage == SetCustomIe
      modifies this`stage, this`privCurrIdx, this`log, this`pending
      ensures stage == SetCustomIe || (Valid() && stage == RemCustomIe && privCurrIdx == FIRST_ENTRY)
      ensures DoSetCustomIe(old(State())) == if stage == RemCustomIe then DoRemCustomIe(State()) else State()
    {
      hide ForMasters, DoRemCustomIe;
      if privCurrIdx == FIRST_ENTRY {
        AnnounceAll(true);
        return;
      }
      privCurrIdx := FIRST_ENTRY;
      stage := RemCustomIe;
    }

    method FromRemCustomIe()
      requires Valid() && stage == RemCustomIe
      modifies this`stage, this`privCurrIdx, this`log, this`pending
      ensures stage == RemCustomIe || (Valid() && stage == StopIntfs && privCurrIdx == FIRST_ENTRY)
      ensures DoRemCustomIe(old(State())) == if stage == StopIntfs then DoStopIntfs(State()) else State()
    {
      hide ForMasters, DoStopIntfs;
      if privCurrIdx == FIRST_ENTRY {
        AnnounceAll(false);
        return;
      }
      privCurrIdx := FIRST_ENTRY;
      stage := StopIntfs;
    }

    method FromStopIntfs()
      requires Valid() && stage == StopIntfs
      modifies this`stage, this`privCurrIdx, this`log, this`pending, privs
      ensures stage == StopIntfs || (Valid() && stage == SetNewChannel && privCurrIdx == FIRST_ENTRY)
      ensures WellFormed(privs[..], privList)
      ensures DoStopIntfs(old(State())) == if stage == SetNewChannel then DoSetNewChannel(State()) else State()
    {
      hide StopWalk, DoSetNewChannel;
      StopNext();
      if privCurrIdx < |privList| {
        var p := privList[privCurrIdx];
        Send(StopAction(privs[p], p));
        return;
      }
      privCurrIdx := FIRST_ENTRY;
      stage := SetNewChannel;
    }

    method FromSetNewChannel()
      requires Valid() && stage == SetNewChannel
      modifies this`stage, this`privCurrIdx, this`log, this`pending
      ensures stage == SetNewChannel || (Valid() && stage == RestartIntfs && privCurrIdx == FIRST_ENTRY)
      ensures DoSetNewChannel(old(State())) == if stage == RestartIntfs then DoRestartIntfs(State()) else State()
    {
      hide RoleFrom, DoRestartIntfs;
      NextUap();
      if privCurrIdx < |privList| {
        Send(SetChannel(privList[privCurrIdx], newChannel));
        return;
      }
      privCurrIdx := FIRST_ENTRY;
      stage := RestartIntfs;
    }

    method FromRestartIntfs()
      requires Valid() && stage == RestartIntfs
      modifies this`stage, this`privCurrIdx, this`log, this`pending, privs
      ensures stage == RestartIntfs || stage == RestartTraffic
      ensures WellFormed(privs[..], privList)
      ensures DoRestartIntfs(old(State())) == if stage == RestartTraffic then DoRestartTraffic(State()) else State()
    {
      hide RestartWalk, DoRestartTraffic;
      RestartNext();
      if privCurrIdx < |privList| {
        var p := privList[privCurrIdx];
        Send(RestartAction(privs[p], p, newChannel));
        return;
      }
      privCurrIdx := FIRST_ENTRY;
      stage := RestartTraffic;
    }

    method FromChkIntfs(p: nat, info: Info)
      requires privs.Length < FIRST_ENTRY && stage == ChkIntfs && p < privs.Length
      modifies this`stage, this`privCurrIdx, this`privList, this`currChannel, this`newChannel
      ensures stage == Off || (Valid() && stage == StopTraffic)
      ensures DoChkIntfs(old(State()), p, info) == if stage == Off then State() else DoStopTraffic(State(), p, info)
    {
      hide ActivePrivs, DoStopTraffic;
      privList := ActiveInterfaces();
      if |privList| == 0 {
        stage := Off;
        return;
      }
      currChannel := 0;
      newChannel := 0;
      privCurrIdx := FIRST_ENTRY;
      stage := StopTraffic;
    }

    method FromStopTraffic(p: nat, info: Info)
      requires Valid() && stage == StopTraffic && p < privs.Length
      modifies this`stage, this`privCurrIdx, this`log
      ensures Valid() && stage == GetInfoChannel
      ensures DoStopTraffic(old(State()), p, info) == DoGetInfoChannel(State(), p, info)
    {
      hide DoGetInfoChannel, TxAll;
      TxDisableAll();
      privCurrIdx := FIRST_ENTRY;
      stage := GetInfoChannel;
    }

    /** The stages up to the announcement of the switch. */
    method EarlyStages(p: nat, info: Info)
      requires Valid() && p < privs.Length
      modifies this`stage, this`privCurrIdx, this`privList, this`currChannel, this`newChannel, this`log, this`pending
      ensures Valid()
      ensures stage in {SetCustomIe, old(stage), Off, GetInfoChannel, GetInfoBeaconDtim}
      ensures old(stage) in {ChkIntfs, StopTraffic, GetInfoChannel, GetInfoBeaconDtim} ==>
                (Handle(old(State()), p, info) == if stage == SetCustomIe then DoSetCustomIe(State()) else State())
      ensures old(stage) !in {ChkIntfs, StopTraffic, GetInfoChannel, GetInfoBeaconDtim} ==> State() == old(State())
    {
      hide DoChkIntfs, DoStopTraffic, DoGetInfoChannel, DoGetInfoBeaconDtim, DoSetCustomIe, WellFormed;
      if stage == ChkIntfs {
        FromChkIntfs(p, info);
      }
      if stage == StopTraffic {
        FromStopTraffic(p, info);
      }
      if stage == GetInfoChannel {
        LearnChannel(p, info);
      }
      if stage == GetInfoBeaconDtim {
        FromBeaconDtim();
      }
    }

    /** The stages that stop, move and restart the interfaces. */
    method LateStages(p: nat, info: Info)
      requires Valid() && stage in {StopIntfs, SetNewChannel, RestartIntfs, RestartTraffic} && p < privs.Length
      modifies this`stage, this`privCurrIdx, this`log, this`pending, privs
      ensures Valid() && State() == Handle(old(State()), p, info)
    {
      hide DoStopIntfs, DoSetNewChannel, DoRestartIntfs, DoRestartTraffic, WellFormed;
      if stage == StopIntfs {
        FromStopIntfs();
      }
      if stage == SetNewChannel {
        FromSetNewChannel();
      }
      if stage == RestartIntfs {
        FromRestartIntfs();
      }
      if stage == RestartTraffic {
        FromRestartTraffic();
      }
    }

    method FromRestartTraffic()
      requires Valid() && stage == RestartTraffic
      modifies this`stage, this`log
      ensures stage == Off && State() == DoRestartTraffic(old(State()))
    {
      hide TxAll;
      TxEnableAll();
      stage := Off;
    }

    /** The two announcement stages. */
    method AnnounceStages(p: nat, info: Info)
      requires Valid() && stage in {SetCustomIe, RemCustomIe} && p < privs.Length
      modifies this`stage, this`privCurrIdx, this`log, this`pending
      ensures Valid() && stage in {SetCustomIe, RemCustomIe, StopIntfs}
      ensures Handle(old(State()), p, info) == if stage == StopIntfs then DoStopIntfs(State()) else State()
    {
      hide DoSetCustomIe, DoRemCustomIe, DoStopIntfs, WellFormed;
      if stage == SetCustomIe {
        FromSetCustomIe();
      }
      if stage == RemCustomIe {
        FromRemCustomIe();
      }
    }

    /** wlan_11h_radar_detected_handling */
    method RadarDetectedHandling(p: nat, info: Info)
      requires Valid() && p < privs.Length
      modifies this, privs
      ensures Valid()
      ensures State() == Handle(old(State()), p, info)
    {
      hide DoChkIntfs, DoStopTraffic, DoGetInfoChannel, DoGetInfoBeaconDtim, DoSetCustomIe, DoRemCustomIe, DoStopIntfs,
        DoSetNewChannel, DoRestartIntfs, DoRestartTraffic, WellFormed;
      EarlyStages(p, info);
      if stage == SetCustomIe || stage == RemCustomIe {
        AnnounceStages(p, info);
      }
      if stage in {StopIntfs, SetNewChannel, RestartIntfs, RestartTraffic} {
        LateStages(p, info);
      }
    }
  }

  lemma ActiveNext(list: seq<nat>, privs: seq<Priv>, i: nat)
    requires i < |privs|
    ensures list + ActivePrivs(privs, i)
         == (if IsActive(privs[i]) then list + [i] else list) + ActivePrivs(privs, i + 1)
  {
  }

  /** The commands of the first `n` interfaces are out and nothing else has changed but the index. */
  ghost predicate Announced(before: Rdh, r: Rdh, adding: bool, n: nat) {
    && WellFormed(before.privs, before.privList) && n <= |before.privList|
    && r == IssueAll(before, ForMasters(before.privs, before.privList[..n], adding)).(privCurrIdx := r.privCurrIdx)
  }

  lemma NoneAnnounced(before: Rdh, adding: bool)
    requires WellFormed(before.privs, before.privList)
    ensures forall i: nat :: Announced(before, before.(privCurrIdx := i), adding, 0)
  {
    assert ForMasters(before.privs, before.privList[..0], adding) == [];
    assert before.log + [] == before.log;
    assert before.pending + multiset([]) == before.pending;
  }

  lemma IndexMoved(before: Rdh, r: Rdh, adding: bool, n: nat)
    requires Announced(before, r, adding, n)
    ensures Announced(before, r.(privCurrIdx := n), adding, n)
  {
  }

  lemma AllAnnounced(before: Rdh, r: Rdh, adding: bool)
    requires Announced(before, r, adding, |before.privList|) && r.privCurrIdx == |before.privList|
    ensures r == IssueAll(before, ForMasters(before.privs, before.privList, adding)).(privCurrIdx := |before.privList|)
  {
    assert before.privList[..|before.privList|] == before.privList;
  }

  lemma AnnouncedNext(before: Rdh, r: Rdh, adding: bool, n: nat)
    requires Announced(before, r, adding, n) && n < |before.privList|
    ensures var p := before.privList[n];
            var s := if IsDfsMaster(before.privs[p]) then Issue(r, if adding then SetIe(p) else RemIe(p)) else r;
            Announced(before, s, adding, n + 1)
  {
    hide ForMasters, IsDfsMaster;
    MasterNext(before.privs, before.privList, n, adding);
    var p := before.privList[n];
    var done := ForMasters(before.privs, before.privList[..n], adding);
    var c := if adding then SetIe(p) else RemIe(p);
    if IsDfsMaster(before.privs[p]) {
      assert before.log + done + [c] == before.log + (done + [c]);
      assert before.pending + multiset(done) + multiset{c} == before.pending + multiset(done + [c]);
    } else {
      assert done + [] == done;
    }
  }

  lemma MasterNext(privs: seq<Priv>, list: seq<nat>, n: nat, adding: bool)
    requires WellFormed(privs, list) && n < |list|
    ensures ForMasters(privs, list[..n + 1], adding)
         == ForMasters(privs, list[..n], adding)
            + (if IsDfsMaster(privs[list[n]]) then [if adding then SetIe(list[n]) else RemIe(list[n])] else [])
  {
    assert list[..n + 1][..n] == list[..n];
  }

  lemma SameNeed(q: Priv)
    ensures NeedsStop(Stopping(q)) == NeedsStop(q)
  {
  }
}
