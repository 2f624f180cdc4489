/**
 * The staged handling of a radar detection, as one function from the state at entry to the state at exit
 * (wlan_11h_radar_detected_handling in mlan_11h.c, without ECSA and without the DFS test overrides).
 */
module DfsRadar {

  datatype Role = Uap | Sta

  datatype AdhocState = AdhocIdle | AdhocStarted | AdhocJoined | AdhocStarting

  /** An interface, as far as the handling looks at it; `host11h` is is_11h_host, set by the application. */
  datatype Priv = Priv(
    role: Role,
    ibss: bool,
    adhoc: AdhocState,
    adhocPrev: AdhocState,
    connected: bool,
    bssStarted: bool,
    host11h: bool,
    bssChannel: nat,
    adhocChannel: nat)

  datatype Stage =
    | Off | ChkIntfs | StopTraffic | GetInfoChannel | GetInfoBeaconDtim | SetCustomIe | RemCustomIe | StopIntfs
    | SetNewChannel | RestartIntfs | RestartTraffic

  /** What the handling does to the outside, in order; all but the first, the last and `MarkNop` are commands. */
  datatype Action =
    | TxDisable(p: nat) | GetChannel(p: nat) | MarkNop(channel: nat) | GetBeaconDtim(p: nat) | SetIe(p: nat)
    | RemIe(p: nat) | BssStop(p: nat) | Deauth(p: nat) | AdhocStop(p: nat) | SetChannel(p: nat, channel: nat)
    | BssStart(p: nat) | AdhocStart(p: nat, channel: nat) | TxEnable(p: nat)

  /** Value of the 8-bit index on the first entry to a stage; incrementing it gives 0. */
  const FIRST_ENTRY := 255
  const U8 := 256

  datatype Rdh = Rdh(
    stage: Stage,
    privCurrIdx: nat,
    privList: seq<nat>,
    currChannel: nat,
    newChannel: nat,
    privs: seq<Priv>,
    log: seq<Action>,
    pending: multiset<Action>)

  /** The UAP channel last reported by the firmware, and the outcome of the channel selector. */
  datatype Info = Info(reported: nat, pick: nat)

  ghost predicate WellFormed(privs: seq<Priv>, list: seq<nat>) {
    |list| < FIRST_ENTRY && forall k :: 0 <= k < |list| ==> list[k] < |privs|
  }

  predicate IsDfsMaster(q: Priv) {
    q.role.Uap? || (q.ibss && (q.adhoc.AdhocStarted? || q.adhoc.AdhocStarting?))
  }

  predicate IsActive(q: Priv) {
    if q.role.Uap? then q.bssStarted else q.connected
  }

  /** wlan_get_privs_by_cond with wlan_is_intf_active, over the interfaces from `i` on. */
  function ActivePrivs(privs: seq<Priv>, i: nat): (list: seq<nat>)
    requires i <= |privs|
    ensures |list| <= |privs| - i
    ensures forall k :: 0 <= k < |list| ==> i <= list[k] < |privs| && IsActive(privs[list[k]])
    ensures forall j, k :: 0 <= j < k < |list| ==> list[j] < list[k]
    decreases |privs| - i
  {
    if i == |privs| then []
    else if IsActive(privs[i]) then [i] + ActivePrivs(privs, i + 1)
    else ActivePrivs(privs, i + 1)
  }

  function Next(idx: nat): nat {
    (idx + 1) % U8
  }

  // ---- Walks over the interface list ----

  /** First position from `i` on holding `p`; the length of the list, or `i` if that is larger, when there is none. */
  function IndexFrom(list: seq<nat>, p: nat, i: nat): nat
    decreases |list| - i
  {
    if i >= |list| || list[i] == p then i else IndexFrom(list, p, i + 1)
  }

  /** First position from `i` on of an interface in role `role`. */
  function RoleFrom(privs: seq<Priv>, list: seq<nat>, role: Role, i: nat): (j: nat)
    requires WellFormed(privs, list)
    ensures i <= j && (i <= |list| ==> j <= |list|)
    decreases |list| - i
  {
    if i >= |list| || privs[list[i]].role == role then i else RoleFrom(privs, list, role, i + 1)
  }

  /** One action for each DFS master of the list. */
  function ForMasters(privs: seq<Priv>, list: seq<nat>, adding: bool): seq<Action>
    requires WellFormed(privs, list)
  {
    if list == [] then []
    else
      var n := |list| - 1;
      var before := ForMasters(privs, list[..n], adding);
      if IsDfsMaster(privs[list[n]]) then before + [if adding then SetIe(list[n]) else RemIe(list[n])] else before
  }

  /** What stopping an interface does to it before the command is out. */
  function Stopping(q: Priv): Priv {
    if q.role.Sta? && IsDfsMaster(q) then q.(adhocPrev := q.adhoc) else q
  }

  predicate NeedsStop(q: Priv) {
    q.role.Uap? || q.connected
  }

  function StopAction(q: Priv, p: nat): Action {
    if q.role.Uap? then BssStop(p) else if q.ibss then AdhocStop(p) else Deauth(p)
  }

  /** Interfaces passed and the position of the next one to be stopped. */
  function StopWalk(privs: seq<Priv>, list: seq<nat>, i: nat): (r: (seq<Priv>, nat))
    requires WellFormed(privs, list)
    ensures |r.0| == |privs| && i <= r.1
    decreases |list| - i
  {
    if i >= |list| then (privs, i)
    else
      var q := privs[list[i]];
      var after := privs[list[i] := Stopping(q)];
      if NeedsStop(q) then (after, i) else StopWalk(after, list, i + 1)
  }

  /** What restarting does to an interface: the creator of an ad-hoc network becomes a master again. */
  function Restarting(q: Priv, channel: nat): Priv {
    if q.role.Uap? then q
    else
      var s := if q.adhocPrev.AdhocStarted? then q.(adhoc := AdhocStarting, adhocPrev := AdhocIdle) else q;
      if IsDfsMaster(s) then s.(adhocChannel := channel) else s
  }

  function RestartAction(q: Priv, p: nat, channel: nat): Action {
    if q.role.Uap? then BssStart(p) else AdhocStart(p, channel)
  }

  function RestartWalk(privs: seq<Priv>, list: seq<nat>, channel: nat, i: nat): (r: (seq<Priv>, nat))
    requires WellFormed(privs, list)
    ensures |r.0| == |privs| && i <= r.1
    decreases |list| - i
  {
    if i >= |list| then (privs, i)
    else
      var s := Restarting(privs[list[i]], channel);
      var after := privs[list[i] := s];
      if IsDfsMaster(s) then (after, i) else RestartWalk(after, list, channel, i + 1)
  }

  // ---- The stages; each ends the call or goes on to the next ----

  function Issue(r: Rdh, c: Action): Rdh {
    r.(log := r.log + [c], pending := r.pending + multiset{c})
  }

  function IssueAll(r: Rdh, cs: seq<Action>): Rdh {
    r.(log := r.log + cs, pending := r.pending + multiset(cs))
  }

  function Enter(r: Rdh, stage: Stage): Rdh {
    r.(stage := stage, privCurrIdx := FIRST_ENTRY)
  }

  function TxAll(list: seq<nat>, enable: bool): (acts: seq<Action>)
    ensures |acts| == |list|
  {
    seq(|list|, k requires 0 <= k < |list| => if enable then TxEnable(list[k]) else TxDisable(list[k]))
  }

  function DoRestartTraffic(r: Rdh): (s: Rdh)
    ensures s.stage == Off
  {
    r.(log := r.log + TxAll(r.privList, true), stage := Off)
  }

  function DoRestartIntfs(r: Rdh): (s: Rdh)
    requires WellFormed(r.privs, r.privList)
    ensures s.stage == r.stage || s.stage in {Off}
  {
    var (privs, j) := RestartWalk(r.privs, r.privList, r.newChannel, Next(r.privCurrIdx));
    var s := r.(privs := privs, privCurrIdx := j);
    if j < |r.privList| then Issue(s, RestartAction(privs[r.privList[j]], r.privList[j], r.newChannel))
    else DoRestartTraffic(Enter(s, RestartTraffic))
  }

  function DoSetNewChannel(r: Rdh): (s: Rdh)
    requires WellFormed(r.privs, r.privList)
    ensures s.stage == r.stage || s.stage in {RestartIntfs, Off}
  {
    var j := RoleFrom(r.privs, r.privList, Uap, Next(r.privCurrIdx));
    var s := r.(privCurrIdx := j);
    if j < |r.privList| then Issue(s, SetChannel(r.privList[j], r.newChannel))
    else DoRestartIntfs(Enter(s, RestartIntfs))
  }

  function DoStopIntfs(r: Rdh): (s: Rdh)
    requires WellFormed(r.privs, r.privList)
    ensures s.stage == r.stage || s.stage in {SetNewChannel, RestartIntfs, Off}
  {
    var (privs, j) := StopWalk(r.privs, r.privList, Next(r.privCurrIdx));
    var s := r.(privs := privs, privCurrIdx := j);
    if j < |r.privList| then Issue(s, StopAction(privs[r.privList[j]], r.privList[j]))
    else DoSetNewChannel(Enter(s, SetNewChannel))
  }

  function DoRemCustomIe(r: Rdh): (s: Rdh)
    requires WellFormed(r.privs, r.privList)
    ensures s.stage == r.stage || s.stage in {StopIntfs, SetNewChannel, RestartIntfs, Off}
  {
    if r.privCurrIdx == FIRST_ENTRY then
      IssueAll(r, ForMasters(r.privs, r.privList, false)).(privCurrIdx := |r.privList|)
    else DoStopIntfs(Enter(r, StopIntfs))
  }

  function DoSetCustomIe(r: Rdh): (s: Rdh)
    requires WellFormed(r.privs, r.privList)
    ensures s.stage == r.stage || s.stage in {RemCustomIe, StopIntfs, SetNewChannel, RestartIntfs, Off}
  {
    if r.privCurrIdx == FIRST_ENTRY then
      IssueAll(r, ForMasters(r.privs, r.privList, true)).(privCurrIdx := |r.privList|)
    else DoRemCustomIe(Enter(r, RemCustomIe))
  }

  function DoGetInfoBeaconDtim(r: Rdh): (s: Rdh)
    requires WellFormed(r.privs, r.privList)
    ensures s.stage == r.stage || s.stage in {SetCustomIe, RemCustomIe, StopIntfs, SetNewChannel, RestartIntfs, Off}
  {
    var j := RoleFrom(r.privs, r.privList, Uap, Next(r.privCurrIdx));
    var s := r.(privCurrIdx := j);
    if j < |r.privList| then Issue(s, GetBeaconDtim(r.privList[j]))
    else DoSetCustomIe(Enter(s, SetCustomIe))
  }

  /** The second half of the channel stage, for interface `q`. */
  function ChooseChannel(r: Rdh, q: nat, pick: nat): Rdh
    requires WellFormed(r.privs, r.privList) && q < |r.privs|
  {
    var s := r.(log := r.log + [MarkNop(r.currChannel)], newChannel := pick);
    if (pick == 0 || pick == r.currChannel) && r.privs[q].role.Uap? then Issue(s, BssStop(q)).(stage := Off)
    else DoGetInfoBeaconDtim(Enter(s, GetInfoBeaconDtim))
  }

  /** The interface whose stored channel stands for all stations: the first one, or the last interface if none. */
  function FirstSta(privs: seq<Priv>, list: seq<nat>): (q: nat)
    requires WellFormed(privs, list) && list != []
    ensures q < |privs| && q in list
  {
    var j := RoleFrom(privs, list, Sta, 0);
    if j < |list| then list[j] else list[|list| - 1]
  }

  function DoGetInfoChannel(r: Rdh, p: nat, info: Info): Rdh
    requires WellFormed(r.privs, r.privList) && p < |r.privs| && r.privList != []
  {
    if r.privCurrIdx == FIRST_ENTRY then
      if r.privs[p].role.Uap? then
        var j := IndexFrom(r.privList, p, 0);
        if j < |r.privList| then Issue(r.(privCurrIdx := j), GetChannel(p)) else r.(privCurrIdx := j)
      else
        var q := FirstSta(r.privs, r.privList);
        ChooseChannel(r.(currChannel := r.privs[q].bssChannel), q, info.pick)
    else if r.privCurrIdx < |r.privList| then ChooseChannel(r.(currChannel := info.reported), p, info.pick)
    else ChooseChannel(r, p, info.pick)
  }

  function DoStopTraffic(r: Rdh, p: nat, info: Info): Rdh
    requires WellFormed(r.privs, r.privList) && p < |r.privs| && r.privList != []
  {
    DoGetInfoChannel(Enter(r.(log := r.log + TxAll(r.privList, false)), GetInfoChannel), p, info)
  }

  function DoChkIntfs(r: Rdh, p: nat, info: Info): Rdh
    requires |r.privs| < FIRST_ENTRY && p < |r.privs|
  {
    var list := ActivePrivs(r.privs, 0);
    var s := r.(privList := list);
    if list == [] then s.(stage := Off)
    else DoStopTraffic(Enter(s.(currChannel := 0, newChannel := 0), StopTraffic), p, info)
  }

  /** One call of the handler for interface `p`. */
  function Handle(r: Rdh, p: nat, info: Info): Rdh
    requires |r.privs| < FIRST_ENTRY && p < |r.privs|
    requires !r.stage.ChkIntfs? && !r.stage.Off? ==> WellFormed(r.privs, r.privList) && r.privList != []
  {
    match r.stage
    case ChkIntfs => DoChkIntfs(r, p, info)
    case StopTraffic => DoStopTraffic(r, p, info)
    case GetInfoChannel => DoGetInfoChannel(r, p, info)
    case GetInfoBeaconDtim => DoGetInfoBeaconDtim(r)
    case SetCustomIe => DoSetCustomIe(r)
    case RemCustomIe => DoRemCustomIe(r)
    case StopIntfs => DoStopIntfs(r)
    case SetNewChannel => DoSetNewChannel(r)
    case RestartIntfs => DoRestartIntfs(r)
    case RestartTraffic => DoRestartTraffic(r)
    case Off => r
  }

  // ---- Command completions ----

  /**
   * The completion of `c` for an interface in state `q` calls the handler again only while the stage it belongs to
   * lasts, and for the start of an access point only if its 11h handling is not left to the host.
   */
  predicate Reenters(stage: Stage, c: Action, q: Priv) {
    match c
    case GetChannel(_) => true
    case GetBeaconDtim(_) => true
    case SetChannel(_, _) => true
    case SetIe(_) => stage.SetCustomIe? || stage.RemCustomIe?
    case RemIe(_) => stage.SetCustomIe? || stage.RemCustomIe?
    case BssStop(_) => stage.StopIntfs?
    case Deauth(_) => stage.StopIntfs?
    case AdhocStop(_) => stage.StopIntfs?
    case BssStart(_) => stage.RestartIntfs? && !q.host11h
    case AdhocStart(_, _) => stage.RestartIntfs?
    case _ => false
  }

  /** What the completed command, for a start with the event that follows it, has done to its interface. */
  function Effect(q: Priv, c: Action): Priv {
    match c
    case Deauth(_) => q.(connected := false, adhoc := AdhocIdle)
    case AdhocStop(_) => q.(connected := false, adhoc := AdhocIdle)
    case AdhocStart(_, _) => q.(connected := true, adhoc := AdhocStarted)
    case BssStop(_) => q.(bssStarted := false)
    case BssStart(_) => q.(bssStarted := true)
    case _ => q
  }

  ghost predicate CanComplete(r: Rdh, c: Action) {
    c in r.pending && !c.MarkNop? && c.p < |r.privs| < FIRST_ENTRY
    && (!r.stage.ChkIntfs? && !r.stage.Off? ==> WellFormed(r.privs, r.privList) && r.privList != [])
  }

  /** A pending command completes. */
  function Complete(r: Rdh, c: Action, info: Info): Rdh
    requires CanComplete(r, c)
  {
    var s := r.(pending := r.pending - multiset{c}, privs := r.privs[c.p := Effect(r.privs[c.p], c)]);
    if Reenters(r.stage, c, s.privs[c.p]) then Handle(s, c.p, info) else s
  }
}
