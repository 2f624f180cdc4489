/** What a run does to each interface, action by action, and which interfaces and whose channel it concerns. */
module DfsRadarDuties {
  import opened DfsRadar
  import opened DfsRadarRuns
  import opened DfsRadarTheorems
  import opened DfsRadarProgress

  lemma {:induction false} TxOnce(list: seq<nat>, enable: bool, n: nat, j: nat)
    requires Distinct(list) && n <= |list| && j < |list|
    ensures Times(TxAll(list, enable)[..n], if enable then TxEnable(list[j]) else TxDisable(list[j]))
         == if j < n then 1 else 0
    ensures Times(TxAll(list, enable)[..n], if enable then TxDisable(list[j]) else TxEnable(list[j])) == 0
  {
    var acts := TxAll(list, enable);
    if n > 0 {
      TxOnce(list, enable, n - 1, j);
      assert acts[..n] == acts[..n - 1] + [acts[n - 1]];
      if j != n - 1 {
        DifferentPrivs(list, j, n - 1);
      }
    }
  }

  /** Traffic of a listed interface is disabled once, at the start, and enabled once, at the end. */
  lemma TrafficOnce(x: Run, j: nat)
    requires Ok(x) && j < |x.list|
    ensures var p, t := x.list[j], FullTrace(x); Times(t, TxDisable(p)) == 1 && Times(t, TxEnable(p)) == 1
  {
    hide Ok, FullTrace, Times, Distinct, TxAll;
    var p := x.list[j];
    ListIsDistinct(x);
    TxOnce(x.list, false, |x.list|, j);
    TxOnce(x.list, true, |x.list|, j);
    assert TxAll(x.list, false)[..|x.list|] == TxAll(x.list, false);
    assert TxAll(x.list, true)[..|x.list|] == TxAll(x.list, true);
    TimesAround(x, TxDisable(p));
    TimesAround(x, TxEnable(p));
    NotUapTraffic(x, p);
    NoTraffic([MarkNop(x.curr)], p);
  }

  lemma NotUapTraffic(x: Run, p: nat)
    requires Ok(x)
    ensures var acts := UapOnly(x.p0[x.first], GetChannel(x.first));
            Times(acts, TxDisable(p)) == 0 && Times(acts, TxEnable(p)) == 0
  {
    NoTraffic(UapOnly(x.p0[x.first], GetChannel(x.first)), p);
  }

  lemma NoTraffic(acts: seq<Action>, p: nat)
    requires forall i :: 0 <= i < |acts| ==> !acts[i].TxDisable? && !acts[i].TxEnable?
    ensures Times(acts, TxDisable(p)) == 0 && Times(acts, TxEnable(p)) == 0
  {
    assert TxDisable(p) !in acts && TxEnable(p) !in acts;
  }

  lemma ListIsDistinct(x: Run)
    requires Ok(x)
    ensures Distinct(x.list)
  {
  }

  /** What occurs in the full trace and is no command of a stage occurs in its first or last part. */
  lemma TimesAround(x: Run, a: Action)
    requires Ok(x) && (a.TxDisable? || a.TxEnable? || a.GetChannel? || a.MarkNop?)
    ensures Times(FullTrace(x), a)
         == Times(TxAll(x.list, false), a) + Times(UapOnly(x.p0[x.first], GetChannel(x.first)), a)
            + Times([MarkNop(x.curr)], a) + Times(TxAll(x.list, true), a)
  {
    hide Times, All, TxAll, Distinct, NothingToRestart, UapOnly;
    TimesConcat(TxAll(x.list, false), UapOnly(x.p0[x.first], GetChannel(x.first)), a);
    TimesConcat(Opening(x), [MarkNop(x.curr)], a);
    TimesConcat(BeforeDtim(x), All(x, AskDtim), a);
    TimesConcat(BeforeAdd(x), All(x, AddIe), a);
    TimesConcat(BeforeDrop(x), All(x, DropIe), a);
    TimesConcat(BeforeStop(x), All(x, Stop), a);
    TimesConcat(BeforeSet(x), All(x, Set), a);
    TimesConcat(BeforeStart(x), All(x, Start), a);
    TimesConcat(BeforeEnable(x), TxAll(x.list, true), a);
    NotInStage(x, AskDtim, a);
    NotInStage(x, AddIe, a);
    NotInStage(x, DropIe, a);
    NotInStage(x, Stop, a);
    NotInStage(x, Set, a);
    NotInStage(x, Start, a);
  }

  lemma NotInStage(x: Run, k: Kind, a: Action)
    requires Ok(x) && (a.TxDisable? || a.TxEnable? || a.GetChannel? || a.MarkNop?)
    ensures Times(All(x, k), a) == 0
  {
    hide Each, Distinct, NothingToRestart;
    EachInPlace(x, k, |x.list|);
    assert forall i :: 0 <= i < |All(x, k)| ==> Place(All(x, k)[i]) == KindPlace(k);
    assert Place(a) != KindPlace(k);
    assert a !in All(x, k);
  }

  lemma {:induction false} TxOther(list: seq<nat>, enable: bool, a: Action)
    requires !a.TxDisable? && !a.TxEnable?
    ensures Times(TxAll(list, enable), a) == 0
  {
    assert a !in TxAll(list, enable);
  }

  /** The access point hit is asked for its channel once; exactly the channel in use goes on the list, and once. */
  lemma AskedAndMarkedOnce(x: Run, p: nat, channel: nat)
    requires Ok(x)
    ensures Times(FullTrace(x), GetChannel(p)) == if p == x.first && x.p0[p].role.Uap? then 1 else 0
    ensures Times(FullTrace(x), MarkNop(channel)) == if channel == x.curr then 1 else 0
  {
    hide FullTrace, TxAll, Distinct, NothingToRestart;
    TimesAround(x, GetChannel(p));
    TimesAround(x, MarkNop(channel));
    TxOther(x.list, false, GetChannel(p));
    TxOther(x.list, true, GetChannel(p));
    TxOther(x.list, false, MarkNop(channel));
    TxOther(x.list, true, MarkNop(channel));
  }

  /** How often an action is to be done to an active interface found in state `q`. */
  function Due(q: Priv, a: Action, chosen: nat): nat {
    var due :=
      match a
      case TxDisable(_) => true
      case TxEnable(_) => true
      case GetBeaconDtim(_) => q.role == Uap
      case SetIe(_) => q.role == Uap || (q.ibss && q.adhoc in {AdhocStarted, AdhocStarting})
      case RemIe(_) => q.role == Uap || (q.ibss && q.adhoc in {AdhocStarted, AdhocStarting})
      case BssStop(_) => q.role == Uap
      case AdhocStop(_) => q.role == Sta && q.ibss
      case Deauth(_) => q.role == Sta && !q.ibss
      case SetChannel(_, c) => q.role == Uap && c == chosen
      case BssStart(_) => q.role == Uap
      case AdhocStart(_, c) => q.role == Sta && q.ibss && q.adhoc == AdhocStarted && c == chosen
      case GetChannel(_) => false
      case MarkNop(_) => false;
    if due then 1 else 0
  }

  /**
   * In a complete run, for every active interface and every action on it but the question for the channel: traffic is
   * disabled once and enabled once; an access point is asked for its beacon period, stopped, set to the new channel and
   * started once each, and to no other channel; a station is taken off its network once, by the command for its kind
   * of network; a creator of an ad-hoc network starts it once, on the new channel; a master announces the switch once
   * and withdraws that once. Nothing else is done to it.
   */
  lemma EachInterfaceOnce(x: Run, j: nat, a: Action)
    requires Ok(x) && j < |x.list| && !a.MarkNop? && !a.GetChannel? && a.p == x.list[j]
    ensures Times(FullTrace(x), a) == Due(x.p0[x.list[j]], a, x.chosen)
  {
    hide Times, FullTrace, Ok, IsActive;
    if a.TxDisable? || a.TxEnable? {
      TrafficOnce(x, j);
    } else {
      CommandOnce(x, j, a);
    }
  }

  lemma CommandOnce(x: Run, j: nat, a: Action)
    requires Ok(x) && j < |x.list| && !a.MarkNop? && a.p == x.list[j] && 4 <= Place(a) <= 9
    ensures Times(FullTrace(x), a) == Due(x.p0[x.list[j]], a, x.chosen)
  {
    hide Times, FullTrace, Distinct, NothingToRestart, Does, Due, Place, KindOf, IsActive;
    TimesFor(x, j, a);
    DoesWhatIsDue(x.p0[a.p], a, x.chosen);
  }

  lemma DoesWhatIsDue(q: Priv, a: Action, chosen: nat)
    requires 4 <= Place(a) <= 9 && !a.MarkNop?
    ensures Due(q, a, chosen) == if Does(KindOf(a), q, a.p, chosen, a) then 1 else 0
  {
  }

  /** No other interface is touched, but for the question to the one hit. */
  lemma OthersUntouched(x: Run, a: Action)
    requires Ok(x) && a in FullTrace(x) && !a.MarkNop? && !a.GetChannel?
    ensures a.p in x.list
  {
    hide Times, FullTrace, TxAll, All, Distinct, NothingToRestart, UapOnly;
    InMeansTimes(FullTrace(x), a);
    if a.p !in x.list {
      NotTouched(x, a);
    }
  }

  lemma InMeansTimes(log: seq<Action>, a: Action)
    requires a in log
    ensures Times(log, a) > 0
  {
  }

  lemma NotTouched(x: Run, a: Action)
    requires Ok(x) && !a.MarkNop? && !a.GetChannel? && a.p !in x.list
    ensures Times(FullTrace(x), a) == 0
  {
    hide Times, FullTrace, TxAll, Distinct, NothingToRestart, UapOnly, Each;
    if a.TxDisable? || a.TxEnable? {
      TimesAround(x, a);
      NotUapTraffic(x, a.p);
      NoTraffic([MarkNop(x.curr)], a.p);
      TxListed(x.list, true, a);
      TxListed(x.list, false, a);
    } else {
      TimesFull(x, a);
      StageListed(x, AskDtim, |x.list|, a);
      StageListed(x, AddIe, |x.list|, a);
      StageListed(x, DropIe, |x.list|, a);
      StageListed(x, Stop, |x.list|, a);
      StageListed(x, Set, |x.list|, a);
      StageListed(x, Start, |x.list|, a);
    }
  }

  lemma TxListed(list: seq<nat>, enable: bool, a: Action)
    requires !a.MarkNop? && a.p !in list
    ensures Times(TxAll(list, enable), a) == 0
  {
    assert a !in TxAll(list, enable);
  }

  lemma {:induction false} StageListed(x: Run, k: Kind, n: nat, a: Action)
    requires WellFormed(x.p0, x.list) && n <= |x.list| && !a.MarkNop? && a.p !in x.list
    ensures Times(Each(x, k, n), a) == 0
  {
    hide ActionsFor, Does;
    if n > 0 {
      StageListed(x, k, n - 1, a);
      var p := x.list[n - 1];
      TimesConcat(Each(x, k, n - 1), ActionsFor(k, x.p0[p], p, x.chosen), a);
      TimesActs(k, x.p0[p], p, x.chosen, a);
    }
  }

  // ---- Who takes part, and whose channel counts ----

  /** The active interfaces are the started access points and the connected stations. */
  lemma {:induction false} ActiveFrom(privs: seq<Priv>, i: nat, p: nat)
    requires i <= p < |privs|
    ensures p in ActivePrivs(privs, i)
       <==> if privs[p].role == Uap then privs[p].bssStarted else privs[p].connected
    decreases |privs| - i
  {
    if i < p {
      ActiveFrom(privs, i + 1, p);
    } else {
      assert IsActive(privs[p]) ==> ActivePrivs(privs, p)[0] == p;
    }
  }

  lemma ActiveExactly(privs: seq<Priv>, p: nat)
    requires p < |privs|
    ensures p in ActivePrivs(privs, 0)
       <==> if privs[p].role == Uap then privs[p].bssStarted else privs[p].connected
  {
    ActiveFrom(privs, 0, p);
  }

  /** A hit reported by a station: the first active station's channel counts, or the last interface's if none is. */
  lemma StationHit(privs: seq<Priv>, first: nat, r: Rdh, info: Info)
    requires |privs| < FIRST_ENTRY && first < |privs| && ActivePrivs(privs, 0) != [] && privs[first].role == Sta
    ensures var s, list := Detect(privs, first, r, info), ActivePrivs(privs, 0);
            && s.newChannel == info.pick
            && (forall k :: 0 <= k < |list| && privs[list[k]].role == Sta
                            && (forall i :: 0 <= i < k ==> privs[list[i]].role == Uap)
                            ==> s.currChannel == privs[list[k]].bssChannel)
            && ((forall k :: 0 <= k < |list| ==> privs[list[k]].role == Uap)
                ==> s.currChannel == privs[list[|list| - 1]].bssChannel)
  {
    hide Detect, ActivePrivs, RoleFrom;
    var list := ActivePrivs(privs, 0);
    StaFrom(privs, list, 0);
    DetectChannels(privs, first, r, info);
  }

  lemma {:induction false} StaFrom(privs: seq<Priv>, list: seq<nat>, i: nat)
    requires WellFormed(privs, list) && i <= |list|
    ensures var j := RoleFrom(privs, list, Sta, i);
            && j <= |list| && (j < |list| ==> privs[list[j]].role == Sta)
            && (forall k :: i <= k < j ==> privs[list[k]].role == Uap)
    decreases |list| - i
  {
    if i < |list| && privs[list[i]].role != Sta {
      StaFrom(privs, list, i + 1);
    }
  }
}
