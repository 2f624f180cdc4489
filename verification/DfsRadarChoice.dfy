/** Radar handling together with the channel selector: a run gives up exactly when there is nothing to move to. */
module DfsRadarChoice {
  import opened Wrappers
  import opened DfsNop
  import opened DfsRegion
  import opened DfsSelect
  import opened DfsRadar
  import opened DfsRadarRuns
  import opened DfsRadarTheorems
  import opened DfsRadarProgress

  /** Once past the channel stage, a run keeps its channels. */
  lemma {:induction false} RunKeepsChannels(x: Run, r: Rdh, cs: seq<(Action, Info)>, s: Rdh)
    requires Inv(x, r) && r.stage != GetInfoChannel && IsRun(r, cs, s)
    ensures s.currChannel == r.currChannel && s.newChannel == r.newChannel && Inv(x, s)
    decreases |cs|
  {
    hide Inv, Complete, CanComplete, Same;
    if cs != [] {
      var t := Complete(r, cs[0].0, cs[0].1);
      StageIs(x, r);
      if r.stage == Off {
        StepFromOff(x, r, cs[0].0, cs[0].1);
      } else {
        StepFromActive(x, r, cs[0].0, cs[0].1);
        PastChannel(x, r, cs[0].0, cs[0].1);
      }
      RunKeepsChannels(x, t, cs[1..], s);
      ChannelsOf(x, r);
      ChannelsOf(x, t);
    }
  }

  lemma ChannelsOf(x: Run, r: Rdh)
    requires Inv(x, r)
    ensures r.currChannel == x.curr && r.newChannel == x.chosen
  {
    StageIs(x, r);
  }

  /** No step leads back to the channel stage. */
  lemma PastChannel(x: Run, r: Rdh, c: Action, info: Info)
    requires Inv(x, r) && r.stage != GetInfoChannel && r.stage != Off && c in r.pending
    ensures CanComplete(r, c) && Complete(r, c, info).stage != GetInfoChannel
  {
    hide Inv, Effect, Reenters, DoChkIntfs, DoStopTraffic, DoGetInfoChannel, DoGetInfoBeaconDtim, DoSetCustomIe,
      DoRemCustomIe, DoStopIntfs, DoSetNewChannel, DoRestartIntfs, DoRestartTraffic, Ok, ChannelChosen, AwaitingDtim,
      AwaitingIe, AwaitingStop, AwaitingSet, AwaitingStart, Halted;
    StepFromActive(x, r, c, info);
    StageIs(x, r);
  }

  /** The answer to the first command of a run on an access point. */
  lemma ChannelAnswered(x: Run, r: Rdh, info: Info)
    requires Inv(x, r) && AwaitingChannel(x, r)
    ensures GetChannel(x.first) in r.pending && CanComplete(r, GetChannel(x.first))
    ensures var t := Complete(r, GetChannel(x.first), info);
            && Inv(Now(x, t), t) && t.stage != GetInfoChannel
            && t.currChannel == info.reported && t.newChannel == info.pick
  {
    var c := GetChannel(x.first);
    StepFromChannel(x, r, c, info);
    hide Inv, DoGetInfoBeaconDtim, Opening;
    var p := r.(pending := r.pending - multiset{c}, privs := r.privs[c.p := Effect(r.privs[c.p], c)],
                currChannel := info.reported);
    DtimKeepsChannels(Enter(p.(log := p.log + [MarkNop(info.reported)], newChannel := info.pick), GetInfoBeaconDtim));
  }

  lemma DetectAsks(privs: seq<Priv>, first: nat, r: Rdh, info: Info)
    requires |privs| < FIRST_ENTRY && first < |privs| && NothingToRestart(privs)
    requires privs[first].role.Uap? && IsActive(privs[first])
    ensures ActivePrivs(privs, 0) != []
    ensures var t := Detect(privs, first, r, info);
            var x := RunOf(privs, first, t);
            Inv(x, t) && AwaitingChannel(x, t)
  {
    ActiveCovers(privs, 0, first);
    DetectInv(privs, first, r, info);
    DetectChannels(privs, first, r, info);
    hide Detect, ActivePrivs, Inv, Opening, TxAll, NothingToRestart;
    var t := Detect(privs, first, r, info);
    StageIs(RunOf(privs, first, t), t);
  }

  /**
   * Radar on an active access point, whose reported channel goes on the non-occupancy list before the selector is
   * asked: the run that follows ends by stopping it exactly when no entry of the region's 5 GHz table is acceptable;
   * otherwise it ends with all interfaces moved to an acceptable channel other than the one hit.
   */
  lemma RunWithSelector(privs: seq<Priv>, first: nat, r: Rdh, info: Info, reported: nat,
                        rest: seq<(Action, Info)>, e: Rdh, s: Search, ts: seq<Timestamp>, seeds: seq<nat>,
                        region: nat, bands: set<Band>, bg: Option<CfpTable>, a: Option<CfpTable>)
    requires |privs| < FIRST_ENTRY && first < |privs| && NothingToRestart(privs)
    requires privs[first].role.Uap? && IsActive(privs[first]) && OnePerChannel(ts)
    requires |s.regions| == |seeds| && Built5GHz(s, region, bands, bg, a)
    requires HasATable(bands, bg, a) && region == s.regionCode
    requires forall k :: 0 <= k < |a.value| ==> Chan(a.value[k]) != 0
    requires var pick := UapStart(s, Marking(ts, Timestamp(reported, s.now, NopStart)), seeds, true, true);
             IsRun(Detect(privs, first, r, info), [(GetChannel(first), Info(reported, pick))] + rest, e)
    requires e.stage == Off
    ensures var marked := Marking(ts, Timestamp(reported, s.now, NopStart));
            var x := RunOf(privs, first, e);
            && Ok(x)
            && if forall k :: 0 <= k < |a.value| ==> !Acceptable(s, marked, a.value[k]) then GaveUp(x, e)
               else && Finished(x, e) && e.newChannel != reported
                    && exists k :: 0 <= k < |a.value| && Acceptable(s, marked, a.value[k])
                                   && Chan(a.value[k]) == e.newChannel
  {
    var marked := Marking(ts, Timestamp(reported, s.now, NopStart));
    var pick := UapStart(s, marked, seeds, true, true);
    SelectorVerdict(s, ts, seeds, reported, region, bands, bg, a);
    DetectAsks(privs, first, r, info);
    var t := Detect(privs, first, r, info);
    var x := RunOf(privs, first, t);
    RunFirst(t, GetChannel(first), Info(reported, pick), rest, e);
    ChannelAnswered(x, t, Info(reported, pick));
    var u := Complete(t, GetChannel(first), Info(reported, pick));
    hide Inv, IsRun, Complete, CanComplete, Detect, ActivePrivs, UapStart, Acceptable, Chan, Marking,
      NothingToRestart, AwaitingChannel, BeforeDtim, FullTrace, RestartedUpTo, Distinct, WellFormed, NoHostAp,
      Built5GHz, OnePerChannel;
    RunKeepsChannels(Now(x, u), u, rest, e);
    StageIs(Now(x, u), e);
  }

  lemma RunFirst(r: Rdh, c: Action, info: Info, rest: seq<(Action, Info)>, s: Rdh)
    requires IsRun(r, [(c, info)] + rest, s)
    ensures c in r.pending && CanComplete(r, c) && IsRun(Complete(r, c, info), rest, s)
  {
    var cs := [(c, info)] + rest;
    assert cs[0] == (c, info) && cs[1..] == rest;
  }

  /** What the selector makes of the hit, on the tables as they were set. */
  lemma SelectorVerdict(s: Search, ts: seq<Timestamp>, seeds: seq<nat>, curr: nat,
                        region: nat, bands: set<Band>, bg: Option<CfpTable>, a: Option<CfpTable>)
    requires |s.regions| == |seeds| && Built5GHz(s, region, bands, bg, a) && OnePerChannel(ts)
    requires HasATable(bands, bg, a) && region == s.regionCode
    requires forall k :: 0 <= k < |a.value| ==> Chan(a.value[k]) != 0
    ensures var marked := Marking(ts, Timestamp(curr, s.now, NopStart));
            var c := UapStart(s, marked, seeds, true, true);
            && (c == 0 || c == curr <==> forall k :: 0 <= k < |a.value| ==> !Acceptable(s, marked, a.value[k]))
            && (c != 0 ==> exists k :: 0 <= k < |a.value| && Acceptable(s, marked, a.value[k]) && Chan(a.value[k]) == c)
  {
    hide UapStart, Acceptable, Chan, Matches, Built5GHz, Marking, OnePerChannel;
    MatchesOnce(s, region, bands, bg, a);
    var m: nat :| OnlyMatch(s, m) && s.regions[m].cfps == a.value;
    GivesUpExactly(s, ts, seeds, m, curr);
    UapStartExactly(s, Marking(ts, Timestamp(curr, s.now, NopStart)), seeds, m);
  }
}
