/** Choosing an operating channel from the region's tables by a random starting point (mlan_11h.c). */
module DfsSelect {
  import opened Wrappers
  import opened DfsNop
  import opened DfsRegion

  const DEFAULT_AD_HOC_CHANNEL := 6
  const DEFAULT_AD_HOC_CHANNEL_A := 36
  const MAX_SWITCH_CHANNEL_RETRIES := 30

  datatype Width = Bw20MHz | Bw40MHz | Bw80MHz

  /** What a search depends on besides the non-occupancy list. */
  datatype Search = Search(
    regions: seq<RegionTable>,
    regionCode: nat,
    width: Width,
    connectedChan: Option<nat>,
    gettingInfo: bool,
    now: nat)

  function Chan(e: Cfp): nat {
    e.channel % U8
  }

  /** wlan_11h_is_chan_band_valid */
  predicate BandValid(e: Cfp, width: Width) {
    && !e.disabled
    && !(Chan(e) == 165 && !width.Bw20MHz?)
    && !(width.Bw40MHz? && e.noHt40)
  }

  /** The radar flag of the first entry for a channel. */
  predicate RadarFlag(cfps: seq<Cfp>, channel: nat) {
    cfps != [] && if cfps[0].channel == channel then cfps[0].radar else RadarFlag(cfps[1..], channel)
  }

  /** The entries of the first table marked for the A band and nothing else. */
  function FirstATable(regions: seq<RegionTable>): seq<Cfp> {
    if regions == [] then []
    else if regions[0].RegionTable? && regions[0].bands == {BandA} then regions[0].cfps
    else FirstATable(regions[1..])
  }

  /** wlan_11h_radar_detect_required */
  predicate RadarRequired(s: Search, channel: nat) {
    RadarFlag(FirstATable(s.regions), channel) && s.connectedChan != Some(channel)
  }

  predicate Acceptable(s: Search, ts: seq<Timestamp>, e: Cfp) {
    && BandValid(e, s.width)
    && !UnderNop(ts, Chan(e), s.now)
    && !(s.gettingInfo && RadarRequired(s, Chan(e)))
  }

  predicate Matches(s: Search, t: RegionTable): (r: bool)
    ensures r ==> t.RegionTable?
  {
    IsATable(t) && t.region == s.regionCode
  }

  // ---- The probe of one table ----

  function Verdicts(s: Search, ts: seq<Timestamp>, cfps: seq<Cfp>): (good: seq<bool>)
    ensures |good| == |cfps|
    ensures forall k :: 0 <= k < |cfps| ==> good[k] == Acceptable(s, ts, cfps[k])
  {
    seq(|cfps|, k requires 0 <= k < |cfps| => Acceptable(s, ts, cfps[k]))
  }

  /** Steps the 8-bit try counter can still take before it stops the probe. */
  function TriesLeft(n: nat, tries: nat): int {
    if tries < n then n - tries else n + U8 - tries
  }

  /** Where a probe stops, and with what count. */
  function Probe(good: seq<bool>, at: nat, tries: nat): (nat, nat)
    requires at < |good| < U8 && tries < U8
    decreases TriesLeft(|good|, tries)
  {
    var t := (tries + 1) % U8;
    if good[at] then (at, tries)
    else if t < |good| then Probe(good, (at + 1) % |good|, t)
    else (at, t)
  }

  /** The entry `j` steps after `r`, going round. */
  function Cyclic(r: nat, j: nat, n: nat): (k: nat)
    requires r < n && j < n
    ensures k < n
  {
    if r + j < n then r + j else r + j - n
  }

  /** Nothing among the first `t` entries from `r` on is good. */
  ghost predicate NoneGood(good: seq<bool>, r: nat, t: nat)
    requires r < |good| && t <= |good|
  {
    forall j :: 0 <= j < t ==> !good[Cyclic(r, j, |good|)]
  }

  lemma NextMod(at: nat, n: nat)
    requires at < n
    ensures (at + 1) % n == if at + 1 < n then at + 1 else 0
  {
  }

  /** Different steps of one round reach different entries, and a round reaches every entry. */
  lemma CyclicCovers(r: nat, n: nat, k: nat)
    requires r < n && k < n
    ensures exists j :: 0 <= j < n && Cyclic(r, j, n) == k
  {
    var j := if k >= r then k - r else k + n - r;
    assert Cyclic(r, j, n) == k;
  }

  lemma ProbeStep(good: seq<bool>, at: nat, tries: nat)
    requires at < |good| < U8 && tries < U8
    ensures good[at] ==> Probe(good, at, tries) == (at, tries)
    ensures var t := (tries + 1) % U8;
            !good[at] ==> Probe(good, at, tries) == if t < |good| then Probe(good, (at + 1) % |good|, t) else (at, t)
  {
  }

  lemma NoneGoodNext(good: seq<bool>, r: nat, t: nat)
    requires r < |good| && t < |good| && NoneGood(good, r, t) && !good[Cyclic(r, t, |good|)]
    ensures NoneGood(good, r, t + 1)
    ensures t + 1 < |good| ==> (Cyclic(r, t, |good|) + 1) % |good| == Cyclic(r, t + 1, |good|)
  {
    NextMod(Cyclic(r, t, |good|), |good|);
  }

  lemma {:induction false} ProbeRound(good: seq<bool>, r: nat, at: nat, tries: nat)
    requires r < |good| < U8 && tries < |good| && at == Cyclic(r, tries, |good|) && NoneGood(good, r, tries)
    ensures var (a, t) := Probe(good, at, tries);
            && t <= |good| && NoneGood(good, r, t)
            && (t < |good| ==> a < |good| && good[a] && a == Cyclic(r, t, |good|))
    decreases |good| - tries
  {
    hide Probe, NoneGood, Cyclic;
    ProbeStep(good, at, tries);
    if !good[at] {
      NoneGoodNext(good, r, tries);
      if tries + 1 < |good| {
        ProbeRound(good, r, (at + 1) % |good|, tries + 1);
      }
    }
  }

  /**
   * From any starting entry the probe fails exactly when no entry is good; otherwise it stops at the first good
   * one of the round, having tried as many entries as it lies ahead, no entry twice.
   */
  lemma ProbeExactly(good: seq<bool>, r: nat)
    requires r < |good| < U8
    ensures var (a, t) := Probe(good, r, 0);
            && (t == |good| <==> forall k :: 0 <= k < |good| ==> !good[k])
            && (t != |good| ==> t < |good| && a == Cyclic(r, t, |good|) && good[a] && NoneGood(good, r, t))
    ensures forall i, j :: 0 <= i < j < |good| ==> Cyclic(r, i, |good|) != Cyclic(r, j, |good|)
  {
    var n := |good|;
    ProbeRound(good, r, r, 0);
    forall k | 0 <= k < n && NoneGood(good, r, n)
      ensures !good[k]
    {
      CyclicCovers(r, n, k);
    }
  }

  // ---- The UAP start channel ----

  /** The outcome of probing one table: a channel or 0, and the try counter. */
  function TableChoice(s: Search, ts: seq<Timestamp>, cfps: CfpTable, seed: nat, tries: nat): (r: (nat, nat))
    requires tries < U8
    ensures r.1 < U8
  {
    var (a, t) := Probe(Verdicts(s, ts, cfps), seed % |cfps|, tries);
    (if t == |cfps| || a >= |cfps| then 0 else Chan(cfps[a]), t % U8)
  }

  /** The choice over the tables from `i` on; a later matching table overrides an earlier one. */
  function ChoiceFrom(s: Search, ts: seq<Timestamp>, seeds: seq<nat>, i: nat, start: nat, tries: nat): nat
    requires i <= |s.regions| == |seeds| && tries < U8
    decreases |s.regions| - i
  {
    if i == |s.regions| then start
    else if !Matches(s, s.regions[i]) then ChoiceFrom(s, ts, seeds, i + 1, start, tries)
    else
      var (c, t) := TableChoice(s, ts, s.regions[i].cfps, seeds[i], tries);
      ChoiceFrom(s, ts, seeds, i + 1, c, t)
  }

  function UapStart(s: Search, ts: seq<Timestamp>, seeds: seq<nat>, is5GHz: bool, is11hEnabled: bool): nat
    requires |s.regions| == |seeds|
  {
    if !is5GHz then DEFAULT_AD_HOC_CHANNEL
    else if !is11hEnabled then DEFAULT_AD_HOC_CHANNEL_A
    else ChoiceFrom(s, ts, seeds, 0, DEFAULT_AD_HOC_CHANNEL_A, 0)
  }

  /** Exactly the table at `m` matches. */
  ghost predicate OnlyMatch(s: Search, m: nat) {
    && m < |s.regions| && Matches(s, s.regions[m])
    && forall i :: 0 <= i < |s.regions| ==> (Matches(s, s.regions[i]) <==> i == m)
  }

  lemma TableChoiceExactly(s: Search, ts: seq<Timestamp>, cfps: CfpTable, seed: nat)
    requires forall k :: 0 <= k < |cfps| ==> Chan(cfps[k]) != 0
    ensures var c := TableChoice(s, ts, cfps, seed, 0).0;
            && (c == 0 <==> forall k :: 0 <= k < |cfps| ==> !Acceptable(s, ts, cfps[k]))
            && (c != 0 ==> exists k :: 0 <= k < |cfps| && Acceptable(s, ts, cfps[k]) && Chan(cfps[k]) == c)
  {
    hide Probe, Acceptable, Cyclic, NoneGood, Chan;
    ProbeExactly(Verdicts(s, ts, cfps), seed % |cfps|);
  }

  lemma {:induction false} ChoiceSkips(s: Search, ts: seq<Timestamp>, seeds: seq<nat>, i: nat, start: nat, tries: nat)
    requires i <= |s.regions| == |seeds| && tries < U8
    requires forall j :: i <= j < |s.regions| ==> !Matches(s, s.regions[j])
    ensures ChoiceFrom(s, ts, seeds, i, start, tries) == start
    decreases |s.regions| - i
  {
    if i < |s.regions| {
      ChoiceSkips(s, ts, seeds, i + 1, start, tries);
    }
  }

  lemma {:induction false} ChoiceIsTables(s: Search, ts: seq<Timestamp>, seeds: seq<nat>, i: nat, m: nat, start: nat)
    requires i <= m && |s.regions| == |seeds| && OnlyMatch(s, m)
    ensures ChoiceFrom(s, ts, seeds, i, start, 0) == TableChoice(s, ts, s.regions[m].cfps, seeds[m], 0).0
    decreases m - i
  {
    hide TableChoice, Matches;
    if i < m {
      ChoiceIsTables(s, ts, seeds, i + 1, m, start);
    } else {
      var (c, t) := TableChoice(s, ts, s.regions[m].cfps, seeds[m], 0);
      ChoiceSkips(s, ts, seeds, m + 1, c, t);
    }
  }

  /**
   * On 5 GHz with 11h enabled and one matching table, for every seed: 0 exactly when no entry of the table is
   * acceptable, otherwise the channel of an acceptable one.
   */
  lemma UapStartExactly(s: Search, ts: seq<Timestamp>, seeds: seq<nat>, m: nat)
    requires |s.regions| == |seeds| && OnlyMatch(s, m)
    requires forall k :: 0 <= k < |s.regions[m].cfps| ==> Chan(s.regions[m].cfps[k]) != 0
    ensures var cfps, c := s.regions[m].cfps, UapStart(s, ts, seeds, true, true);
            && (c == 0 <==> forall k :: 0 <= k < |cfps| ==> !Acceptable(s, ts, cfps[k]))
            && (c != 0 ==> exists k :: 0 <= k < |cfps| && Acceptable(s, ts, cfps[k]) && Chan(cfps[k]) == c)
  {
    hide TableChoice, Acceptable, Chan, Matches;
    ChoiceIsTables(s, ts, seeds, 0, m, DEFAULT_AD_HOC_CHANNEL_A);
    TableChoiceExactly(s, ts, s.regions[m].cfps, seeds[m]);
  }

  /** A channel just marked by radar is not chosen. */
  lemma UapLeavesRadarChannel(s: Search, ts: seq<Timestamp>, seeds: seq<nat>, m: nat, curr: nat)
    requires |s.regions| == |seeds| && OnlyMatch(s, m) && OnePerChannel(ts)
    requires forall k :: 0 <= k < |s.regions[m].cfps| ==> Chan(s.regions[m].cfps[k]) != 0
    ensures var c := UapStart(s, Marking(ts, Timestamp(curr, s.now, NopStart)), seeds, true, true);
            c == 0 || c != curr
  {
    var t := Timestamp(curr, s.now, NopStart);
    hide UapStart, OnlyMatch, BandValid, RadarRequired, Chan, Marking;
    UapStartExactly(s, Marking(ts, t), seeds, m);
    MarkingLooksUp(ts, t, curr);
  }

  /**
   * So the handling of a radar hit on `curr`, which gives up when it gets 0 or `curr`, gives up exactly when no
   * entry of the table is acceptable once the hit is on the list.
   */
  lemma GivesUpExactly(s: Search, ts: seq<Timestamp>, seeds: seq<nat>, m: nat, curr: nat)
    requires |s.regions| == |seeds| && OnlyMatch(s, m) && OnePerChannel(ts)
    requires forall k :: 0 <= k < |s.regions[m].cfps| ==> Chan(s.regions[m].cfps[k]) != 0
    ensures var cfps, marked := s.regions[m].cfps, Marking(ts, Timestamp(curr, s.now, NopStart));
            var c := UapStart(s, marked, seeds, true, true);
            c == 0 || c == curr <==> forall k :: 0 <= k < |cfps| ==> !Acceptable(s, marked, cfps[k])
  {
    hide UapStart, Acceptable, Chan, Marking, Matches, OnePerChannel;
    UapLeavesRadarChannel(s, ts, seeds, m, curr);
    UapStartExactly(s, Marking(ts, Timestamp(curr, s.now, NopStart)), seeds, m);
  }

  /** The slots are those wlan_set_regiontable left. */
  ghost predicate Built5GHz(s: Search, region: nat, bands: set<Band>, bg: Option<CfpTable>, a: Option<CfpTable>) {
    s.regions == Built(region, bands, bg, a)
  }

  /** There never are two matching tables, and there is one exactly when a 5 GHz table was set for this region. */
  lemma MatchesOnce(s: Search, region: nat, bands: set<Band>, bg: Option<CfpTable>, a: Option<CfpTable>)
    requires Built5GHz(s, region, bands, bg, a)
    ensures if HasATable(bands, bg, a) && region == s.regionCode
            then exists m: nat :: OnlyMatch(s, m) && s.regions[m].cfps == a.value
            else forall i :: 0 <= i < |s.regions| ==> !Matches(s, s.regions[i])
  {
    OneATable(region, bands, bg, a);
    if HasATable(bands, bg, a) && region == s.regionCode {
      var m: nat :| m < |s.regions| && IsATable(s.regions[m]);
      assert OnlyMatch(s, m);
    }
  }

  /**
   * The UAP start channel on 5 GHz with 11h on, for whatever tables were set and for every seed. With a 5 GHz
   * table for the region the choice is right: 0 exactly when no entry is acceptable, else an acceptable one.
   * Without one channel 36 comes out, acceptable or not.
   */
  lemma UapStartOnTables(s: Search, ts: seq<Timestamp>, seeds: seq<nat>,
                         region: nat, bands: set<Band>, bg: Option<CfpTable>, a: Option<CfpTable>)
    requires |s.regions| == |seeds| && Built5GHz(s, region, bands, bg, a)
    requires a.Some? ==> forall k :: 0 <= k < |a.value| ==> Chan(a.value[k]) != 0
    ensures var c := UapStart(s, ts, seeds, true, true);
            if HasATable(bands, bg, a) && region == s.regionCode then
              && (c == 0 <==> forall k :: 0 <= k < |a.value| ==> !Acceptable(s, ts, a.value[k]))
              && (c != 0 ==> exists k :: 0 <= k < |a.value| && Acceptable(s, ts, a.value[k]) && Chan(a.value[k]) == c)
            else c == 36
  {
    hide UapStart, Acceptable, Chan, Matches, Built5GHz;
    MatchesOnce(s, region, bands, bg, a);
    if HasATable(bands, bg, a) && region == s.regionCode {
      var m: nat :| OnlyMatch(s, m) && s.regions[m].cfps == a.value;
      UapStartExactly(s, ts, seeds, m);
    } else {
      UapStartUnchecked(s, ts, seeds);
    }
  }

  /** Without a matching table channel 36 is returned unchecked. */
  lemma UapStartUnchecked(s: Search, ts: seq<Timestamp>, seeds: seq<nat>)
    requires |s.regions| == |seeds| && forall i :: 0 <= i < |s.regions| ==> !Matches(s, s.regions[i])
    ensures UapStart(s, ts, seeds, true, true) == 36
  {
    ChoiceSkips(s, ts, seeds, 0, DEFAULT_AD_HOC_CHANNEL_A, 0);
  }

  /** Off 5 GHz the channel is 6, and on 5 GHz with 11h off it is 36, whatever the tables. */
  lemma UapStartElsewhere(s: Search, ts: seq<Timestamp>, seeds: seq<nat>, is11hEnabled: bool)
    requires |s.regions| == |seeds|
    ensures UapStart(s, ts, seeds, false, is11hEnabled) == 6 && UapStart(s, ts, seeds, true, false) == 36
  {
  }

  /** The first entry for a channel. */
  ghost predicate IsFirstFor(cfps: seq<Cfp>, channel: nat, k: nat) {
    k < |cfps| && cfps[k].channel == channel && forall j :: 0 <= j < k ==> cfps[j].channel != channel
  }

  lemma {:induction false} RadarFlagIs(cfps: seq<Cfp>, channel: nat)
    ensures RadarFlag(cfps, channel) <==> exists k: nat :: IsFirstFor(cfps, channel, k) && cfps[k].radar
  {
    if cfps != [] {
      RadarFlagIs(cfps[1..], channel);
      if cfps[0].channel == channel {
        assert IsFirstFor(cfps, channel, 0);
        assert forall k: nat :: IsFirstFor(cfps, channel, k) ==> k == 0;
      } else {
        forall k: nat
          ensures IsFirstFor(cfps[1..], channel, k) ==> IsFirstFor(cfps, channel, k + 1)
          ensures IsFirstFor(cfps, channel, k) ==> k > 0 && IsFirstFor(cfps[1..], channel, k - 1)
        {
          assert forall j :: 0 < j < |cfps| ==> cfps[j] == cfps[1..][j - 1];
        }
      }
    }
  }

  /** The 5 GHz table is what both the radar question and the switch search look into. */
  lemma LooksInto5GHz(region: nat, bands: set<Band>, bg: Option<CfpTable>, a: Option<CfpTable>)
    ensures var ts := Built(region, bands, bg, a);
            if HasATable(bands, bg, a) then FirstATable(ts) == a.value && SwitchTable(ts) == Some(a.value)
            else FirstATable(ts) == [] && SwitchTable(ts) == None
  {
    var ts := Built(region, bands, bg, a);
    assert ts[1..] == [ts[1]] && ts[1..][1..] == [];
    assert FirstATable([ts[1]]) == if ts[1].RegionTable? && ts[1].bands == {BandA} then ts[1].cfps else [];
    assert SwitchTable([ts[1]]) == if ts[1].RegionTable? && ts[1].bands == {BandA} then Some(ts[1].cfps) else None;
  }

  /** A radar hit of the last thirty minutes is on the list for the channel. */
  ghost predicate HitRecently(ts: seq<Timestamp>, channel: nat, now: nat) {
    exists i :: 0 <= i < |ts| && ts[i].channel == channel && ts[i].represents.NopStart?
                && (now - ts[i].sec) % 0x1_0000_0000 <= 1800
  }

  lemma HitRecentlyIs(ts: seq<Timestamp>, channel: nat, now: nat)
    requires OnePerChannel(ts)
    ensures UnderNop(ts, channel, now) <==> HitRecently(ts, channel, now)
  {
    var i := Find(ts, channel);
    if i < |ts| {
      assert forall j :: 0 <= j < |ts| && ts[j].channel == channel ==> j == i;
    }
  }

  /**
   * On the tables that were set an entry is acceptable exactly if it is not disabled, not channel 165 wider than
   * 20 MHz, not barred from the 40 MHz asked for, without a recent radar hit, and, while information is being
   * gathered, not flagged for radar by the first 5 GHz entry for its channel unless that is the one connected to.
   */
  lemma AcceptableExactly(s: Search, ts: seq<Timestamp>, e: Cfp,
                          region: nat, bands: set<Band>, bg: Option<CfpTable>, a: Option<CfpTable>)
    requires Built5GHz(s, region, bands, bg, a) && OnePerChannel(ts)
    ensures var c := e.channel % 256;
            Acceptable(s, ts, e)
            <==> && !e.disabled && (c == 165 ==> s.width == Bw20MHz) && (s.width == Bw40MHz ==> !e.noHt40)
                 && !HitRecently(ts, c, s.now)
                 && !(s.gettingInfo && s.connectedChan != Some(c) && HasATable(bands, bg, a)
                      && exists k: nat :: IsFirstFor(a.value, c, k) && a.value[k].radar)
  {
    hide RadarFlag, FirstATable, SwitchTable, UnderNop, HitRecently, HasATable;
    LooksInto5GHz(region, bands, bg, a);
    HitRecentlyIs(ts, e.channel % 256, s.now);
    RadarFlagIs(FirstATable(s.regions), e.channel % 256);
  }

  /** The choice goes round the table from the seeded entry: the first acceptable one is taken. */
  lemma UapStartFirst(s: Search, ts: seq<Timestamp>, seeds: seq<nat>, m: nat, t: nat)
    requires |s.regions| == |seeds| && OnlyMatch(s, m) && t < |s.regions[m].cfps|
    requires var cfps := s.regions[m].cfps;
             var r := seeds[m] % |cfps|;
             && Acceptable(s, ts, cfps[Cyclic(r, t, |cfps|)])
             && forall j :: 0 <= j < t ==> !Acceptable(s, ts, cfps[Cyclic(r, j, |cfps|)])
    ensures var cfps := s.regions[m].cfps;
            UapStart(s, ts, seeds, true, true) == cfps[Cyclic(seeds[m] % |cfps|, t, |cfps|)].channel % 256
  {
    hide Acceptable, Probe, Matches, Cyclic;
    var cfps := s.regions[m].cfps;
    var good, r := Verdicts(s, ts, cfps), seeds[m] % |cfps|;
    ChoiceIsTables(s, ts, seeds, 0, m, DEFAULT_AD_HOC_CHANNEL_A);
    ProbeExactly(good, r);
    assert good[Cyclic(r, t, |cfps|)];
    var (at, tries) := Probe(good, r, 0);
    assert tries == t;
  }

  /** All answers at time `now` are those of the list `was`. */
  ghost predicate SameAnswers(ts: seq<Timestamp>, was: seq<Timestamp>, now: nat) {
    forall c :: UnderNop(ts, c, now) <==> UnderNop(was, c, now)
  }

  /** The loop condition of the probe, with the side effect of its question. */
  method IsAcceptable(nop: DfsState, s: Search, e: Cfp, ghost was: seq<Timestamp>) returns (good: bool)
    requires nop.Valid() && SameAnswers(nop.dfsTs, was, s.now)
    modifies nop
    ensures nop.Valid() && SameAnswers(nop.dfsTs, was, s.now)
    ensures good <==> Acceptable(s, was, e)
  {
    good := false;
    if BandValid(e, s.width) {
      var occupied := nop.IsChannelUnderNop(Chan(e), s.now);
      if !occupied {
        good := !(s.gettingInfo && RadarRequired(s, Chan(e)));
      }
    }
  }

  /** The body of the probe's loop: counts a failed try and, while tries are left, tests the next entry. */
  method ProbeOn(nop: DfsState, s: Search, cfps: CfpTable, at: nat, tries: nat, ghost was: seq<Timestamp>)
    returns (next: nat, randTries: nat, found: bool)
    requires nop.Valid() && SameAnswers(nop.dfsTs, was, s.now) && at < |cfps| && tries < U8
    requires !Acceptable(s, was, cfps[at])
    modifies nop
    ensures nop.Valid() && SameAnswers(nop.dfsTs, was, s.now) && next < |cfps| && randTries < U8
    ensures Probe(Verdicts(s, was, cfps), at, tries)
         == if randTries >= |cfps| then (next, randTries) else Probe(Verdicts(s, was, cfps), next, randTries)
    ensures randTries < |cfps| ==> (found <==> Acceptable(s, was, cfps[next]))
    ensures randTries < |cfps| ==> TriesLeft(|cfps|, randTries) < TriesLeft(|cfps|, tries)
  {
    hide Acceptable, UnderNop, Probe;
    ProbeStep(Verdicts(s, was, cfps), at, tries);
    next, randTries, found := at, (tries + 1) % U8, false;
    if randTries < |cfps| {
      next := (next + 1) % |cfps|;
      found := IsAcceptable(nop, s, cfps[next], was);
    }
  }

  /** The probe of one table. */
  method ProbeTable(nop: DfsState, s: Search, cfps: CfpTable, seed: nat, tries0: nat, ghost was: seq<Timestamp>)
    returns (startChn: nat, randTries: nat)
    requires nop.Valid() && SameAnswers(nop.dfsTs, was, s.now) && tries0 < U8
    modifies nop
    ensures nop.Valid() && SameAnswers(nop.dfsTs, was, s.now)
    ensures randTries < U8 && (startChn, randTries) == TableChoice(s, was, cfps, seed, tries0)
  {
    hide Acceptable, UnderNop, Probe, Chan;
    ghost var good := Verdicts(s, was, cfps);
    var randEntry: nat := seed % |cfps|;
    ghost var end := Probe(good, randEntry, tries0);
    randTries := tries0;
    var found := IsAcceptable(nop, s, cfps[randEntry], was);
    var stopped := false;
    while !found && !stopped
      invariant nop.Valid() && SameAnswers(nop.dfsTs, was, s.now)
      invariant randEntry < |cfps| && randTries < U8
      invariant if stopped then end == (randEntry, randTries) && randTries >= |cfps|
                else found == good[randEntry] && Probe(good, randEntry, randTries) == end
      decreases !stopped, TriesLeft(|cfps|, randTries)
    {
      randEntry, randTries, found := ProbeOn(nop, s, cfps, randEntry, randTries, was);
      stopped := randTries >= |cfps|;
      found := found && !stopped;
    }
    if found {
      ProbeStep(good, randEntry, randTries);
    }
    startChn := if randTries == |cfps| then 0 else Chan(cfps[randEntry]);
  }

  /** wlan_11h_get_uap_start_channel */
  method GetUapStartChannel(nop: DfsState, s: Search, seeds: seq<nat>, is5GHz: bool, is11hEnabled: bool)
    returns (startChn: nat)
    requires nop.Valid() && |s.regions| == |seeds|
    modifies nop
    ensures nop.Valid() && SameAnswers(nop.dfsTs, old(nop.dfsTs), s.now)
    ensures startChn == UapStart(s, old(nop.dfsTs), seeds, is5GHz, is11hEnabled)
  {
    hide TableChoice, UnderNop, Matches;
    ghost var was := nop.dfsTs;
    startChn := DEFAULT_AD_HOC_CHANNEL;
    if is5GHz {
      startChn := DEFAULT_AD_HOC_CHANNEL_A;
      if is11hEnabled {
        var randTries: nat := 0;
        for region := 0 to |s.regions|
          invariant nop.Valid() && SameAnswers(nop.dfsTs, was, s.now) && randTries < U8
          invariant ChoiceFrom(s, was, seeds, region, startChn, randTries) == UapStart(s, was, seeds, true, true)
        {
          if Matches(s, s.regions[region]) {
            startChn, randTries := ProbeTable(nop, s, s.regions[region].cfps, seeds[region], randTries, was);
          }
        }
      }
    }
  }

  // ---- Switching to a channel without radar duty ----

  /** Position of the first true, or the length. */
  function FirstTrue(bs: seq<bool>): (i: nat)
    ensures i <= |bs| && (i < |bs| ==> bs[i]) && (forall k :: 0 <= k < i ==> !bs[k])
  {
    if bs == [] || bs[0] then 0 else 1 + FirstTrue(bs[1..])
  }

  lemma FirstTrueIs(bs: seq<bool>, i: nat)
    requires i <= |bs| && (i < |bs| ==> bs[i]) && (forall k :: 0 <= k < i ==> !bs[k])
    ensures FirstTrue(bs) == i
  {
    assert FirstTrue(bs) >= i && FirstTrue(bs) <= i;
  }

  function SwitchTable(regions: seq<RegionTable>): Option<CfpTable> {
    if regions == [] then None
    else if regions[0].RegionTable? && regions[0].bands == {BandA} then Some(regions[0].cfps)
    else SwitchTable(regions[1..])
  }

  predicate Free(e: Cfp, ts: seq<Timestamp>, now: nat) {
    !e.radar && !UnderNop(ts, Chan(e), now)
  }

  function FreeEntries(cfps: seq<Cfp>, ts: seq<Timestamp>, now: nat): (free: seq<bool>)
    ensures |free| == |cfps| && forall k :: 0 <= k < |cfps| ==> free[k] == Free(cfps[k], ts, now)
  {
    seq(|cfps|, k requires 0 <= k < |cfps| => Free(cfps[k], ts, now))
  }

  function Drawn(cfps: CfpTable, draw: nat): Cfp {
    cfps[draw % |cfps|]
  }

  predicate Taken(e: Cfp, ts: seq<Timestamp>, now: nat, width: Width) {
    Free(e, ts, now) && BandValid(e, width)
  }

  /** Which of the draws would be taken: the entry is free and fits the band width. */
  function GoodDraws(cfps: CfpTable, ts: seq<Timestamp>, now: nat, width: Width, draws: seq<nat>): (good: seq<bool>)
    ensures |good| == |draws|
    ensures forall k :: 0 <= k < |draws| ==> good[k] == Taken(Drawn(cfps, draws[k]), ts, now, width)
  {
    seq(|draws|, k requires 0 <= k < |draws| => Taken(Drawn(cfps, draws[k]), ts, now, width))
  }

  /**
   * The entry switched to. The last of the 30 draws is never taken: reaching it means the lowest free entry is
   * used, whose band width nobody checks.
   */
  function SwitchEntry(cfps: CfpTable, ts: seq<Timestamp>, now: nat, width: Width, draws: seq<nat>): Option<Cfp>
    requires |draws| == MAX_SWITCH_CHANNEL_RETRIES
  {
    var d := FirstTrue(GoodDraws(cfps, ts, now, width, draws));
    var l := FirstTrue(FreeEntries(cfps, ts, now));
    if d < MAX_SWITCH_CHANNEL_RETRIES - 1 then Some(Drawn(cfps, draws[d]))
    else if l < |cfps| then Some(cfps[l])
    else None
  }

  function SwitchChoice(cfps: CfpTable, ts: seq<Timestamp>, now: nat, width: Width, draws: seq<nat>): Option<nat>
    requires |draws| == MAX_SWITCH_CHANNEL_RETRIES
  {
    var e := SwitchEntry(cfps, ts, now, width, draws);
    if e.None? then None else Some(Chan(e.value))
  }

  /** Whatever the draws, a channel comes out exactly when a free one exists, and then it is a free one. */
  lemma SwitchExactly(cfps: CfpTable, ts: seq<Timestamp>, now: nat, width: Width, draws: seq<nat>)
    requires |draws| == MAX_SWITCH_CHANNEL_RETRIES
    ensures var c := SwitchChoice(cfps, ts, now, width, draws);
            && (c.Some? <==> exists k :: 0 <= k < |cfps| && !cfps[k].radar && !UnderNop(ts, cfps[k].channel % 256, now))
            && (c.Some? ==>
                  exists k :: 0 <= k < |cfps| && !cfps[k].radar && !UnderNop(ts, c.value, now)
                              && cfps[k].channel % 256 == c.value)
  {
    hide BandValid, FirstTrue, UnderNop;
    var good, free := GoodDraws(cfps, ts, now, width, draws), FreeEntries(cfps, ts, now);
    var d, l := FirstTrue(good), FirstTrue(free);
    if d < MAX_SWITCH_CHANNEL_RETRIES - 1 {
      assert Taken(Drawn(cfps, draws[d]), ts, now, width);
    }
  }

  /** The lowest free entry. */
  ghost predicate IsLowestFree(cfps: seq<Cfp>, ts: seq<Timestamp>, now: nat, l: nat) {
    l < |cfps| && Free(cfps[l], ts, now) && forall k :: 0 <= k < l ==> !Free(cfps[k], ts, now)
  }

  /**
   * The entry switched to does not fit the band exactly when none of the first 29 draws finds a free entry that
   * fits and the lowest free entry does not fit, be it disabled.
   */
  lemma SwitchUnfitExactly(cfps: CfpTable, ts: seq<Timestamp>, now: nat, width: Width, draws: seq<nat>)
    requires |draws| == MAX_SWITCH_CHANNEL_RETRIES
    ensures var e := SwitchEntry(cfps, ts, now, width, draws);
            (e.Some? && !BandValid(e.value, width))
            <==> && (forall k :: 0 <= k < MAX_SWITCH_CHANNEL_RETRIES - 1 ==>
                       !Taken(Drawn(cfps, draws[k]), ts, now, width))
                 && (exists l: nat :: IsLowestFree(cfps, ts, now, l) && !BandValid(cfps[l], width))
  {
    hide BandValid, FirstTrue, Drawn, Free;
    var good, free := GoodDraws(cfps, ts, now, width, draws), FreeEntries(cfps, ts, now);
    var d, l := FirstTrue(good), FirstTrue(free);
    assert d < |draws| ==> good[d];
    if l < |cfps| {
      assert IsLowestFree(cfps, ts, now, l);
    }
    forall k: nat | IsLowestFree(cfps, ts, now, k)
      ensures k == l
    {
      assert free[k];
    }
  }

  /**
   * The first of 29 draws that hits a free entry fitting the band is taken; without one the lowest free entry, if any.
   */
  lemma SwitchChoosesExactly(cfps: CfpTable, ts: seq<Timestamp>, now: nat, width: Width, draws: seq<nat>, d: nat)
    requires |draws| == 30 && d <= 29
    requires forall k :: 0 <= k < d ==> !Taken(Drawn(cfps, draws[k]), ts, now, width)
    ensures var c := SwitchChoice(cfps, ts, now, width, draws);
            && (d < 29 && Taken(Drawn(cfps, draws[d]), ts, now, width) ==>
                  c == Some(cfps[draws[d] % |cfps|].channel % 256))
            && (d == 29 ==> forall l: nat :: IsLowestFree(cfps, ts, now, l) ==> c == Some(cfps[l].channel % 256))
  {
    hide Taken, Free, FirstTrue;
    var good, free := GoodDraws(cfps, ts, now, width, draws), FreeEntries(cfps, ts, now);
    var i := FirstTrue(good);
    assert forall k :: 0 <= k < d ==> !good[k];
    forall l: nat | IsLowestFree(cfps, ts, now, l)
      ensures FirstTrue(free) == l
    {
      FirstTrueIs(free, l);
    }
  }

  method TryEntry(nop: DfsState, e: Cfp, width: Width, now: nat, ghost was: seq<Timestamp>)
    returns (defChan: nat, found: bool)
    requires nop.Valid() && SameAnswers(nop.dfsTs, was, now)
    modifies nop
    ensures nop.Valid() && SameAnswers(nop.dfsTs, was, now)
    ensures defChan == Chan(e) && (found <==> Taken(e, was, now, width))
  {
    hide UnderNop, BandValid, Chan;
    defChan := Chan(e);
    var occupied := nop.IsChannelUnderNop(defChan, now);
    found := !occupied && BandValid(e, width) && !e.radar;
  }

  /** The random draws, until one is taken or they run out. */
  method DrawChannel(nop: DfsState, cfps: CfpTable, width: Width, draws: seq<nat>, now: nat, ghost was: seq<Timestamp>)
    returns (defChan: nat, randTries: nat)
    requires nop.Valid() && SameAnswers(nop.dfsTs, was, now) && |draws| == MAX_SWITCH_CHANNEL_RETRIES
    modifies nop
    ensures nop.Valid() && SameAnswers(nop.dfsTs, was, now)
    ensures var d := FirstTrue(GoodDraws(cfps, was, now, width, draws));
            && randTries == (if d < MAX_SWITCH_CHANNEL_RETRIES then d + 1 else MAX_SWITCH_CHANNEL_RETRIES)
            && defChan == Chan(Drawn(cfps, draws[randTries - 1]))
  {
    hide Taken, FirstTrue, Drawn;
    ghost var good := GoodDraws(cfps, was, now, width, draws);
    randTries, defChan := 0, 0;
    var found := false;
    while !found && randTries < MAX_SWITCH_CHANNEL_RETRIES
      invariant nop.Valid() && SameAnswers(nop.dfsTs, was, now) && 0 <= randTries <= MAX_SWITCH_CHANNEL_RETRIES
      invariant randTries > 0 ==> defChan == Chan(Drawn(cfps, draws[randTries - 1]))
      invariant forall k :: 0 <= k < randTries - (if found then 1 else 0) ==> !good[k]
      invariant found ==> randTries > 0 && good[randTries - 1]
      decreases MAX_SWITCH_CHANNEL_RETRIES - randTries
    {
      defChan, found := TryEntry(nop, Drawn(cfps, draws[randTries]), width, now, was);
      randTries := randTries + 1;
    }
    FirstTrueIs(good, if found then randTries - 1 else randTries);
  }

  /** The walk for the lowest free entry. */
  method LowestFree(nop: DfsState, cfps: CfpTable, now: nat, ghost was: seq<Timestamp>) returns (i: nat)
    requires nop.Valid() && SameAnswers(nop.dfsTs, was, now)
    modifies nop
    ensures nop.Valid() && SameAnswers(nop.dfsTs, was, now)
    ensures i == FirstTrue(FreeEntries(cfps, was, now))
  {
    hide UnderNop, FirstTrue;
    ghost var free := FreeEntries(cfps, was, now);
    i := 0;
    while i < |cfps|
      invariant nop.Valid() && SameAnswers(nop.dfsTs, was, now) && 0 <= i <= |cfps|
      invariant forall k :: 0 <= k < i ==> !free[k]
    {
      if !cfps[i].radar {
        var occupied := nop.IsChannelUnderNop(Chan(cfps[i]), now);
        if !occupied {
          break;
        }
      }
      i := i + 1;
    }
    FirstTrueIs(free, i);
  }

  /** wlan_11h_switch_non_dfs_chan, given the numbers its random draws would return. */
  method SwitchNonDfsChan(nop: DfsState, regions: seq<RegionTable>, width: Width, draws: seq<nat>, now: nat)
    returns (chan: Option<nat>)
    requires nop.Valid() && |draws| == MAX_SWITCH_CHANNEL_RETRIES
    modifies nop
    ensures nop.Valid() && SameAnswers(nop.dfsTs, old(nop.dfsTs), now)
    ensures SwitchTable(regions).None? ==> chan == None
    ensures SwitchTable(regions).Some? ==>
              chan == SwitchChoice(SwitchTable(regions).value, old(nop.dfsTs), now, width, draws)
  {
    hide UnderNop, Chan, BandValid;
    ghost var was := nop.dfsTs;
    var table := FindSwitchTable(regions);
    if table.None? {
      return None;
    }
    var cfps := table.value;
    var defChan, randTries := DrawChannel(nop, cfps, width, draws, now, was);
    if randTries == MAX_SWITCH_CHANNEL_RETRIES {
      var i := LowestFree(nop, cfps, now, was);
      if i == |cfps| {
        return None;
      }
      defChan := Chan(cfps[i]);
    }
    chan := Some(defChan);
  }

  method FindSwitchTable(regions: seq<RegionTable>) returns (table: Option<CfpTable>)
    ensures table == SwitchTable(regions)
  {
    for i := 0 to |regions|
      invariant SwitchTable(regions[i..]) == SwitchTable(regions)
    {
      assert regions[i..][0] == regions[i] && regions[i..][1..] == regions[i + 1..];
      if regions[i].RegionTable? && regions[i].bands == {BandA} {
        return Some(regions[i].cfps);
      }
    }
    return None;
  }
}
