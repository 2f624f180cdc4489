/** The region's channel tables and the one function that sets them (mlan_cfp.c). */
module DfsRegion {
  import opened Wrappers

  const U8 := 256
  const MAX_REGION_CHANNEL_NUM := 2

  datatype Band = BandB | BandG | BandA | BandGN | BandAN

  /** One entry of a channel-frequency-power table. */
  datatype Cfp = Cfp(channel: nat, disabled: bool, noHt40: bool, radar: bool)

  /** A table holds at most 255 entries, and one that is searched at random has at least one. */
  type CfpTable = cs: seq<Cfp> | 0 < |cs| < U8 witness [Cfp(36, false, false, false)]

  /** A slot of region_channel: cleared, or valid with its entries. */
  datatype RegionTable = Cleared | RegionTable(region: nat, bands: set<Band>, cfps: CfpTable)

  predicate Wants2GHz(bands: set<Band>) {
    BandB in bands || BandG in bands || BandGN in bands
  }

  predicate Wants5GHz(bands: set<Band>) {
    BandA in bands || BandAN in bands
  }

  function Table2GHz(region: nat, bands: set<Band>, cfps: CfpTable): RegionTable {
    RegionTable(region, if BandGN in bands || BandG in bands then {BandG} else {BandB}, cfps)
  }

  function Table5GHz(region: nat, cfps: CfpTable): RegionTable {
    RegionTable(region, {BandA}, cfps)
  }

  /** The slots after wlan_set_regiontable, given what the table look-ups for the region return. */
  function Built(region: nat, bands: set<Band>, bg: Option<CfpTable>, a: Option<CfpTable>): (ts: seq<RegionTable>)
    ensures |ts| == MAX_REGION_CHANNEL_NUM
  {
    if Wants2GHz(bands) then
      if bg.None? then [Cleared, Cleared]
      else [Table2GHz(region, bands, bg.value),
            if Wants5GHz(bands) && a.Some? then Table5GHz(region, a.value) else Cleared]
    else [if Wants5GHz(bands) && a.Some? then Table5GHz(region, a.value) else Cleared, Cleared]
  }

  /** A table for the A band comes out. */
  predicate HasATable(bands: set<Band>, bg: Option<CfpTable>, a: Option<CfpTable>) {
    Wants5GHz(bands) && a.Some? && (Wants2GHz(bands) ==> bg.Some?)
  }

  /** The 2.4 GHz table comes first, marked for G unless only B was asked for; without one nothing else is set. */
  lemma TwoGHzFirst(region: nat, bands: set<Band>, bg: Option<CfpTable>, a: Option<CfpTable>)
    ensures var ts, asked := Built(region, bands, bg, a), BandB in bands || BandG in bands || BandGN in bands;
            && (asked && bg.Some? ==>
                  ts[0].RegionTable? && ts[0].region == region && ts[0].cfps == bg.value
                  && ts[0].bands == if BandG in bands || BandGN in bands then {BandG} else {BandB})
            && (asked && bg.None? ==> ts == [Cleared, Cleared])
            && (!asked ==> ts[1] == Cleared)
  {
  }

  predicate IsATable(t: RegionTable) {
    t.RegionTable? && BandA in t.bands
  }

  /** At most one slot is a table for the A band, whatever was asked for; it is marked for that band alone. */
  lemma OneATable(region: nat, bands: set<Band>, bg: Option<CfpTable>, a: Option<CfpTable>)
    ensures var ts := Built(region, bands, bg, a);
            && (forall i, j :: 0 <= i < |ts| && 0 <= j < |ts| && IsATable(ts[i]) && IsATable(ts[j]) ==> i == j)
            && (HasATable(bands, bg, a) <==> exists i :: 0 <= i < |ts| && IsATable(ts[i]))
            && (forall i :: 0 <= i < |ts| && IsATable(ts[i]) ==> ts[i] == Table5GHz(region, a.value))
  {
    var ts := Built(region, bands, bg, a);
    assert IsATable(ts[0]) || IsATable(ts[1]) <==> HasATable(bands, bg, a);
  }

  /** wlan_set_regiontable */
  method SetRegionTable(regionChannel: array<RegionTable>, region: nat, bands: set<Band>,
                        bg: Option<CfpTable>, a: Option<CfpTable>)
    returns (ok: bool)
    requires regionChannel.Length == MAX_REGION_CHANNEL_NUM
    modifies regionChannel
    ensures regionChannel[..] == Built(region, bands, bg, a)
    ensures ok <==> (Wants2GHz(bands) ==> bg.Some?) && (Wants5GHz(bands) ==> a.Some?)
  {
    regionChannel[0], regionChannel[1] := Cleared, Cleared;
    var i := 0;
    if Wants2GHz(bands) {
      if bg.None? {
        return false;
      }
      var mark := if BandGN in bands then BandG else if BandG in bands then BandG else BandB;
      regionChannel[i] := RegionTable(region, {mark}, bg.value);
      i := i + 1;
    }
    if Wants5GHz(bands) {
      if a.None? {
        return false;
      }
      regionChannel[i] := RegionTable(region, {BandA}, a.value);
    }
    ok := true;
  }
}
