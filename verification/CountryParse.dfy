/** Expanding the sub-bands of a Country element through the universal tables, and the round trip (mlan_11d.c). */
module CountryParse {
  import opened Wrappers
  import opened CountrySort
  import opened CountryBands

  /** Bands of the request: 2.4 GHz ones are looked up first. */
  datatype BandFlags = BandFlags(bg: bool, a: bool)

  function Table(band: BandFlags): seq<nat> {
    if band.bg then UN_BG else if band.a then UN_AJ else []
  }

  predicate IsAj(c: nat) {
    || c == 8 || c == 12 || c == 16 || (34 <= c <= 48 && c % 2 == 0) || (52 <= c <= 64 && c % 4 == 0)
    || (100 <= c <= 140 && c % 4 == 0) || (149 <= c <= 165 && c % 4 == 1)
  }

  lemma AjAllListed()
    ensures |UN_AJ| == 31 && forall i :: 0 <= i < 31 ==> IsAj(UN_AJ[i])
  {
  }

  /** The stretches of the 5 GHz table, each in steps of four. */
  lemma AjStretches()
    ensures |UN_AJ| == 31 && UN_AJ[0] == 8 && UN_AJ[1] == 12 && UN_AJ[2] == 16
    ensures forall i :: 3 <= i < 7 ==> UN_AJ[i] == 34 + 4 * (i - 3)
    ensures forall i :: 7 <= i < 15 ==> UN_AJ[i] == 36 + 4 * (i - 7)
    ensures forall i :: 15 <= i < 26 ==> UN_AJ[i] == 100 + 4 * (i - 15)
    ensures forall i :: 26 <= i < 31 ==> UN_AJ[i] == 149 + 4 * (i - 26)
  {
  }

  /** The channels of the 2.4 GHz table, and of the 5 GHz one. */
  lemma ListedExactly(c: nat)
    ensures c in UN_BG <==> 1 <= c <= 14
    ensures c in UN_AJ <==> || c == 8 || c == 12 || c == 16 || (34 <= c <= 48 && c % 2 == 0)
                            || (52 <= c <= 64 && c % 4 == 0) || (100 <= c <= 140 && c % 4 == 0)
                            || (149 <= c <= 165 && c % 4 == 1)
  {
    hide UN_AJ, UN_BG;
    BgInOrder();
    AjAllListed();
    assert 1 <= c <= 14 ==> UN_BG[c - 1] == c;
    if IsAj(c) {
      AjHolds(c);
    }
  }

  lemma BgInOrder()
    ensures |UN_BG| == 14 && forall i :: 0 <= i < 14 ==> UN_BG[i] == i + 1
  {
  }

  lemma AjHolds(c: nat)
    requires IsAj(c)
    ensures c in UN_AJ
  {
    hide UN_AJ;
    AjStretches();
    if c > 148 {
      assert c == UN_AJ[26 + (c - 149) / 4];
    } else if c >= 100 {
      assert c == UN_AJ[15 + (c - 100) / 4];
    } else if c >= 34 && c % 4 == 0 {
      assert c == UN_AJ[7 + (c - 36) / 4];
    } else if c >= 34 {
      assert c == UN_AJ[3 + (c - 34) / 4];
    }
  }

  /** Position of the first entry for `c`, or the length of the table. */
  function IndexOf(table: seq<nat>, c: nat): (i: nat)
    ensures i <= |table|
    ensures i < |table| ==> table[i] == c
    ensures forall k :: 0 <= k < i ==> table[k] != c
  {
    if table == [] || table[0] == c then 0 else 1 + IndexOf(table[1..], c)
  }

  /** wlan_11d_get_chan: the entry `n` places after the one for `first`. */
  function GetChan(table: seq<nat>, first: nat, n: nat): Option<nat> {
    var i := IndexOf(table, first);
    if i < |table| && i + n < |table| then Some(table[i + n]) else None
  }

  /** From the first place of the channel in the table, if it is there. */
  lemma GetChanExactly(table: seq<nat>, first: nat, n: nat, i: nat)
    requires i <= |table| && first !in table[..i] && (i < |table| ==> table[i] == first)
    ensures GetChan(table, first, n) == if i < |table| && i + n < |table| then Some(table[i + n]) else None
  {
    assert forall k :: 0 <= k < i ==> table[..i][k] == table[k];
    assert IndexOf(table, first) == i;
  }

  /** Channels i, i + 1, ... of one sub-band, as far as the table and the room go. */
  function Expand(table: seq<nat>, b: SubBand, i: nat, room: nat): (ps: seq<Pair>)
    ensures |ps| <= room
    decreases room
  {
    if room == 0 || i >= b.noOfChan || GetChan(table, b.firstChan, i).None? then []
    else [(GetChan(table, b.firstChan, i).value, b.maxTxPwr)] + Expand(table, b, i + 1, room - 1)
  }

  function LastChan(last: nat, ps: seq<Pair>): nat {
    if ps == [] then last else ps[|ps| - 1].0
  }

  /** The channels parsed from `bands`; a sub-band that does not start above the last channel is skipped. */
  function ParseBands(table: seq<nat>, bands: seq<SubBand>, last: nat, room: nat): (ps: seq<Pair>)
    ensures |ps| <= room
    decreases |bands|
  {
    if bands == [] then []
    else if bands[0].firstChan <= last then ParseBands(table, bands[1..], last, room)
    else
      var ps := Expand(table, bands[0], 0, room);
      ps + ParseBands(table, bands[1..], LastChan(last, ps), room - |ps|)
  }

  // ---- Round trip ----

  /** A channel listed one above another directly follows it in the table. */
  ghost predicate RunsFollow(table: seq<nat>) {
    forall i, j :: 0 <= i < |table| && 0 <= j < |table| && table[j] == table[i] + 1 ==> j == i + 1
  }

  lemma BgRunsFollow()
    ensures RunsFollow(UN_BG)
  {
    assert forall i :: 0 <= i < |UN_BG| ==> UN_BG[i] == i + 1;
  }

  lemma AjEntries()
    ensures forall i :: 0 <= i < |UN_AJ| ==> IsAjChannel(UN_AJ[i])
  {
  }

  predicate IsAjChannel(c: nat) {
    (c % 2 == 0 && c <= 140) || (c % 4 == 1 && 149 <= c)
  }

  lemma AjRunsFollow()
    ensures RunsFollow(UN_AJ)
  {
    hide UN_AJ;
    AjEntries();
  }

  lemma TableRunsFollow(band: BandFlags)
    ensures RunsFollow(Table(band))
  {
    BgRunsFollow();
    AjRunsFollow();
  }

  ghost predicate InTable(table: seq<nat>, c: nat) {
    IndexOf(table, c) < |table|
  }

  /** Along a run of listed channels the table is consecutive. */
  lemma {:induction false} RunInTable(table: seq<nat>, first: nat, n: nat)
    requires RunsFollow(table) && forall c :: first <= c <= first + n ==> InTable(table, c)
    ensures IndexOf(table, first) + n < |table| && table[IndexOf(table, first) + n] == first + n
    decreases n
  {
    assert InTable(table, first);
    if n > 0 {
      RunInTable(table, first, n - 1);
      assert InTable(table, first + n);
      var i, j := IndexOf(table, first) + (n - 1), IndexOf(table, first + n);
      assert table[j] == table[i] + 1;
    }
  }

  lemma {:induction false} ExpandIsRun(table: seq<nat>, b: SubBand, i: nat, room: nat)
    requires RunsFollow(table) && i <= b.noOfChan && b.noOfChan - i <= room
    requires forall c :: b.firstChan <= c < b.firstChan + b.noOfChan ==> InTable(table, c)
    ensures Expand(table, b, i, room) == Run(b.firstChan, b.noOfChan, b.maxTxPwr)[i..]
    decreases b.noOfChan - i
  {
    var run := Run(b.firstChan, b.noOfChan, b.maxTxPwr);
    if i < b.noOfChan {
      RunInTable(table, b.firstChan, i);
      ExpandIsRun(table, b, i + 1, room - 1);
      assert run[i..] == [run[i]] + run[i + 1..];
    }
  }

  /** Strictly ascending channels, all of them listed. */
  ghost predicate Listable(table: seq<nat>, ps: seq<Pair>) {
    && (forall i :: 0 <= i < |ps| ==> InTable(table, ps[i].0))
    && (forall i, j :: 0 <= i < j < |ps| ==> ps[i].0 < ps[j].0)
  }

  /** What a listable list says about its first run and about the rest. */
  lemma {:induction false} FirstRun(table: seq<nat>, bands: seq<SubBand>)
    requires bands != [] && bands[0].noOfChan >= 1 && Listable(table, Runs(bands))
    ensures var b := bands[0];
            var run := Run(b.firstChan, b.noOfChan, b.maxTxPwr);
            var rest := Runs(bands[1..]);
            && Runs(bands) == run + rest && Runs(bands)[0].0 == b.firstChan
            && (forall c :: b.firstChan <= c < b.firstChan + b.noOfChan ==> InTable(table, c))
            && Listable(table, rest)
            && (rest != [] ==> LastChan(0, run) < rest[0].0)
  {
    RunsHead(bands);
    var b := bands[0];
    var rest := Runs(bands[1..]);
    var all := Runs(bands);
    hide Runs, IndexOf;
    forall c | b.firstChan <= c < b.firstChan + b.noOfChan
      ensures InTable(table, c)
    {
      assert InTable(table, all[c - b.firstChan].0);
    }
    assert forall i :: 0 <= i < |rest| ==> rest[i] == all[b.noOfChan + i];
    assert all[b.noOfChan - 1] == Run(b.firstChan, b.noOfChan, b.maxTxPwr)[b.noOfChan - 1];
  }

  lemma LastOfRun(last: nat, ps: seq<Pair>)
    requires ps != []
    ensures LastChan(last, ps) == LastChan(0, ps)
  {
  }

  lemma {:induction false} ParseRuns(table: seq<nat>, bands: seq<SubBand>, last: nat, room: nat)
    requires RunsFollow(table) && Listable(table, Runs(bands)) && |Runs(bands)| <= room
    requires forall i :: 0 <= i < |bands| ==> bands[i].noOfChan >= 1
    requires Runs(bands) != [] ==> last < Runs(bands)[0].0
    ensures ParseBands(table, bands, last, room) == Runs(bands)
    decreases |bands|
  {
    hide Runs, Listable, RunsFollow, InTable, Expand, Run;
    if bands != [] {
      var b := bands[0];
      FirstRun(table, bands);
      var run := Run(b.firstChan, b.noOfChan, b.maxTxPwr);
      ExpandIsRun(table, b, 0, room);
      assert run[0..] == run;
      LastOfRun(last, run);
      ParseRuns(table, bands[1..], LastChan(last, run), room - |run|);
    } else {
      NoRuns();
    }
  }

  lemma NoRuns()
    ensures Runs([]) == []
  {
  }

  lemma EntriesArePositive()
    ensures forall i :: 0 <= i < |UN_BG| ==> UN_BG[i] > 0
    ensures forall i :: 0 <= i < |UN_AJ| ==> UN_AJ[i] > 0
  {
  }

  lemma ListedIsPositive(band: BandFlags, c: nat)
    requires InTable(Table(band), c)
    ensures c > 0
  {
    hide UN_BG, UN_AJ;
    EntriesArePositive();
    var i := IndexOf(Table(band), c);
    assert Table(band)[i] == c;
  }

  /** Parsing undoes generation: the same channels with the same powers, in the same order. */
  lemma ParseUndoesGenerate(cs: seq<ChanPower>, band: BandFlags)
    requires |cs| <= MAX_NO_OF_CHAN && Listable(Table(band), Pairs(cs))
    ensures ParseBands(Table(band), Compress(cs), 0, MAX_NO_OF_CHAN) == Pairs(cs)
  {
    CompressIsMaximalRuns(cs);
    TableRunsFollow(band);
    if cs != [] {
      assert InTable(Table(band), Pairs(cs)[0].0);
      ListedIsPositive(band, cs[0].chan);
    }
    ParseRuns(Table(band), Compress(cs), 0, MAX_NO_OF_CHAN);
  }

  lemma {:induction false} ExpandListed(table: seq<nat>, b: SubBand, i: nat, room: nat)
    requires i <= b.noOfChan
    ensures |Expand(table, b, i, room)| <= b.noOfChan - i
    ensures forall p :: p in Expand(table, b, i, room) ==> InTable(table, p.0)
    decreases room
  {
    if room > 0 && i < b.noOfChan && GetChan(table, b.firstChan, i).Some? {
      ExpandListed(table, b, i + 1, room - 1);
      var k := IndexOf(table, b.firstChan) + i;
      assert IndexOf(table, table[k]) <= k;
    }
  }

  lemma {:induction false} ParseNotLonger(table: seq<nat>, bands: seq<SubBand>, last: nat, room: nat)
    ensures |ParseBands(table, bands, last, room)| <= |Runs(bands)|
    decreases |bands|
  {
    hide Expand, Runs, InTable, LastChan;
    if bands != [] {
      RunsHead(bands);
      var ps := Expand(table, bands[0], 0, room);
      ExpandListed(table, bands[0], 0, room);
      ParseNotLonger(table, bands[1..], last, room);
      ParseNotLonger(table, bands[1..], LastChan(last, ps), room - |ps|);
    }
  }

  /** A first run of listed channels below a listable rest. */
  lemma ListableConcat(table: seq<nat>, b: SubBand, rest: seq<Pair>)
    requires b.noOfChan >= 1 && Listable(table, rest)
    requires forall p :: p in Run(b.firstChan, b.noOfChan, b.maxTxPwr) ==> InTable(table, p.0)
    requires rest != [] ==> b.firstChan + b.noOfChan - 1 < rest[0].0
    ensures Listable(table, Run(b.firstChan, b.noOfChan, b.maxTxPwr) + rest)
  {
    hide InTable;
    var run := Run(b.firstChan, b.noOfChan, b.maxTxPwr);
    assert forall i :: 0 <= i < |run| ==> run[i] in run && run[i].0 == b.firstChan + i;
  }

  lemma EqualParts<T>(a: seq<T>, b: seq<T>, c: seq<T>, d: seq<T>)
    requires a + b == c + d && |a| <= |c| && |b| <= |d|
    ensures a == c && b == d
  {
    assert |a + b| == |c + d|;
    assert a == (a + b)[..|a|] && c == (c + d)[..|c|];
    assert b == (a + b)[|a|..] && d == (c + d)[|c|..];
  }

  lemma NothingListable(table: seq<nat>)
    ensures Runs([]) == [] && Listable(table, [])
  {
  }

  lemma {:induction false} OnlyListableParses(table: seq<nat>, bands: seq<SubBand>, last: nat, room: nat)
    requires forall i :: 0 <= i < |bands| ==> bands[i].noOfChan >= 1
    requires ParseBands(table, bands, last, room) == Runs(bands)
    ensures Listable(table, Runs(bands)) && (Runs(bands) != [] ==> last < Runs(bands)[0].0)
    decreases |bands|
  {
    hide Expand, Runs, Listable, InTable, Run;
    if bands == [] {
      NothingListable(table);
    } else {
      var b, t := bands[0], bands[1..];
      var run := Run(b.firstChan, b.noOfChan, b.maxTxPwr);
      var ps := Expand(table, b, 0, room);
      RunsHead(bands);
      RunsCons(bands);
      ExpandListed(table, b, 0, room);
      ParseNotLonger(table, t, last, room);
      ParseNotLonger(table, t, LastChan(last, ps), room - |ps|);
      if b.firstChan > last {
        EqualParts(ps, ParseBands(table, t, LastChan(last, ps), room - |ps|), run, Runs(t));
        OnlyListableParses(table, t, LastChan(last, ps), room - |ps|);
        assert run[|run| - 1].0 == b.firstChan + b.noOfChan - 1 by {
          assert Runs(bands)[b.noOfChan - 1] == run[b.noOfChan - 1];
        }
        ListableConcat(table, b, Runs(t));
      }
    }
  }

  lemma RunsCons(bands: seq<SubBand>)
    requires bands != []
    ensures Runs(bands) == Run(bands[0].firstChan, bands[0].noOfChan, bands[0].maxTxPwr) + Runs(bands[1..])
  {
  }

  /** And only such lists survive the round trip. */
  lemma RoundTripExactly(cs: seq<ChanPower>, band: BandFlags)
    requires |cs| <= MAX_NO_OF_CHAN
    ensures ParseBands(Table(band), Compress(cs), 0, MAX_NO_OF_CHAN) == Pairs(cs) <==> Listable(Table(band), Pairs(cs))
  {
    hide Table, Compress, Listable, ParseBands;
    CompressIsMaximalRuns(cs);
    if Listable(Table(band), Pairs(cs)) {
      ParseUndoesGenerate(cs, band);
    } else if ParseBands(Table(band), Compress(cs), 0, MAX_NO_OF_CHAN) == Pairs(cs) {
      OnlyListableParses(Table(band), Compress(cs), 0, MAX_NO_OF_CHAN);
    }
  }

  ghost predicate Ascends(last: nat, ps: seq<Pair>) {
    && (forall i :: 0 <= i < |ps| ==> last < ps[i].0)
    && (forall i, j :: 0 <= i < j < |ps| ==> ps[i].0 < ps[j].0)
  }

  lemma AscendsConcat(last: nat, a: seq<Pair>, b: seq<Pair>)
    requires Ascends(last, a) && Ascends(LastChan(last, a), b)
    ensures Ascends(last, a + b)
  {
    var ps := a + b;
    assert forall i :: 0 <= i < |a| ==> ps[i].0 <= LastChan(last, a);
  }

  /** In the 2.4 GHz table the n-th entry after a channel is the channel n above it. */
  lemma BgGetChan(first: nat, n: nat)
    ensures GetChan(UN_BG, first, n).Some? ==> GetChan(UN_BG, first, n).value == first + n
  {
    assert forall k :: 0 <= k < |UN_BG| ==> UN_BG[k] == k + 1;
  }

  /** The channels c, c + 1, ... */
  ghost predicate CountsUp(c: nat, ps: seq<Pair>) {
    forall k :: 0 <= k < |ps| ==> ps[k].0 == c + k
  }

  lemma CountsUpCons(c: nat, pwr: nat, ps: seq<Pair>)
    requires CountsUp(c + 1, ps)
    ensures CountsUp(c, [(c, pwr)] + ps)
  {
    var all := [(c, pwr)] + ps;
    assert forall k :: 1 <= k < |all| ==> all[k] == ps[k - 1];
  }

  lemma CountsUpAscends(last: nat, c: nat, ps: seq<Pair>)
    requires CountsUp(c, ps) && last < c
    ensures Ascends(last, ps)
  {
  }

  lemma {:induction false} BgExpandAscends(b: SubBand, i: nat, room: nat)
    ensures CountsUp(b.firstChan + i, Expand(UN_BG, b, i, room))
    decreases room
  {
    hide GetChan, UN_BG, CountsUp;
    BgGetChan(b.firstChan, i);
    if room > 0 && i < b.noOfChan && GetChan(UN_BG, b.firstChan, i).Some? {
      BgExpandAscends(b, i + 1, room - 1);
      CountsUpCons(b.firstChan + i, b.maxTxPwr, Expand(UN_BG, b, i + 1, room - 1));
    } else {
      NoneCountUp(b.firstChan + i);
    }
  }

  lemma NoneCountUp(c: nat)
    ensures CountsUp(c, [])
  {
  }

  /** On the 2.4 GHz table the parsed channels always ascend, whatever the element says. */
  lemma {:induction false} BgParseAscends(bands: seq<SubBand>, last: nat, room: nat)
    ensures Ascends(last, ParseBands(UN_BG, bands, last, room))
    decreases |bands|
  {
    hide Expand, UN_BG, CountsUp;
    if bands != [] {
      if bands[0].firstChan <= last {
        BgParseAscends(bands[1..], last, room);
      } else {
        var ps := Expand(UN_BG, bands[0], 0, room);
        BgExpandAscends(bands[0], 0, room);
        CountsUpAscends(last, bands[0].firstChan, ps);
        BgParseAscends(bands[1..], LastChan(last, ps), room - |ps|);
        AscendsConcat(last, ps, ParseBands(UN_BG, bands[1..], LastChan(last, ps), room - |ps|));
      }
    }
  }

  // ---- Ascent on the 5 GHz table ----

  /** The 5 GHz table ascends up to 46, and again from 36 on. */
  const AJ_TURN := 7

  lemma AjSteps()
    ensures |UN_AJ| == 31 && UN_AJ[AJ_TURN - 1] == 46 && UN_AJ[AJ_TURN] == 36
    ensures forall i :: 0 <= i < 30 && i != AJ_TURN - 1 ==> UN_AJ[i] < UN_AJ[i + 1]
  {
  }

  lemma {:induction false} AjAscends(i: nat, j: nat)
    requires i < j < |UN_AJ| && (j < AJ_TURN || AJ_TURN <= i)
    ensures UN_AJ[i] < UN_AJ[j]
    decreases j
  {
    hide UN_AJ;
    AjSteps();
    if i < j - 1 {
      AjAscends(i, j - 1);
    }
  }

  function Min(a: int, b: int): int {
    if a < b then a else b
  }

  /** How many channels a sub-band gives, from its i-th on, and which. */
  lemma {:induction false} ExpandIs(table: seq<nat>, b: SubBand, i: nat, room: nat)
    requires i <= b.noOfChan
    ensures var at, ps := IndexOf(table, b.firstChan), Expand(table, b, i, room);
            && |ps| == (if at + i < |table| then Min(room, Min(b.noOfChan - i, |table| - (at + i))) else 0)
            && (forall k :: 0 <= k < |ps| ==> ps[k].0 == table[at + i + k])
    decreases room
  {
    var ps := Expand(table, b, i, room);
    if room > 0 && i < b.noOfChan && GetChan(table, b.firstChan, i).Some? {
      ExpandIs(table, b, i + 1, room - 1);
      var rest := Expand(table, b, i + 1, room - 1);
      assert forall k :: 1 <= k < |ps| ==> ps[k] == rest[k - 1];
    }
  }

  /** The sub-band begins at or before 46 in the 5 GHz table and runs past it, within the room. */
  predicate Crosses(b: SubBand, room: nat) {
    var at := IndexOf(UN_AJ, b.firstChan);
    at < AJ_TURN && at + b.noOfChan > AJ_TURN && at + room > AJ_TURN
  }

  /** Some sub-band that is not skipped does so. */
  predicate SomeCrosses(bands: seq<SubBand>, last: nat, room: nat)
    decreases |bands|
  {
    if bands == [] then false
    else if bands[0].firstChan <= last then SomeCrosses(bands[1..], last, room)
    else
      var ps := Expand(UN_AJ, bands[0], 0, room);
      Crosses(bands[0], room) || SomeCrosses(bands[1..], LastChan(last, ps), room - |ps|)
  }

  /** A crossing sub-band descends from 46 to 36. */
  lemma CrossingDescends(b: SubBand, last: nat, room: nat)
    requires Crosses(b, room)
    ensures !Ascends(last, Expand(UN_AJ, b, 0, room))
  {
    hide UN_AJ, Expand;
    AjSteps();
    ExpandIs(UN_AJ, b, 0, room);
    var at, ps := IndexOf(UN_AJ, b.firstChan), Expand(UN_AJ, b, 0, room);
    assert ps[AJ_TURN - 1 - at].0 == 46 && ps[AJ_TURN - at].0 == 36;
  }

  /** Any other ascends. */
  lemma StayingAscends(b: SubBand, last: nat, room: nat)
    requires !Crosses(b, room) && last < b.firstChan
    ensures Ascends(last, Expand(UN_AJ, b, 0, room))
  {
    hide UN_AJ, Expand;
    AjSteps();
    ExpandIs(UN_AJ, b, 0, room);
    var at, ps := IndexOf(UN_AJ, b.firstChan), Expand(UN_AJ, b, 0, room);
    forall i, j | 0 <= i < j < |ps|
      ensures ps[i].0 < ps[j].0
    {
      AjAscends(at + i, at + j);
    }
    forall i | 0 <= i < |ps|
      ensures last < ps[i].0
    {
      assert ps[0].0 == b.firstChan;
      if i > 0 {
        assert ps[0].0 < ps[i].0;
      }
    }
  }

  lemma AscendsParts(last: nat, a: seq<Pair>, b: seq<Pair>)
    requires Ascends(last, a + b)
    ensures Ascends(last, a) && Ascends(LastChan(last, a), b)
  {
    var ps := a + b;
    assert forall i :: 0 <= i < |a| ==> ps[i] == a[i];
    assert forall i :: 0 <= i < |b| ==> ps[|a| + i] == b[i];
  }

  /** On 5 GHz the parsed channels strictly ascend exactly when no sub-band that is read crosses from 46 to 36. */
  lemma {:induction false} AjParseAscendsExactly(bands: seq<SubBand>, last: nat, room: nat)
    ensures Ascends(last, ParseBands(UN_AJ, bands, last, room)) <==> !SomeCrosses(bands, last, room)
    decreases |bands|
  {
    hide UN_AJ, Expand, Crosses, Ascends;
    if bands == [] {
      NoneAscend(last);
    } else if bands[0].firstChan <= last {
      AjParseAscendsExactly(bands[1..], last, room);
    } else {
      var ps := Expand(UN_AJ, bands[0], 0, room);
      var rest := ParseBands(UN_AJ, bands[1..], LastChan(last, ps), room - |ps|);
      AjParseAscendsExactly(bands[1..], LastChan(last, ps), room - |ps|);
      if Crosses(bands[0], room) {
        CrossingDescends(bands[0], last, room);
        if Ascends(last, ps + rest) {
          AscendsParts(last, ps, rest);
        }
      } else {
        StayingAscends(bands[0], last, room);
        if Ascends(LastChan(last, ps), rest) {
          AscendsConcat(last, ps, rest);
        }
        if Ascends(last, ps + rest) {
          AscendsParts(last, ps, rest);
        }
      }
    }
  }

  lemma NoneAscend(last: nat)
    ensures Ascends(last, [])
  {
  }

  /** And it happens: one sub-band of five channels from 34. */
  lemma AjParseMayDescend(pwr: nat)
    ensures !Ascends(0, ParseBands(UN_AJ, [SubBand(34, 5, pwr)], 0, MAX_NO_OF_CHAN))
  {
    hide Ascends, ParseBands, Expand;
    var b := SubBand(34, 5, pwr);
    Aj34();
    assert [b][0] == b;
    assert SomeCrosses([b], 0, MAX_NO_OF_CHAN);
    AjParseAscendsExactly([b], 0, MAX_NO_OF_CHAN);
  }

  lemma Aj34()
    ensures IndexOf(UN_AJ, 34) == 3
  {
    hide UN_AJ;
    AjStretches();
    IndexIs(UN_AJ, 34, 3);
  }

  lemma IndexIs(table: seq<nat>, c: nat, i: nat)
    requires i < |table| && table[i] == c && forall k :: 0 <= k < i ==> table[k] != c
    ensures IndexOf(table, c) == i
  {
    var j := IndexOf(table, c);
    assert j <= i;
  }

  // ---- The parsing loop ----

  /** The Country element as received. */
  datatype CountryInfo = CountryInfo(codeByte0: nat, len: nat, subBands: seq<SubBand>)

  function SubBandCount(len: nat): nat {
    if len <= COUNTRY_CODE_LEN then 0 else (len - COUNTRY_CODE_LEN) / SUBBAND_SET_LEN
  }

  /** The channels and powers of an element, for the bands asked for: what its length field counts is read. */
  function ElementPairs(info: CountryInfo, band: BandFlags): seq<Pair>
    requires SubBandCount(info.len) <= |info.subBands|
  {
    ParseBands(Table(band), info.subBands[..SubBandCount(info.len)], 0, MAX_NO_OF_CHAN)
  }

  /**
   * An element of 3 + 3n bytes, the n sub-bands generated from a channel list, comes back as that list exactly if the
   * channels strictly ascend and each is of the 2.4 GHz table, when that band is asked for, or else of the 5 GHz one.
   */
  lemma ElementRoundTrip(info: CountryInfo, band: BandFlags, cs: seq<ChanPower>)
    requires |cs| <= 40 && (band.bg || band.a)
    requires info.len == 3 + 3 * |Compress(cs)| && |Compress(cs)| <= |info.subBands|
    requires info.subBands[..|Compress(cs)|] == Compress(cs)
    ensures ElementPairs(info, band) == Pairs(cs)
       <==> && (forall i, j :: 0 <= i < j < |cs| ==> cs[i].chan < cs[j].chan)
            && (forall i :: 0 <= i < |cs| ==> if band.bg then cs[i].chan in UN_BG else cs[i].chan in UN_AJ)
  {
    hide Compress, ParseBands, UN_BG, UN_AJ;
    RoundTripExactly(cs, band);
    var table := if band.bg then UN_BG else UN_AJ;
    forall i | 0 <= i < |cs|
      ensures InTable(table, Pairs(cs)[i].0) <==> cs[i].chan in table
    {
      InTableIs(table, cs[i].chan);
    }
  }

  lemma InTableIs(table: seq<nat>, c: nat)
    ensures InTable(table, c) <==> c in table
  {
  }

  lemma {:induction false} NoBandNothing(bands: seq<SubBand>, last: nat, room: nat)
    ensures ParseBands([], bands, last, room) == []
    decreases |bands|
  {
    if bands != [] {
      NoBandNothing(bands[1..], last, room);
    }
  }

  /** For neither band nothing is read. */
  lemma NeitherBand(info: CountryInfo)
    requires SubBandCount(info.len) <= |info.subBands|
    ensures ElementPairs(info, BandFlags(false, false)) == []
  {
    NoBandNothing(info.subBands[..SubBandCount(info.len)], 0, MAX_NO_OF_CHAN);
  }

  /** wlan_11d_get_chan, with its search loop. */
  method GetChanLoop(table: seq<nat>, first: nat, n: nat) returns (chan: Option<nat>)
    ensures chan == GetChan(table, first, n)
  {
    var i := 0;
    while i < |table|
      invariant 0 <= i <= |table|
      invariant forall k :: 0 <= k < i ==> table[k] != first
    {
      if table[i] == first {
        break;
      }
      i := i + 1;
    }
    if i < |table| {
      IndexIs(table, first, i);
      if i + n < |table| {
        return Some(table[i + n]);
      }
    } else {
      assert IndexOf(table, first) == |table|;
    }
    return None;
  }

  function Entry(p: Pair, band: nat, was: ChanPower): ChanPower {
    ChanPower(p.0, band, p.1, was.apSeen)
  }

  lemma ExpandNext(table: seq<nat>, b: SubBand, i: nat, room: nat, ps: seq<Pair>, last: nat)
    requires i <= |ps| && ps[i..] == Expand(table, b, i, room)
    requires room > 0 && i < b.noOfChan && GetChan(table, b.firstChan, i).Some?
    ensures i < |ps| && ps[i] == (GetChan(table, b.firstChan, i).value, b.maxTxPwr)
    ensures ps[i + 1..] == Expand(table, b, i + 1, room - 1)
    ensures LastChan(last, ps[..i + 1]) == ps[i].0
  {
    assert ps[i..][0] == ps[i] && ps[i..][1..] == ps[i + 1..];
  }

  /** One sub-band of the element: writes its channels from `idx` on. */
  method ParseOne(table: seq<nat>, b: SubBand, bandCode: nat, chanPwr: array<ChanPower>, idx: nat, last: nat)
    returns (next: nat, lastChan: nat)
    requires idx <= chanPwr.Length
    modifies chanPwr
    ensures var ps := Expand(table, b, 0, chanPwr.Length - idx);
            && next == idx + |ps| <= chanPwr.Length && lastChan == LastChan(last, ps)
            && (forall k :: 0 <= k < |ps| ==> chanPwr[idx + k] == Entry(ps[k], bandCode, old(chanPwr[idx + k])))
            && (forall k :: 0 <= k < chanPwr.Length && !(idx <= k < next) ==> chanPwr[k] == old(chanPwr[k]))
  {
    next, lastChan := idx, last;
    ghost var ps := Expand(table, b, 0, chanPwr.Length - idx);
    var i := 0;
    while next < chanPwr.Length && i < b.noOfChan
      invariant next == idx + i <= chanPwr.Length && i <= |ps|
      invariant ps[i..] == Expand(table, b, i, chanPwr.Length - next)
      invariant lastChan == LastChan(last, ps[..i])
      invariant forall k :: 0 <= k < i ==> chanPwr[idx + k] == Entry(ps[k], bandCode, old(chanPwr[idx + k]))
      invariant forall k :: 0 <= k < chanPwr.Length && !(idx <= k < next) ==> chanPwr[k] == old(chanPwr[k])
    {
      var cur := GetChanLoop(table, b.firstChan, i);
      if cur.None? {
        break;
      }
      ExpandNext(table, b, i, chanPwr.Length - next, ps, last);
      lastChan := cur.value;
      chanPwr[next] := ChanPower(cur.value, bandCode, b.maxTxPwr, chanPwr[next].apSeen);
      next, i := next + 1, i + 1;
    }
    assert ps[i..] == [] ==> ps[..i] == ps;
  }

  /** How far the loop over the sub-bands has come: `done` channels written, `bands` still to be read. */
  datatype Progress = Progress(done: nat, bands: seq<SubBand>, last: nat)

  ghost predicate OnTrack(table: seq<nat>, goal: seq<Pair>, p: Progress) {
    && p.done <= |goal| <= MAX_NO_OF_CHAN
    && goal[p.done..] == ParseBands(table, p.bands, p.last, MAX_NO_OF_CHAN - p.done)
  }

  lemma TrackSkips(table: seq<nat>, goal: seq<Pair>, p: Progress)
    requires OnTrack(table, goal, p) && p.bands != [] && p.bands[0].firstChan <= p.last
    ensures OnTrack(table, goal, Progress(p.done, p.bands[1..], p.last))
  {
    hide Expand;
  }

  lemma TrackAdvances(table: seq<nat>, goal: seq<Pair>, p: Progress, ps: seq<Pair>)
    requires OnTrack(table, goal, p) && p.bands != [] && p.bands[0].firstChan > p.last
    requires ps == Expand(table, p.bands[0], 0, MAX_NO_OF_CHAN - p.done)
    ensures p.done + |ps| <= |goal| && goal[p.done..p.done + |ps|] == ps
    ensures OnTrack(table, goal, Progress(p.done + |ps|, p.bands[1..], LastChan(p.last, ps)))
  {
    hide Expand;
    var rest := ParseBands(table, p.bands[1..], LastChan(p.last, ps), MAX_NO_OF_CHAN - p.done - |ps|);
    ConcatParts(ps, rest);
    assert goal[p.done..] == ps + rest;
    assert goal[p.done + |ps|..] == goal[p.done..][|ps|..];
    assert goal[p.done..p.done + |ps|] == goal[p.done..][..|ps|];
  }

  /** wlan_11d_parse_domain_info, on a channel array of MAX_NO_OF_CHAN entries. */
  method ParseDomainInfo(info: CountryInfo, band: BandFlags, bandCode: nat, chanPwr: array<ChanPower>)
    returns (ok: bool, noOfChan: nat)
    requires chanPwr.Length == MAX_NO_OF_CHAN && SubBandCount(info.len) <= |info.subBands|
    modifies chanPwr
    ensures ok <==> info.codeByte0 != 0 && info.len > 3
    ensures ok ==>
              var ps := ElementPairs(info, band);
              && noOfChan == |ps|
              && (forall k :: 0 <= k < |ps| ==>
                    && (chanPwr[k].chan, chanPwr[k].pwr) == ps[k] && chanPwr[k].band == bandCode
                    && chanPwr[k].apSeen == old(chanPwr[k].apSeen))
              && (forall k :: |ps| <= k < chanPwr.Length ==> chanPwr[k] == old(chanPwr[k]))
    ensures !ok ==> chanPwr[..] == old(chanPwr[..]) && noOfChan == 0
  {
    ok, noOfChan := false, 0;
    if info.codeByte0 == 0 || info.len <= COUNTRY_CODE_LEN {
      return;
    }
    ok := true;
    noOfChan := ParseAll(info.subBands[..SubBandCount(info.len)], Table(band), bandCode, chanPwr);
  }

  method ParseAll(bands: seq<SubBand>, table: seq<nat>, bandCode: nat, chanPwr: array<ChanPower>)
    returns (noOfChan: nat)
    requires chanPwr.Length == MAX_NO_OF_CHAN
    modifies chanPwr
    ensures var ps := ParseBands(table, bands, 0, MAX_NO_OF_CHAN);
            && noOfChan == |ps|
            && (forall k :: 0 <= k < |ps| ==> chanPwr[k] == Entry(ps[k], bandCode, old(chanPwr[k])))
            && (forall k :: |ps| <= k < chanPwr.Length ==> chanPwr[k] == old(chanPwr[k]))
  {
    noOfChan := 0;
    ghost var goal := ParseBands(table, bands, 0, MAX_NO_OF_CHAN);
    ghost var was := chanPwr[..];
    var j, last := 0, 0;
    assert bands[0..] == bands && goal[0..] == goal;
    while j < |bands|
      invariant 0 <= j <= |bands| && noOfChan <= MAX_NO_OF_CHAN
      invariant OnTrack(table, goal, Progress(noOfChan, bands[j..], last))
      invariant Written(goal, noOfChan, bandCode, was, chanPwr[..])
    {
      noOfChan, last := ParseNext(bands, j, table, bandCode, chanPwr, noOfChan, last, goal, was);
      j := j + 1;
    }
    assert bands[|bands|..] == [];
  }

  /** The first `done` channels of the goal are written, the other entries are untouched. */
  ghost predicate Written(goal: seq<Pair>, done: nat, bandCode: nat, was: seq<ChanPower>, now: seq<ChanPower>)
    requires done <= |goal| && |was| == |now| && |goal| <= |was|
  {
    && (forall k :: 0 <= k < done ==> now[k] == Entry(goal[k], bandCode, was[k]))
    && (forall k :: done <= k < |was| ==> now[k] == was[k])
  }

  /** The body of the loop over the sub-bands. */
  method ParseNext(bands: seq<SubBand>, j: nat, table: seq<nat>, bandCode: nat, chanPwr: array<ChanPower>,
                   idx: nat, last: nat, ghost goal: seq<Pair>, ghost was: seq<ChanPower>)
    returns (next: nat, lastChan: nat)
    requires chanPwr.Length == |was| == MAX_NO_OF_CHAN && j < |bands| && idx <= MAX_NO_OF_CHAN
    requires OnTrack(table, goal, Progress(idx, bands[j..], last)) && Written(goal, idx, bandCode, was, chanPwr[..])
    modifies chanPwr
    ensures next <= MAX_NO_OF_CHAN && OnTrack(table, goal, Progress(next, bands[j + 1..], lastChan))
    ensures Written(goal, next, bandCode, was, chanPwr[..])
  {
    hide Expand, ParseBands;
    ghost var p := Progress(idx, bands[j..], last);
    assert p.bands[0] == bands[j] && p.bands[1..] == bands[j + 1..];
    if bands[j].firstChan <= last {
      TrackSkips(table, goal, p);
      return idx, last;
    }
    ghost var ps := Expand(table, bands[j], 0, chanPwr.Length - idx);
    TrackAdvances(table, goal, p, ps);
    next, lastChan := ParseOne(table, bands[j], bandCode, chanPwr, idx, last);
    forall k | 0 <= k < next
      ensures chanPwr[k] == Entry(goal[k], bandCode, was[k])
    {
      if k >= idx {
        assert goal[k] == goal[idx..next][k - idx] && chanPwr[k] == chanPwr[idx + (k - idx)];
      }
    }
  }
}
