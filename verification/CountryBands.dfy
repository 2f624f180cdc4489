/**
 * Compressing a channel list into the sub-bands of a Country element (section 8.4.2.10 of IEEE Std
 * 802.11-2012) and expanding sub-bands through the universal channel tables (mlan_11d.c).
 */
module CountryBands {
  import opened CountrySort

  datatype SubBand = SubBand(firstChan: nat, noOfChan: nat, maxTxPwr: nat)

  /** A channel and its power, all that a Country element carries. */
  type Pair = (nat, nat)

  const MAX_NO_OF_CHAN := 40
  const COUNTRY_CODE_LEN := 3
  const SUBBAND_SET_LEN := 3

  /** Channels of the universal tables, in table order. */
  const UN_BG: seq<nat> := [1, 2, 3, 4, 5, 6, 7, 8, 9, 10, 11, 12, 13, 14]
  const UN_AJ: seq<nat> := [8, 12, 16, 34, 38, 42, 46, 36, 40, 44, 48, 52, 56, 60, 64, 100, 104, 108, 112, 116,
                            120, 124, 128, 132, 136, 140, 149, 153, 157, 161, 165]

  function Pairs(cs: seq<ChanPower>): (ps: seq<Pair>)
    ensures |ps| == |cs|
    ensures forall i :: 0 <= i < |cs| ==> ps[i] == (cs[i].chan, cs[i].pwr)
  {
    seq(|cs|, i requires 0 <= i < |cs| => (cs[i].chan, cs[i].pwr))
  }

  // ---- Generation ----

  /** The sub-bands of the rest of the list, given the one being built: `n` channels from `first` at power `pwr`. */
  function Close(first: nat, n: nat, pwr: nat, rest: seq<ChanPower>): seq<SubBand>
    decreases |rest|
  {
    if rest == [] then [SubBand(first, n, pwr)]
    else if rest[0].chan == first + n && rest[0].pwr == pwr then Close(first, n + 1, pwr, rest[1..])
    else [SubBand(first, n, pwr)] + Close(rest[0].chan, 1, rest[0].pwr, rest[1..])
  }

  function Compress(cs: seq<ChanPower>): seq<SubBand> {
    if cs == [] then [] else Close(cs[0].chan, 1, cs[0].pwr, cs[1..])
  }

  /** The channels first, first + 1, ... of one sub-band, by arithmetic. */
  function Run(first: nat, n: nat, pwr: nat): (ps: seq<Pair>)
    ensures |ps| == n
  {
    seq(n, i requires 0 <= i < n => (first + i, pwr))
  }

  function Runs(bands: seq<SubBand>): seq<Pair> {
    if bands == [] then [] else Run(bands[0].firstChan, bands[0].noOfChan, bands[0].maxTxPwr) + Runs(bands[1..])
  }

  /** Every sub-band has a channel, and none continues the one before it. */
  ghost predicate MaximalRuns(bands: seq<SubBand>) {
    && (forall i :: 0 <= i < |bands| ==> bands[i].noOfChan >= 1)
    && (forall i :: 0 < i < |bands| ==>
          !(bands[i].firstChan == bands[i - 1].firstChan + bands[i - 1].noOfChan
            && bands[i].maxTxPwr == bands[i - 1].maxTxPwr))
  }

  lemma {:induction false} CloseIsRuns(first: nat, n: nat, pwr: nat, rest: seq<ChanPower>)
    requires n >= 1
    ensures var bands := Close(first, n, pwr, rest);
            && bands != [] && bands[0].firstChan == first && bands[0].maxTxPwr == pwr && bands[0].noOfChan >= n
            && |bands| <= 1 + |rest|
            && Runs(bands) == Run(first, n, pwr) + Pairs(rest)
            && MaximalRuns(bands)
    decreases |rest|
  {
    hide MaximalRuns, Runs;
    if rest == [] {
      CloseEnds(first, n, pwr);
    } else {
      var c := rest[0];
      assert Pairs(rest) == [(c.chan, c.pwr)] + Pairs(rest[1..]);
      if c.chan == first + n && c.pwr == pwr {
        CloseIsRuns(first, n + 1, pwr, rest[1..]);
        assert Run(first, n + 1, pwr) == Run(first, n, pwr) + [(c.chan, c.pwr)];
      } else {
        CloseIsRuns(c.chan, 1, c.pwr, rest[1..]);
        assert Run(c.chan, 1, c.pwr) == [(c.chan, c.pwr)];
        CloseBoundary(first, n, pwr, rest);
      }
    }
  }

  lemma CloseEnds(first: nat, n: nat, pwr: nat)
    requires n >= 1
    ensures Runs([SubBand(first, n, pwr)]) == Run(first, n, pwr) + Pairs([])
    ensures MaximalRuns([SubBand(first, n, pwr)])
  {
    assert Runs([SubBand(first, n, pwr)]) == Run(first, n, pwr) + [];
  }

  /** A run that cannot be extended by the next entry stays apart from the run that entry starts. */
  lemma {:induction false} CloseBoundary(first: nat, n: nat, pwr: nat, rest: seq<ChanPower>)
    requires n >= 1 && rest != [] && !(rest[0].chan == first + n && rest[0].pwr == pwr)
    requires var bands := Close(rest[0].chan, 1, rest[0].pwr, rest[1..]);
             bands != [] && bands[0].firstChan == rest[0].chan && bands[0].maxTxPwr == rest[0].pwr && MaximalRuns(bands)
    ensures MaximalRuns(Close(first, n, pwr, rest))
    ensures Runs(Close(first, n, pwr, rest))
         == Run(first, n, pwr) + Runs(Close(rest[0].chan, 1, rest[0].pwr, rest[1..]))
  {
    var tail := Close(rest[0].chan, 1, rest[0].pwr, rest[1..]);
    var bands := [SubBand(first, n, pwr)] + tail;
    assert bands[1..] == tail;
    assert forall i :: 1 <= i < |bands| ==> bands[i] == tail[i - 1];
  }

  /** The generated sub-bands expand to the list and are its maximal runs. */
  lemma CompressIsMaximalRuns(cs: seq<ChanPower>)
    ensures Runs(Compress(cs)) == Pairs(cs) && MaximalRuns(Compress(cs)) && |Compress(cs)| <= |cs|
  {
    if cs != [] {
      CloseIsRuns(cs[0].chan, 1, cs[0].pwr, cs[1..]);
      assert Run(cs[0].chan, 1, cs[0].pwr) + Pairs(cs[1..]) == Pairs(cs);
    }
  }

  lemma RunsHead(bands: seq<SubBand>)
    requires bands != []
    ensures var b := bands[0];
            && |Runs(bands)| == b.noOfChan + |Runs(bands[1..])|
            && (forall i :: 0 <= i < b.noOfChan ==> Runs(bands)[i] == (b.firstChan + i, b.maxTxPwr))
            && Runs(bands)[b.noOfChan..] == Runs(bands[1..])
  {
    ConcatParts(Run(bands[0].firstChan, bands[0].noOfChan, bands[0].maxTxPwr), Runs(bands[1..]));
  }

  lemma ConcatParts<T>(a: seq<T>, b: seq<T>)
    ensures |a + b| == |a| + |b| && (a + b)[|a|..] == b && (forall i :: 0 <= i < |a| ==> (a + b)[i] == a[i])
  {
  }

  lemma {:induction false} MaximalTail(bands: seq<SubBand>)
    requires MaximalRuns(bands) && bands != []
    ensures MaximalRuns(bands[1..]) && bands[0].noOfChan >= 1
    ensures |bands| > 1 ==>
              (Runs(bands[1..]) != [] &&
               Runs(bands[1..])[0] != (bands[0].firstChan + bands[0].noOfChan, bands[0].maxTxPwr))
  {
    var t := bands[1..];
    assert forall i :: 0 <= i < |t| ==> t[i] == bands[i + 1];
    if |bands| > 1 {
      RunsHead(t);
      assert t[0].noOfChan >= 1;
    }
  }

  /** The first of two maximal decompositions of one list is not shorter than the other's. */
  lemma {:induction false} FirstRunNotShorter(a: seq<SubBand>, b: seq<SubBand>)
    requires MaximalRuns(a) && MaximalRuns(b) && a != [] && b != [] && Runs(a) == Runs(b)
    ensures a[0].firstChan == b[0].firstChan && a[0].maxTxPwr == b[0].maxTxPwr && a[0].noOfChan >= b[0].noOfChan
  {
    RunsHead(a);
    RunsHead(b);
    MaximalTail(a);
    MaximalTail(b);
    assert Runs(a)[0] == Runs(b)[0];
    var n := a[0].noOfChan;
    assert |Runs(a)| > n ==> Runs(a)[n..][0] == Runs(a)[n] == Runs(b)[n];
  }

  /** A list has only one decomposition into maximal runs. */
  lemma {:induction false} MaximalRunsUnique(a: seq<SubBand>, b: seq<SubBand>)
    requires MaximalRuns(a) && MaximalRuns(b) && Runs(a) == Runs(b)
    ensures a == b
    decreases |a|
  {
    if a == [] {
      if b != [] {
        RunsHead(b);
        MaximalTail(b);
      }
    } else {
      RunsHead(a);
      MaximalTail(a);
      if b != [] {
        FirstRunNotShorter(a, b);
        FirstRunNotShorter(b, a);
        RunsHead(b);
        MaximalTail(b);
        MaximalRunsUnique(a[1..], b[1..]);
        assert a == [a[0]] + a[1..] && b == [b[0]] + b[1..];
      }
    }
  }

  /** What the next channel does to the sub-bands still to come. */
  lemma CloseNext(done: seq<SubBand>, first: nat, n: nat, pwr: nat, cs: seq<ChanPower>, i: nat)
    requires i < |cs|
    ensures cs[i].chan == first + n && cs[i].pwr == pwr ==>
              Close(first, n, pwr, cs[i..]) == Close(first, n + 1, pwr, cs[i + 1..])
    ensures !(cs[i].chan == first + n && cs[i].pwr == pwr) ==>
              done + Close(first, n, pwr, cs[i..]) ==
              done + [SubBand(first, n, pwr)] + Close(cs[i].chan, 1, cs[i].pwr, cs[i + 1..])
  {
    assert cs[i..][0] == cs[i] && cs[i..][1..] == cs[i + 1..];
  }

  /** wlan_11d_generate_domain_info, from clearing the array on; returns the number of sub-bands. */
  method GenerateDomainInfo(chanPwr: array<ChanPower>, noOfChan: nat, subBand: array<SubBand>)
    returns (noOfSubBand: nat)
    requires noOfChan <= chanPwr.Length && noOfChan <= subBand.Length && noOfChan <= 255
    modifies subBand
    ensures noOfSubBand <= subBand.Length
    ensures subBand[..noOfSubBand] == Compress(chanPwr[..noOfChan])
    ensures forall k :: noOfSubBand <= k < subBand.Length ==> subBand[k] == SubBand(0, 0, 0)
  {
    forall k | 0 <= k < subBand.Length {
      subBand[k] := SubBand(0, 0, 0);
    }
    noOfSubBand := 0;
    var firstChan, nextChan, maxPwr, noOfParsedChan := 0, 0, 0, 0;
    var flag := false;
    ghost var cs := chanPwr[..noOfChan];
    for i := 0 to noOfChan
      invariant noOfSubBand <= i <= subBand.Length
      invariant flag <==> i > 0
      invariant flag ==> noOfSubBand < i && nextChan + 1 == firstChan + noOfParsedChan
      invariant flag ==> subBand[..noOfSubBand] + Close(firstChan, noOfParsedChan, maxPwr, cs[i..]) == Compress(cs)
      invariant !flag ==> noOfSubBand == 0
      invariant forall k :: noOfSubBand <= k < subBand.Length ==> subBand[k] == SubBand(0, 0, 0)
    {
      CloseNext(subBand[..noOfSubBand], firstChan, noOfParsedChan, maxPwr, cs, i);
      if !flag {
        flag := true;
        firstChan, nextChan := chanPwr[i].chan, chanPwr[i].chan;
        maxPwr, noOfParsedChan := chanPwr[i].pwr, 1;
        assert subBand[..0] == [] && cs[1..] == cs[i + 1..];
      } else if chanPwr[i].chan == nextChan + 1 && chanPwr[i].pwr == maxPwr {
        nextChan, noOfParsedChan := nextChan + 1, noOfParsedChan + 1;
      } else {
        ghost var done := subBand[..noOfSubBand];
        var band := SubBand(firstChan, noOfParsedChan, maxPwr);
        subBand[noOfSubBand] := band;
        noOfSubBand := noOfSubBand + 1;
        assert subBand[..noOfSubBand] == done + [band];
        noOfParsedChan := 1;
        firstChan, nextChan, maxPwr := chanPwr[i].chan, chanPwr[i].chan, chanPwr[i].pwr;
      }
    }
    if flag {
      ghost var done := subBand[..noOfSubBand];
      var band := SubBand(firstChan, noOfParsedChan, maxPwr);
      subBand[noOfSubBand] := band;
      noOfSubBand := noOfSubBand + 1;
      assert subBand[..noOfSubBand] == done + [band];
      assert cs[noOfChan..] == [];
    }
  }
}
