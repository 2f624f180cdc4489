/**
 * The non-occupancy list of the DFS code: one timestamp per channel, expired entries dropped when they are asked
 * about (mlan_11h.c). The non-occupancy period is that of section 4.2.6 of ETSI EN 301 893 V2.1.1.
 */
module DfsNop {
  import opened Wrappers

  datatype Repr = NotInUse | NopStart | CacCompletion

  datatype Timestamp = Timestamp(channel: nat, sec: nat, represents: Repr)

  const NON_OCCUPANCY_PERIOD := 1800
  const U32 := 0x1_0000_0000

  /** Position of the first entry for a channel, or the length of the list. */
  function Find(ts: seq<Timestamp>, channel: nat): (i: nat)
    ensures i <= |ts|
    ensures i < |ts| ==> ts[i].channel == channel
    ensures forall k :: 0 <= k < i ==> ts[k].channel != channel
  {
    if ts == [] || ts[0].channel == channel then 0 else 1 + Find(ts[1..], channel)
  }

  function Lookup(ts: seq<Timestamp>, channel: nat): Option<Timestamp> {
    var i := Find(ts, channel);
    if i < |ts| then Some(ts[i]) else None
  }

  /** Unsigned 32-bit difference of two clock readings. */
  function Elapsed(now: nat, sec: nat): nat {
    (now - sec) % U32
  }

  predicate Occupied(t: Timestamp, now: nat) {
    t.represents.NopStart? && Elapsed(now, t.sec) <= NON_OCCUPANCY_PERIOD
  }

  predicate UnderNop(ts: seq<Timestamp>, channel: nat, now: nat) {
    Lookup(ts, channel).Some? && Occupied(Lookup(ts, channel).value, now)
  }

  /** The list after a timestamp is added for a channel, or its timestamp replaced. */
  function Marking(ts: seq<Timestamp>, t: Timestamp): seq<Timestamp> {
    var i := Find(ts, t.channel);
    if i < |ts| then ts[i := t] else ts + [t]
  }

  function Without(ts: seq<Timestamp>, i: nat): seq<Timestamp>
    requires i < |ts|
  {
    ts[..i] + ts[i + 1..]
  }

  /** The list after asking about a channel: an expired entry for it is gone. */
  function Asking(ts: seq<Timestamp>, channel: nat, now: nat): seq<Timestamp> {
    var i := Find(ts, channel);
    if i < |ts| && ts[i].represents.NopStart? && !Occupied(ts[i], now) then Without(ts, i) else ts
  }

  // ---- One entry per channel ----

  ghost predicate OnePerChannel(ts: seq<Timestamp>) {
    forall i, j :: 0 <= i < j < |ts| ==> ts[i].channel != ts[j].channel
  }

  lemma FindIs(ts: seq<Timestamp>, channel: nat, i: nat)
    requires OnePerChannel(ts) && i < |ts| && ts[i].channel == channel
    ensures Find(ts, channel) == i
  {
    var j := Find(ts, channel);
    assert j <= i;
  }

  lemma MarkingLooksUp(ts: seq<Timestamp>, t: Timestamp, c: nat)
    requires OnePerChannel(ts)
    ensures OnePerChannel(Marking(ts, t))
    ensures Lookup(Marking(ts, t), c) == if c == t.channel then Some(t) else Lookup(ts, c)
  {
    var marked := Marking(ts, t);
    var j := Find(ts, c);
    if c == t.channel {
      assert marked[j] == t;
      FindIs(marked, c, j);
    } else if j < |ts| {
      assert marked[j] == ts[j];
      FindIs(marked, c, j);
    } else {
      assert forall k :: 0 <= k < |marked| ==> marked[k] == t || (k < |ts| && marked[k] == ts[k]);
    }
  }

  lemma WithoutLooksUp(ts: seq<Timestamp>, i: nat, c: nat)
    requires OnePerChannel(ts) && i < |ts|
    ensures OnePerChannel(Without(ts, i))
    ensures Lookup(Without(ts, i), c) == if c == ts[i].channel then None else Lookup(ts, c)
  {
    var rest := Without(ts, i);
    assert forall k :: 0 <= k < |rest| ==> rest[k] == ts[if k < i then k else k + 1];
    var j := Find(ts, c);
    if c != ts[i].channel && j < |ts| {
      var k := if j < i then j else j - 1;
      assert rest[k] == ts[j];
      FindIs(rest, c, k);
    }
  }

  // ---- Runs ----

  /** A timestamp written (or lost, when its allocation failed), or a channel asked about. */
  datatype Event = Mark(channel: nat, represents: Repr, now: nat, stored: bool) | Ask(channel: nat, now: nat)

  function Step(ts: seq<Timestamp>, e: Event): seq<Timestamp> {
    match e
    case Mark(c, r, now, stored) => if stored then Marking(ts, Timestamp(c, now, r)) else ts
    case Ask(c, now) => Asking(ts, c, now)
  }

  function After(es: seq<Event>): seq<Timestamp> {
    if es == [] then [] else Step(After(es[..|es| - 1]), es[|es| - 1])
  }

  /** The clock is monotonic within its 32 bits of seconds, and storing fails only where a new entry is needed. */
  ghost predicate Possible(es: seq<Event>) {
    es != [] ==>
      var e, before := es[|es| - 1], es[..|es| - 1];
      && Possible(before)
      && Clock(before) <= e.now < U32
      && (e.Mark? && !e.stored ==> Lookup(After(before), e.channel).None?)
  }

  function Clock(es: seq<Event>): nat {
    if es == [] then 0 else es[|es| - 1].now
  }

  /** The reference: the last timestamp stored for a channel, never removed. */
  function LastMark(es: seq<Event>, channel: nat): Option<Timestamp> {
    if es == [] then None
    else
      var e := es[|es| - 1];
      if e.Mark? && e.stored && e.channel == channel then Some(Timestamp(channel, e.now, e.represents))
      else LastMark(es[..|es| - 1], channel)
  }

  /** Radar was last seen no longer ago than the period, thirty minutes. */
  ghost predicate RadarWithinPeriod(m: Option<Timestamp>, now: nat) {
    m.Some? && m.value.represents.NopStart? && now - m.value.sec <= 1800
  }

  /** The list agrees with the reference except that it may have dropped an expired timestamp. */
  ghost predicate Agrees(found: Option<Timestamp>, m: Option<Timestamp>, now: nat) {
    && (found.Some? ==> found == m)
    && (m.Some? ==> m.value.sec <= now)
    && (found.None? && m.Some? ==> m.value.represents.NopStart? && now - m.value.sec > NON_OCCUPANCY_PERIOD)
  }

  lemma {:induction false} ListTracks(es: seq<Event>, c: nat)
    requires Possible(es)
    ensures OnePerChannel(After(es)) && Agrees(Lookup(After(es), c), LastMark(es, c), Clock(es)) && Clock(es) < U32
    decreases |es|
  {
    hide Lookup, Marking, Without, OnePerChannel;
    if es == [] {
      NothingFound(c);
    } else {
      var before, e := es[..|es| - 1], es[|es| - 1];
      var ts := After(before);
      ListTracks(before, c);
      if e.Mark? && e.stored {
        MarkingLooksUp(ts, Timestamp(e.channel, e.now, e.represents), c);
      } else if e.Ask? {
        AskingTracks(ts, e.channel, e.now, LastMark(before, c), Clock(before), c);
      }
    }
  }

  lemma NothingFound(c: nat)
    ensures OnePerChannel([]) && Lookup([], c) == None
  {
  }

  lemma AskingTracks(ts: seq<Timestamp>, asked: nat, now: nat, m: Option<Timestamp>, before: nat, c: nat)
    requires OnePerChannel(ts) && Agrees(Lookup(ts, c), m, before) && before <= now < U32
    ensures OnePerChannel(Asking(ts, asked, now)) && Agrees(Lookup(Asking(ts, asked, now), c), m, now)
  {
    var i := Find(ts, asked);
    if Asking(ts, asked, now) != ts {
      WithoutLooksUp(ts, i, c);
      if c == asked {
        assert Lookup(ts, c) == Some(ts[i]);
        assert Elapsed(now, ts[i].sec) == now - ts[i].sec;
      }
    }
  }

  /**
   * On every run the answer to a question is what the channel's last stored timestamp says, removals
   * notwithstanding, and no channel ever has two entries.
   */
  lemma AnswersAreExact(es: seq<Event>, channel: nat, now: nat)
    requires Possible(es) && Clock(es) <= now < U32
    ensures UnderNop(After(es), channel, now) <==> RadarWithinPeriod(LastMark(es, channel), now)
    ensures OnePerChannel(After(es))
  {
    ListTracks(es, channel);
    var m := LastMark(es, channel);
    if m.Some? {
      assert Elapsed(now, m.value.sec) == now - m.value.sec;
    }
  }

  /** Asking about a channel removes its entry if that is a radar hit past the period, and no other. */
  lemma AskingRemovesExactly(es: seq<Event>, asked: nat, now: nat, channel: nat)
    requires Possible(es) && Clock(es) <= now < U32
    ensures var t := Lookup(After(es), channel);
            Lookup(Asking(After(es), asked, now), channel) ==
            if channel == asked && t.Some? && t.value.represents.NopStart? && now - t.value.sec > 1800 then None else t
  {
    hide After, LastMark, Possible, Without, OnePerChannel;
    ListTracks(es, asked);
    ListTracks(es, channel);
    var ts := After(es);
    var i := Find(ts, asked);
    if i < |ts| {
      assert Lookup(ts, asked) == Some(ts[i]) && Elapsed(now, ts[i].sec) == now - ts[i].sec;
      WithoutLooksUp(ts, i, channel);
    }
  }

  /** Asking about any channel leaves every later answer as it was. */
  lemma AskingChangesNoAnswer(es: seq<Event>, asked: nat, at: nat, channel: nat, now: nat)
    requires Possible(es) && Clock(es) <= at <= now < U32
    ensures UnderNop(Asking(After(es), asked, at), channel, now) <==> UnderNop(After(es), channel, now)
  {
    var longer := es + [Ask(asked, at)];
    assert longer[..|longer| - 1] == es;
    AnswersAreExact(longer, channel, now);
    AnswersAreExact(es, channel, now);
  }

  /** The same for any list with one entry per channel and no timestamp in the future. */
  lemma AskingKeepsAnswers(ts: seq<Timestamp>, asked: nat, now: nat, channel: nat)
    requires OnePerChannel(ts)
    ensures OnePerChannel(Asking(ts, asked, now))
    ensures UnderNop(Asking(ts, asked, now), channel, now) <==> UnderNop(ts, channel, now)
  {
    var i := Find(ts, asked);
    if Asking(ts, asked, now) != ts {
      WithoutLooksUp(ts, i, channel);
    }
  }

  // ---- The list itself ----

  class DfsState {
    /** The linked list, from its head. */
    var dfsTs: seq<Timestamp>

    ghost predicate Valid()
      reads this
    {
      OnePerChannel(dfsTs)
    }

    constructor ()
      ensures Valid() && dfsTs == After([])
    {
      dfsTs := [];
    }

    /** wlan_11h_find_dfs_timestamp: walks the list; its length when nothing is found. */
    method FindDfsTimestamp(channel: nat) returns (i: nat)
      ensures i == Find(dfsTs, channel)
    {
      i := 0;
      while i < |dfsTs|
        invariant 0 <= i <= |dfsTs|
        invariant forall k :: 0 <= k < i ==> dfsTs[k].channel != channel
      {
        if dfsTs[i].channel == channel {
          break;
        }
        i := i + 1;
      }
    }

    /** wlan_11h_add_dfs_timestamp; `nodeAvailable` says whether a new node can be allocated. */
    method AddDfsTimestamp(represents: Repr, channel: nat, now: nat, nodeAvailable: bool) returns (stored: bool)
      requires Valid()
      modifies this
      ensures Valid()
      ensures stored <==> nodeAvailable || Lookup(old(dfsTs), channel).Some?
      ensures dfsTs == Step(old(dfsTs), Mark(channel, represents, now, stored))
    {
      MarkingLooksUp(dfsTs, Timestamp(channel, now, represents), channel);
      var i := FindDfsTimestamp(channel);
      if i == |dfsTs| {
        if !nodeAvailable {
          return false;
        }
        dfsTs := dfsTs + [Timestamp(channel, 0, NotInUse)];
      }
      dfsTs := dfsTs[i := dfsTs[i].(sec := now, represents := represents)];
      stored := true;
      assert i == |old(dfsTs)| ==> dfsTs == old(dfsTs) + [Timestamp(channel, now, represents)];
    }

    /** wlan_11h_remove_dfs_timestamp */
    method RemoveDfsTimestamp(i: nat)
      requires i < |dfsTs|
      modifies this
      ensures dfsTs == Without(old(dfsTs), i)
    {
      dfsTs := dfsTs[..i] + dfsTs[i + 1..];
    }

    /** wlan_11h_is_channel_under_nop */
    method IsChannelUnderNop(channel: nat, now: nat) returns (r: bool)
      requires Valid()
      modifies this
      ensures Valid()
      ensures r <==> UnderNop(old(dfsTs), channel, now)
      ensures dfsTs == Step(old(dfsTs), Ask(channel, now))
      ensures forall c :: UnderNop(dfsTs, c, now) <==> UnderNop(old(dfsTs), c, now)
    {
      ghost var was := dfsTs;
      AskingAnswersKept(was, channel, now);
      r := false;
      var i := FindDfsTimestamp(channel);
      if i < |dfsTs| && dfsTs[i].represents.NopStart? {
        if (now - dfsTs[i].sec) % U32 <= NON_OCCUPANCY_PERIOD {
          r := true;
        }
        if !r {
          RemoveDfsTimestamp(i);
        }
      }
    }
  }

  lemma AskingAnswersKept(ts: seq<Timestamp>, asked: nat, now: nat)
    requires OnePerChannel(ts)
    ensures OnePerChannel(Asking(ts, asked, now))
    ensures forall c :: UnderNop(Asking(ts, asked, now), c, now) <==> UnderNop(ts, c, now)
  {
    AskingKeepsAnswers(ts, asked, now, 0);
    forall c: nat
      ensures UnderNop(Asking(ts, asked, now), c, now) <==> UnderNop(ts, c, now)
    {
      AskingKeepsAnswers(ts, asked, now, c);
    }
  }
}
