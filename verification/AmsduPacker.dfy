/** Greedy aggregation of queued packets into one A-MSDU, and the counters that go with the queue (mlan_11n_aggr.c). */
module AmsduPacker {
  import opened Wrappers
  import opened AmsduFormat
  import Buf = AmsduBuffer

  datatype Packet = Packet(bytes: seq<Byte>, requeued: bool)

  /** What other contexts do while the list lock is released after one packet. */
  datatype Interval = Interval(listValid: bool, arrivals: seq<Packet>)

  datatype Status = Success | Pending | Failure | Resource

  /** Frames an aggregate can be built from. */
  ghost predicate Aggregable(q: seq<Packet>) {
    forall i :: 0 <= i < |q| ==> |q[i].bytes| >= ETH_HDR && !q[i].requeued
  }

  ghost predicate AggregableEnv(env: seq<Interval>) {
    forall i :: 0 <= i < |env| ==> Aggregable(env[i].arrivals)
  }

  predicate Fits(size: nat, len: nat, headroom: nat, limit: nat) {
    size + (len + LLC_SNAP_LEN) + headroom <= limit
  }

  datatype Packed = Packed(
    taken: seq<Packet>,
    arrived: seq<Packet>,
    left: seq<Packet>,
    size: nat,
    pad: nat,
    valid: bool)

  function FirstInterval(env: seq<Interval>): Interval {
    if env == [] then Interval(true, []) else env[0]
  }

  function LaterIntervals(env: seq<Interval>): seq<Interval> {
    if env == [] then [] else env[1..]
  }

  /** The packing loop as a function of the queue and of what happens in each unlocked interval. */
  ghost function Pack(q: seq<Packet>, size: nat, pad: nat, headroom: nat, limit: nat, env: seq<Interval>): (r: Packed)
    requires Aggregable(q) && AggregableEnv(env)
    decreases limit - size
  {
    if q == [] || !Fits(size, |q[0].bytes|, headroom, limit) then Packed([], [], q, size, pad, true)
    else
      var p := Pad(|q[0].bytes| + LLC_SNAP_LEN);
      var next := size + (|q[0].bytes| + LLC_SNAP_LEN + p);
      var e := FirstInterval(env);
      var q1 := q[1..] + e.arrivals;
      if !e.listValid then Packed([q[0]], e.arrivals, q1, next, p, false)
      else
        var r := Pack(q1, next, p, headroom, limit, LaterIntervals(env));
        r.(taken := [q[0]] + r.taken, arrived := e.arrivals + r.arrived)
  }

  /** An aggregate of at least one packet fits the limit once its last padding is dropped. */
  lemma {:induction false} PackFits(q: seq<Packet>, size: nat, pad: nat, headroom: nat, limit: nat, env: seq<Interval>)
    requires Aggregable(q) && AggregableEnv(env)
    ensures var r := Pack(q, size, pad, headroom, limit, env);
            && r.size >= size && (r.taken == [] ==> r.size == size && r.pad == pad)
            && (r.taken != [] ==> r.pad <= r.size && r.size - r.pad + headroom <= limit)
    decreases limit - size
  {
    if q != [] && Fits(size, |q[0].bytes|, headroom, limit) && FirstInterval(env).listValid {
      var p := Pad(|q[0].bytes| + LLC_SNAP_LEN);
      PackFits(q[1..] + FirstInterval(env).arrivals, size + (|q[0].bytes| + LLC_SNAP_LEN + p), p, headroom, limit,
               LaterIntervals(env));
    }
  }

  /** While the list stays valid, packing stops only at an empty queue or at a packet that would exceed the limit. */
  lemma {:induction false} PackStops(q: seq<Packet>, size: nat, pad: nat, headroom: nat, limit: nat, env: seq<Interval>)
    requires Aggregable(q) && AggregableEnv(env)
    ensures var r := Pack(q, size, pad, headroom, limit, env);
            r.valid && r.left != [] ==> r.size + |r.left[0].bytes| + 8 + headroom > limit
    decreases limit - size
  {
    if q != [] && Fits(size, |q[0].bytes|, headroom, limit) && FirstInterval(env).listValid {
      var p := Pad(|q[0].bytes| + LLC_SNAP_LEN);
      PackStops(q[1..] + FirstInterval(env).arrivals, size + (|q[0].bytes| + LLC_SNAP_LEN + p), p, headroom, limit,
                LaterIntervals(env));
    }
  }

  /** What arrives in the first `n` unlocked intervals. */
  function ArrivedIn(env: seq<Interval>, n: nat): seq<Packet> {
    if n == 0 then [] else FirstInterval(env).arrivals + ArrivedIn(LaterIntervals(env), n - 1)
  }

  /** Of the first `n` intervals the list outlasted all if `valid`, and otherwise all but the last. */
  ghost predicate BrokenOffAt(env: seq<Interval>, n: nat, valid: bool) {
    && (forall k :: 0 <= k < n - 1 && k < |env| ==> env[k].listValid)
    && (!valid <==> 0 < n <= |env| && !env[n - 1].listValid)
  }

  lemma BrokenOffLater(env: seq<Interval>, n: nat, valid: bool)
    requires FirstInterval(env).listValid && BrokenOffAt(LaterIntervals(env), n, valid)
    ensures BrokenOffAt(env, n + 1, valid)
  {
    var later := LaterIntervals(env);
    assert forall k :: 0 < k < |env| ==> env[k] == later[k - 1];
    if n > 0 {
      assert n < |env| ==> env[n] == later[n - 1];
    }
  }

  /**
   * Packing goes through one unlocked interval for each packet taken, with what arrives in it, and is broken off
   * exactly by the first of them in which the list disappears.
   */
  lemma {:induction false} PackInterrupted(q: seq<Packet>, size: nat, pad: nat, headroom: nat, limit: nat,
                                           env: seq<Interval>)
    requires Aggregable(q) && AggregableEnv(env)
    ensures var r := Pack(q, size, pad, headroom, limit, env);
            r.arrived == ArrivedIn(env, |r.taken|) && BrokenOffAt(env, |r.taken|, r.valid)
    decreases limit - size
  {
    if q != [] && Fits(size, |q[0].bytes|, headroom, limit) {
      PackOne(q, size, pad, headroom, limit, env);
      if FirstInterval(env).listValid {
        var p := Pad(|q[0].bytes| + LLC_SNAP_LEN);
        var next := size + (|q[0].bytes| + LLC_SNAP_LEN + p);
        var q1 := q[1..] + FirstInterval(env).arrivals;
        PackInterrupted(q1, next, p, headroom, limit, LaterIntervals(env));
        hide Pack, BrokenOffAt, Pad;
        var r := Pack(q1, next, p, headroom, limit, LaterIntervals(env));
        BrokenOffLater(env, |r.taken|, r.valid);
      } else {
        assert ArrivedIn(env, 1) == FirstInterval(env).arrivals + [];
      }
    }
  }

  /** Nothing is lost or reordered: what was taken, then what is left, is the queue followed by the arrivals. */
  lemma {:induction false} PackOrder(q: seq<Packet>, size: nat, pad: nat, headroom: nat, limit: nat, env: seq<Interval>)
    requires Aggregable(q) && AggregableEnv(env)
    ensures var r := Pack(q, size, pad, headroom, limit, env);
            && r.taken + r.left == q + r.arrived
            && Aggregable(r.left) && Aggregable(r.taken)
    decreases limit - size
  {
    hide Pack, Pad, Fits, FirstInterval, LaterIntervals, Aggregable, AggregableEnv;
    if q != [] && Fits(size, |q[0].bytes|, headroom, limit) {
      PackOne(q, size, pad, headroom, limit, env);
      var e := FirstInterval(env);
      var q1 := q[1..] + e.arrivals;
      HeadTail(q);
      if e.listValid {
        var p := Pad(|q[0].bytes| + LLC_SNAP_LEN);
        var next := size + (|q[0].bytes| + LLC_SNAP_LEN + p);
        PackAdvances(size, |q[0].bytes|, p, headroom, limit);
        PackOrder(q1, next, p, headroom, limit, LaterIntervals(env));
        var r := Pack(q1, next, p, headroom, limit, LaterIntervals(env));
        Regroup(q[0], r.taken, r.left, q[1..], e.arrivals, r.arrived);
        AggregableCons(q[0], r.taken);
      } else {
        assert [q[0]] + q1 == q + e.arrivals;
        AggregableCons(q[0], []);
      }
    } else {
      NothingPacked(q, size, pad, headroom, limit, env);
    }
  }

  lemma PackAdvances(size: nat, len: nat, p: nat, headroom: nat, limit: nat)
    requires Fits(size, len, headroom, limit)
    ensures limit - (size + (len + LLC_SNAP_LEN + p)) < limit - size && size < limit
  {
  }

  lemma AggregableCons(x: Packet, q: seq<Packet>)
    requires |x.bytes| >= ETH_HDR && !x.requeued
    ensures Aggregable(q) ==> Aggregable([x] + q)
    ensures Aggregable([x])
  {
  }

  lemma NothingPacked(q: seq<Packet>, size: nat, pad: nat, headroom: nat, limit: nat, env: seq<Interval>)
    requires Aggregable(q) && AggregableEnv(env) && (q == [] || !Fits(size, |q[0].bytes|, headroom, limit))
    ensures Pack(q, size, pad, headroom, limit, env) == Packed([], [], q, size, pad, true)
    ensures Aggregable([]) && [] + q == q + []
  {
  }

  lemma HeadTail<T>(s: seq<T>)
    requires s != []
    ensures [s[0]] + s[1..] == s
  {
  }

  lemma Regroup<T>(x: T, taken: seq<T>, left: seq<T>, rest: seq<T>, a1: seq<T>, a2: seq<T>)
    requires taken + left == (rest + a1) + a2
    ensures ([x] + taken) + left == ([x] + rest) + (a1 + a2)
  {
    assert ([x] + taken) + left == [x] + (taken + left);
  }

  function Frames(ps: seq<Packet>): (fs: seq<seq<Byte>>)
    ensures |fs| == |ps| && forall i :: 0 <= i < |ps| ==> fs[i] == ps[i].bytes
  {
    seq(|ps|, i requires 0 <= i < |ps| => ps[i].bytes)
  }

  /** The part of the buffer from `base` up to the end of the last subframe, before its padding. */
  ghost predicate BodySoFar(mem: seq<Byte>, base: nat, end: int, pad: nat, taken: seq<Packet>) {
    && Aggregable(taken) && AllFrames(Frames(taken))
    && (taken == [] ==> end == base && pad == 0)
    && (taken != [] ==> base + pad <= end && end - pad <= |mem| && pad == Pad(|taken[|taken| - 1].bytes| + LLC_SNAP_LEN)
                        && IsBody(mem[base..end - pad], Frames(taken)))
  }

  lemma BodyBegun(mem: seq<Byte>, base: nat, p: Packet)
    requires |p.bytes| >= ETH_HDR && !p.requeued && base + |p.bytes| + LLC_SNAP_LEN <= |mem|
    requires mem[base..base + |p.bytes| + LLC_SNAP_LEN] == Subframe(p.bytes)
    ensures IsBody(mem[base..base + |p.bytes| + LLC_SNAP_LEN], Frames([p]))
  {
    BodyOne(mem[base..base + |p.bytes| + LLC_SNAP_LEN], Frames([p]));
  }

  lemma BodyContinued(was: seq<Byte>, mem: seq<Byte>, base: nat, end: nat, pad: nat, taken: seq<Packet>, p: Packet)
    requires taken != [] && BodySoFar(was, base, end, pad, taken) && |p.bytes| >= ETH_HDR && !p.requeued
    requires |mem| == |was| && end + |p.bytes| + LLC_SNAP_LEN <= |mem|
    requires forall i :: base <= i < end - pad ==> mem[i] == was[i]
    requires mem[end..end + |p.bytes| + LLC_SNAP_LEN] == Subframe(p.bytes)
    ensures AllFrames(Frames(taken + [p]))
    ensures IsBody(mem[base..end + |p.bytes| + LLC_SNAP_LEN], Frames(taken + [p]))
  {
    hide IsBody, Subframe, Pad;
    var b := mem[base..end + |p.bytes| + LLC_SNAP_LEN];
    var all := Frames(taken + [p]);
    assert all[..|all| - 1] == Frames(taken);
    assert b[..end - pad - base] == was[base..end - pad];
    assert b[end - pad - base + pad..] == Subframe(p.bytes);
    BodyExtend(b, end - pad - base, pad, all);
  }

  lemma BodyGrows(was: seq<Byte>, mem: seq<Byte>, base: nat, end: nat, pad: nat, taken: seq<Packet>, p: Packet)
    requires BodySoFar(was, base, end, pad, taken) && |p.bytes| >= ETH_HDR && !p.requeued
    requires |mem| == |was| && end + |p.bytes| + LLC_SNAP_LEN <= |mem|
    requires forall i :: 0 <= i < end - pad ==> mem[i] == was[i]
    requires mem[end..end + |p.bytes| + LLC_SNAP_LEN] == Subframe(p.bytes)
    ensures var q := Pad(|p.bytes| + LLC_SNAP_LEN);
            BodySoFar(mem, base, end + |p.bytes| + LLC_SNAP_LEN + q, q, taken + [p])
  {
    hide IsBody, Subframe, Pad;
    if taken == [] {
      BodyBegun(mem, base, p);
      assert taken + [p] == [p];
    } else {
      BodyContinued(was, mem, base, end, pad, taken, p);
    }
  }

  lemma PackedCarries(mem: seq<Byte>, base: nat, end: nat, pad: nat, taken: seq<Packet>,
                      received: seq<Byte>, len: nat)
    requires BodySoFar(mem, base, end, pad, taken) && taken != []
    requires base <= end - pad <= |mem| && len == end - pad - base <= 65535
    requires len <= |received| && received[..len] == mem[base..end - pad]
    ensures Carries(received, received[..len], Frames(taken))
  {
    hide IsBody;
  }

  /** From any memory that starts with the body the packer wrote, the receiver extracts exactly the frames taken. */
  lemma PackedParses(mem: seq<Byte>, base: nat, end: nat, pad: nat, taken: seq<Packet>,
                     received: seq<Byte>, len: nat)
    requires BodySoFar(mem, base, end, pad, taken) && taken != []
    requires base <= end - pad <= |mem| && len == end - pad - base <= 65535
    requires len <= |received| && received[..len] == mem[base..end - pad]
    ensures ReadsInRange(received, len) && Deaggregate(received, len) == Frames(taken)
  {
    hide *;
    PackedCarries(mem, base, end, pad, taken, received, len);
    RoundTrip(received, received[..len], Frames(taken));
  }

  lemma PackOne(q: seq<Packet>, size: nat, pad: nat, headroom: nat, limit: nat, env: seq<Interval>)
    requires Aggregable(q) && AggregableEnv(env) && q != [] && Fits(size, |q[0].bytes|, headroom, limit)
    ensures Aggregable(q[1..]) && |q[0].bytes| >= ETH_HDR && !q[0].requeued
    ensures var e := FirstInterval(env);
            var q1 := q[1..] + e.arrivals;
            var p := Pad(|q[0].bytes| + LLC_SNAP_LEN);
            var next := size + (|q[0].bytes| + LLC_SNAP_LEN + p);
            && Aggregable(e.arrivals) && Aggregable(q1) && AggregableEnv(LaterIntervals(env))
            && Pack(q, size, pad, headroom, limit, env)
               == if !e.listValid then Packed([q[0]], e.arrivals, q1, next, p, false)
                  else var r := Pack(q1, next, p, headroom, limit, LaterIntervals(env));
                       r.(taken := [q[0]] + r.taken, arrived := e.arrivals + r.arrived)
  {
  }

  /** What packing has done so far, followed by what it does from here. */
  ghost function Resumed(taken: seq<Packet>, arrived: seq<Packet>, r: Packed): Packed {
    r.(taken := taken + r.taken, arrived := arrived + r.arrived)
  }

  lemma ResumedStep(taken: seq<Packet>, arrived: seq<Packet>, x: Packet, a: seq<Packet>, r: Packed)
    ensures Resumed(taken, arrived, r.(taken := [x] + r.taken, arrived := a + r.arrived))
         == Resumed(taken + [x], arrived + a, r)
  {
    assert taken + ([x] + r.taken) == (taken + [x]) + r.taken;
    assert arrived + (a + r.arrived) == (arrived + a) + r.arrived;
  }

  /** What is fixed during one call: the settings and the outcome packing is heading for. */
  datatype Job = Job(headroom: nat, txPd: nat, limit: nat, goal: Packed)

  /** A snapshot of the packing loop. */
  datatype Progress = Progress(queue: seq<Packet>, size: nat, pad: nat, rest: seq<Interval>,
                               taken: seq<Packet>, arrived: seq<Packet>, mem: seq<Byte>)

  /** The loop invariant: packing on from here reaches the goal, and the buffer holds what was taken. */
  ghost predicate OnTrack(j: Job, p: Progress) {
    && Aggregable(p.queue) && AggregableEnv(p.rest) && j.limit <= |p.mem|
    && j.goal == Resumed(p.taken, p.arrived, Pack(p.queue, p.size, p.pad, j.headroom, j.limit, p.rest))
    && BodySoFar(p.mem, j.headroom + j.txPd, j.headroom + p.size, p.pad, p.taken)
  }

  /** The snapshot after the loop: the goal is reached. */
  ghost predicate Arrived(j: Job, p: Progress, valid: bool) {
    && j.goal.size == p.size && j.goal.pad == p.pad && j.goal.valid == valid && j.goal.left == p.queue
    && BodySoFar(p.mem, j.headroom + j.txPd, j.headroom + p.size, p.pad, j.goal.taken)
  }

  lemma OnTrackStart(q: seq<Packet>, headroom: nat, txPd: nat, limit: nat, env: seq<Interval>, mem: seq<Byte>)
    requires Aggregable(q) && AggregableEnv(env) && limit <= |mem|
    ensures OnTrack(Job(headroom, txPd, limit, Pack(q, txPd, 0, headroom, limit, env)),
                    Progress(q, txPd, 0, env, [], [], mem))
  {
    var r := Pack(q, txPd, 0, headroom, limit, env);
    assert [] + r.taken == r.taken && [] + r.arrived == r.arrived;
  }

  lemma OnTrackNeeds(j: Job, p: Progress)
    requires OnTrack(j, p)
    ensures Aggregable(p.queue) && AggregableEnv(p.rest) && j.limit <= |p.mem|
    ensures BodySoFar(p.mem, j.headroom + j.txPd, j.headroom + p.size, p.pad, p.taken)
    ensures j.goal == Resumed(p.taken, p.arrived, Pack(p.queue, p.size, p.pad, j.headroom, j.limit, p.rest))
  {
  }

  lemma OnTrackEnd(j: Job, p: Progress)
    requires OnTrack(j, p) && (p.queue == [] || !Fits(p.size, |p.queue[0].bytes|, j.headroom, j.limit))
    ensures Arrived(j, p, true)
  {
    hide BodySoFar;
    assert p.taken + [] == p.taken;
  }

  /** The snapshot one round later. */
  function Advanced(p: Progress, mem: seq<Byte>): Progress
    requires p.queue != []
  {
    var x, during := p.queue[0], FirstInterval(p.rest);
    var pad := Pad(|x.bytes| + LLC_SNAP_LEN);
    Progress(p.queue[1..] + during.arrivals, p.size + (|x.bytes| + LLC_SNAP_LEN + pad), pad, LaterIntervals(p.rest),
             p.taken + [x], p.arrived + during.arrivals, mem)
  }

  lemma AdvancedShape(p: Progress, mem: seq<Byte>)
    requires p.queue != []
    ensures var q := Advanced(p, mem);
            var x := p.queue[0];
            && q.queue == p.queue[1..] + FirstInterval(p.rest).arrivals && q.mem == mem && q.taken == p.taken + [x]
            && q.pad == Pad(|x.bytes| + LLC_SNAP_LEN) && q.size == p.size + (|x.bytes| + LLC_SNAP_LEN + q.pad)
  {
  }

  lemma PackedNext(j: Job, p: Progress, mem: seq<Byte>)
    requires OnTrack(j, p) && p.queue != [] && Fits(p.size, |p.queue[0].bytes|, j.headroom, j.limit)
    ensures |p.queue[0].bytes| >= ETH_HDR
    ensures var q := Advanced(p, mem);
            var during := FirstInterval(p.rest);
            && Aggregable(q.queue) && AggregableEnv(q.rest)
            && (!during.listValid ==>
                  j.goal == Resumed(q.taken, q.arrived, Packed([], [], q.queue, q.size, q.pad, false)))
            && (during.listValid ==>
                  j.goal == Resumed(q.taken, q.arrived, Pack(q.queue, q.size, q.pad, j.headroom, j.limit, q.rest)))
  {
    hide BodySoFar, Pack, Aggregable, AggregableEnv, Fits, Resumed;
    OnTrackNeeds(j, p);
    PackOne(p.queue, p.size, p.pad, j.headroom, j.limit, p.rest);
    var q := Advanced(p, mem);
    var during := FirstInterval(p.rest);
    var next := if during.listValid then Pack(q.queue, q.size, q.pad, j.headroom, j.limit, q.rest)
                else Packed([], [], q.queue, q.size, q.pad, false);
    ResumedStep(p.taken, p.arrived, p.queue[0], during.arrivals, next);
    assert [p.queue[0]] + [] == [p.queue[0]] && during.arrivals + [] == during.arrivals;
  }

  lemma OnTrackNext(j: Job, p: Progress, mem: seq<Byte>)
    requires OnTrack(j, p) && p.queue != [] && Fits(p.size, |p.queue[0].bytes|, j.headroom, j.limit)
    requires |mem| == |p.mem|
    requires var q := Advanced(p, mem);
             BodySoFar(mem, j.headroom + j.txPd, j.headroom + q.size, q.pad, q.taken)
    ensures if FirstInterval(p.rest).listValid then OnTrack(j, Advanced(p, mem))
            else Arrived(j, Advanced(p, mem), false)
  {
    hide BodySoFar, Pack, Aggregable, AggregableEnv, Fits, Advanced, FirstInterval;
    OnTrackNeeds(j, p);
    PackedNext(j, p, mem);
    AdvancedShape(p, mem);
    var q := Advanced(p, mem);
    assert q.taken + [] == q.taken;
  }

  datatype Result = Sent(size: nat) | Failed

  /** An RA list with its queue and the counters kept beside it. */
  class RaList {
    var queue: seq<Packet>
    var totalPkts: int
    var pktsQueued: int
    var txPktsQueued: int

    /** util_dequeue_list with the three decrements. */
    method Dequeue() returns (p: Packet)
      requires queue != []
      modifies this
      ensures p == old(queue[0]) && queue == old(queue[1..])
      ensures totalPkts == old(totalPkts) - 1 && pktsQueued == old(pktsQueued) - 1
      ensures txPktsQueued == old(txPktsQueued) - 1
    {
      p := queue[0];
      queue := queue[1..];
      totalPkts, pktsQueued, txPktsQueued := totalPkts - 1, pktsQueued - 1, txPktsQueued - 1;
    }

    /** Packets that other contexts queue while the lock is released; they count them the same way. */
    method Arrive(ps: seq<Packet>)
      modifies this
      ensures queue == old(queue) + ps
      ensures totalPkts == old(totalPkts) + |ps| && pktsQueued == old(pktsQueued) + |ps|
      ensures txPktsQueued == old(txPktsQueued) + |ps|
    {
      queue := queue + ps;
      totalPkts, pktsQueued, txPktsQueued := totalPkts + |ps|, pktsQueued + |ps|, txPktsQueued + |ps|;
    }

    /** One round of the packing loop: take the head, write its subframe at `end`, and let others in meanwhile. */
    method TakeOne(buf: array<Byte>, ghost base: nat, end: nat, ghost pad: nat, during: Interval,
                   ghost taken: seq<Packet>) returns (subframe: nat, nextPad: nat)
      requires queue != [] && Aggregable(queue) && end + |queue[0].bytes| + LLC_SNAP_LEN <= buf.Length
      requires BodySoFar(buf[..], base, end, pad, taken)
      modifies this, buf
      ensures queue == old(queue)[1..] + during.arrivals
      ensures nextPad == Pad(|old(queue)[0].bytes| + LLC_SNAP_LEN)
      ensures subframe == |old(queue)[0].bytes| + LLC_SNAP_LEN + nextPad
      ensures BodySoFar(buf[..], base, end + subframe, nextPad, taken + [old(queue)[0]])
      ensures totalPkts - old(totalPkts) == pktsQueued - old(pktsQueued)
           == txPktsQueued - old(txPktsQueued) == |queue| - |old(queue)|
    {
      hide BodySoFar, Subframe;
      ghost var was, x := buf[..], queue[0];
      var src := Dequeue();
      subframe, nextPad := Buf.FormAmsduPkt(buf, end, src.bytes);
      BodyGrows(was, buf[..], base, end, pad, taken, x);
      Arrive(during.arrivals);
    }

    /** `TakeOne` on a snapshot. */
    method Round(buf: array<Byte>, headroom: nat, size: nat, during: Interval, ghost j: Job, ghost p: Progress)
      returns (nextSize: nat, nextPad: nat)
      requires OnTrack(j, p) && p.queue == queue != [] && p.mem == buf[..] && p.size == size
      requires during == FirstInterval(p.rest) && headroom == j.headroom
      requires Fits(size, |queue[0].bytes|, headroom, j.limit)
      modifies this, buf
      ensures var q := Advanced(p, buf[..]);
              && q.queue == queue && q.size == nextSize && q.pad == nextPad
              && if during.listValid then OnTrack(j, q) else Arrived(j, q, false)
      ensures totalPkts - old(totalPkts) == pktsQueued - old(pktsQueued)
           == txPktsQueued - old(txPktsQueued) == |queue| - |old(queue)|
    {
      hide OnTrack, Arrived, BodySoFar, Pack, Aggregable, AggregableEnv, Resumed, FirstInterval, LaterIntervals,
           Advanced, Pad, IsBody, Frames, AllFrames;
      OnTrackNeeds(j, p);
      var subframe;
      subframe, nextPad := TakeOne(buf, j.headroom + j.txPd, headroom + size, p.pad, during, p.taken);
      nextSize := size + subframe;
      AdvancedShape(p, buf[..]);
      OnTrackNext(j, p, buf[..]);
    }

    /** The packing loop of wlan_11n_aggregate_pkt, writing subframes behind the TxPD. */
    method PackInto(buf: array<Byte>, headroom: nat, txPd: nat, limit: nat, env: seq<Interval>)
      returns (size: nat, pad: nat, valid: bool, ghost p: Progress)
      requires Aggregable(queue) && AggregableEnv(env) && limit <= buf.Length && headroom + txPd <= buf.Length
      modifies this, buf
      ensures Arrived(Job(headroom, txPd, limit, Pack(old(queue), txPd, 0, headroom, limit, env)), p, valid)
      ensures p.queue == queue && p.size == size && p.pad == pad && p.mem == buf[..]
      ensures totalPkts - old(totalPkts) == pktsQueued - old(pktsQueued)
           == txPktsQueued - old(txPktsQueued) == |queue| - |old(queue)|
    {
      var rest := env;
      size, pad, valid := txPd, 0, true;
      ghost var j := Job(headroom, txPd, limit, Pack(queue, txPd, 0, headroom, limit, env));
      p := Progress(queue, txPd, 0, env, [], [], buf[..]);
      OnTrackStart(queue, headroom, txPd, limit, env, buf[..]);
      while queue != [] && Fits(size, |queue[0].bytes|, headroom, limit)
        invariant valid && OnTrack(j, p)
        invariant p.queue == queue && p.size == size && p.pad == pad && p.rest == rest && p.mem == buf[..]
        invariant totalPkts - old(totalPkts) == pktsQueued - old(pktsQueued)
               == txPktsQueued - old(txPktsQueued) == |queue| - |old(queue)|
        decreases limit - size
      {
        var during := FirstInterval(rest);
        size, pad := Round(buf, headroom, size, during, j, p);
        rest, p := LaterIntervals(rest), Advanced(p, buf[..]);
        if !during.listValid {
          valid := false;
          return;
        }
      }
      OnTrackEnd(j, p);
    }

    /**
     * wlan_11n_aggregate_pkt.  `outcome` is what wlan_sdio_host_to_card returns and `validAfter` whether the
     * list still exists when the lock is taken again to requeue.
     */
    method AggregatePkt(headroom: nat, txPd: nat, maxAmsdu: nat, txBufSize: nat, allocOk: bool,
                        env: seq<Interval>, outcome: Status, validAfter: bool)
      returns (result: Result, ghost mem: seq<Byte>)
      requires Aggregable(queue) && AggregableEnv(env) && headroom + txPd <= txBufSize
      modifies this
      ensures totalPkts - old(totalPkts) == pktsQueued - old(pktsQueued)
           == txPktsQueued - old(txPktsQueued) == |queue| - |old(queue)|
      ensures old(queue) == [] ==> result == Sent(headroom) && queue == []
      ensures old(queue) != [] && !allocOk ==> result == Failed && queue == old(queue)
      ensures old(queue) != [] && allocOk ==>
                var limit := if maxAmsdu <= txBufSize then maxAmsdu else txBufSize;
                var r := Pack(old(queue), txPd, 0, headroom, limit, env);
                && (!r.valid ==> result == Failed && queue == r.left)
                && (r.valid ==>
                      && BodySoFar(mem, headroom + txPd, headroom + r.size, r.pad, r.taken)
                      && r.pad <= headroom + r.size <= |mem| + r.pad
                      && (outcome.Resource? && !validAfter ==> result == Failed && queue == r.left)
                      && (!(outcome.Resource? && !validAfter) ==>
                            && result == Sent(headroom + r.size - r.pad)
                            && queue == (if outcome.Resource? then [Packet(mem[..headroom + r.size - r.pad], true)]
                                         else []) + r.left))
    {
      hide Pack, BodySoFar, Aggregable, AggregableEnv;
      mem := [];
      if queue == [] {
        return Sent(headroom), [];
      }
      if !allocOk {
        return Failed, [];
      }
      var limit := if maxAmsdu <= txBufSize then maxAmsdu else txBufSize;
      var buf := new Byte[txBufSize];
      ghost var r := Pack(queue, txPd, 0, headroom, limit, env);
      ghost var p;
      var size, pad, valid;
      PackFits(queue, txPd, 0, headroom, limit, env);
      size, pad, valid, p := PackInto(buf, headroom, txPd, limit, env);
      mem := buf[..];
      if !valid {
        return Failed, mem;
      }
      size := size - pad;
      match outcome {
        case Resource =>
          if !validAfter {
            return Failed, mem;
          }
          Requeue(Packet(buf[..headroom + size], true));
        case Failure =>
        case Pending =>
        case Success =>
      }
      result := Sent(size + headroom);
    }

    /** util_enqueue_list_head with the three increments: the whole aggregate comes back as one packet. */
    method Requeue(p: Packet)
      modifies this
      ensures queue == [p] + old(queue)
      ensures totalPkts == old(totalPkts) + 1 && pktsQueued == old(pktsQueued) + 1
      ensures txPktsQueued == old(txPktsQueued) + 1
    {
      queue := [p] + queue;
      totalPkts, pktsQueued, txPktsQueued := totalPkts + 1, pktsQueued + 1, txPktsQueued + 1;
    }
  }
}
