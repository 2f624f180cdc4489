/** Firmware download through the helper, with resends on a reported CRC error (bt_sdiommc.c). */
module BtDownload {
  import opened Wrappers

  const MAX_CMD53_RETRY := 3
  const SD_BLOCK_SIZE_FW_DL := 256
  const BT_UPLD_SIZE := 2312
  const MAX_POLL_TRIES := 100
  const DMA_ALIGNMENT := 64

  /** The transfer buffer: what is left of the allocation after aligning its start. */
  ghost predicate IsFwBuf(buf: seq<Byte>) {
    BT_UPLD_SIZE < |buf| <= BT_UPLD_SIZE + DMA_ALIGNMENT
  }

  /** The longest chunk whose blocks lie inside the buffer. */
  const MAX_INSIDE := 2304

  /** One read of the helper's length registers. */
  datatype Read = ReadFailed | Bases(base0: Byte, base1: Byte)

  /** What the card does in one turn of the loop: its status poll and the length reads it answers. */
  datatype Turn = Turn(ready: bool, answers: seq<Read>)

  datatype Length = NoLength | Length(len: nat)

  /**
   * A transfer: the bytes written from the buffer, how many more were read beyond its end to fill the blocks, how many
   * of the bytes were unsent, and whether it repeats the transfer before.
   */
  datatype Frame = Frame(data: seq<Byte>, beyond: nat, unsent: nat, resend: bool)

  datatype State = State(offset: nat, retries: nat, txBlocks: nat, buf: seq<Byte>, sent: seq<Frame>)

  /** How a turn ends: another turn, the end of the loop without error, or failure. */
  datatype Outcome = Running(s: State) | Over(s: State) | Failed(s: State)

  function LengthOf(r: Read): nat
    requires r.Bases?
  {
    r.base1 * 256 + r.base0
  }

  /** The first length that is not zero, or zero after the last read. */
  function PollLength(answers: seq<Read>): Length {
    if answers == [] then Length(0)
    else if answers[0].ReadFailed? then NoLength
    else if LengthOf(answers[0]) != 0 then Length(LengthOf(answers[0]))
    else PollLength(answers[1..])
  }

  function Start(buf: seq<Byte>): State {
    State(0, 0, 0, buf, [])
  }

  function Min(a: nat, b: nat): nat {
    if a < b then a else b
  }

  function Blocks(n: nat): nat {
    (n + SD_BLOCK_SIZE_FW_DL - 1) / SD_BLOCK_SIZE_FW_DL
  }

  /** Whatever the alignment, the blocks of a chunk lie inside the buffer exactly if it has at most 2304 bytes. */
  lemma InsideExactly(buf: seq<Byte>, n: nat)
    requires IsFwBuf(buf) && n <= BT_UPLD_SIZE
    ensures n <= Blocks(n) * SD_BLOCK_SIZE_FW_DL && n <= |buf|
    ensures (n + 255) / 256 * 256 <= |buf| <==> n <= 2304
    ensures Blocks(n) * SD_BLOCK_SIZE_FW_DL <= |buf| <==> n <= MAX_INSIDE
  {
  }

  /** sdio_writesb of whole blocks from the start of the buffer. */
  function Transfer(buf: seq<Byte>, blocks: nat, unsent: nat, resend: bool): (f: Frame)
    ensures |f.data| + f.beyond == blocks * SD_BLOCK_SIZE_FW_DL && f.data <= buf
  {
    var n := Min(blocks * SD_BLOCK_SIZE_FW_DL, |buf|);
    Frame(buf[..n], blocks * SD_BLOCK_SIZE_FW_DL - n, unsent, resend)
  }

  /** The odd bit is ignored before the first block. */
  function EffectiveLength(offset: nat, len: nat): nat {
    if offset == 0 && len % 2 == 1 then len - 1 else len
  }

  ghost predicate Fits(s: State, fw: seq<Byte>) {
    s.offset <= |fw| && IsFwBuf(s.buf)
  }

  /** The last blocks once more. */
  function Resend(s: State): State {
    s.(retries := s.retries + 1, sent := s.sent + [Transfer(s.buf, s.txBlocks, 0, true)])
  }

  /** The next chunk of the image. */
  function SendNext(s: State, fw: seq<Byte>, len: nat): (r: State)
    requires Fits(s, fw) && len <= BT_UPLD_SIZE
    ensures Fits(r, fw)
  {
    var txlen := Min(len, |fw| - s.offset);
    var buf := fw[s.offset..s.offset + txlen] + s.buf[txlen..];
    State(s.offset + txlen, 0, Blocks(txlen), buf, s.sent + [Transfer(buf, Blocks(txlen), txlen, false)])
  }

  /** One turn of the loop. */
  function Step(s: State, fw: seq<Byte>, t: Turn): (r: Outcome)
    requires Fits(s, fw)
    ensures r.Running? ==> Fits(r.s, fw)
  {
    if !t.ready then Failed(s)
    else if s.offset >= |fw| then Over(s)
    else if PollLength(t.answers).NoLength? then Failed(s)
    else
      var len := PollLength(t.answers).len;
      if len == 0 then Over(s)
      else if len > BT_UPLD_SIZE then Failed(s)
      else if EffectiveLength(s.offset, len) % 2 == 1 then
        if s.retries + 1 >= MAX_CMD53_RETRY then Failed(s.(retries := s.retries + 1)) else Running(Resend(s))
      else Running(SendNext(s, fw, EffectiveLength(s.offset, len)))
  }

  // ---- What one turn does ----

  /** The read at place `k` is the first that fails or offers a length. */
  ghost predicate Decides(answers: seq<Read>, k: nat) {
    && k < |answers|
    && (forall i :: 0 <= i < k ==> answers[i] == Bases(0, 0))
    && answers[k] != Bases(0, 0)
  }

  /** The length is that of the first deciding read, low byte first, and zero if there is none. */
  lemma {:induction false} PollExactly(answers: seq<Read>, k: nat)
    ensures Decides(answers, k) ==>
              PollLength(answers) == if answers[k].ReadFailed? then NoLength
                                     else Length(answers[k].base0 + 256 * answers[k].base1)
    ensures (forall i :: 0 <= i < |answers| ==> answers[i] == Bases(0, 0)) ==> PollLength(answers) == Length(0)
  {
    if answers != [] && answers[0] == Bases(0, 0) {
      PollExactly(answers[1..], if k > 0 then k - 1 else 0);
    }
  }

  /**
   * A turn, from the poll and the length offered: failure for a card not ready, no length read, a length above 2312 or
   * the third bad block in a row; the end for an image sent or length zero; a repetition for an odd length once
   * something is sent; otherwise as many bytes as asked for and left, in whole blocks of 256.
   */
  lemma TurnExactly(s: State, fw: seq<Byte>, t: Turn)
    requires Fits(s, fw)
    ensures var r, p := Step(s, fw, t), PollLength(t.answers);
            if !t.ready then r == Failed(s)
            else if s.offset == |fw| then r == Over(s)
            else if p.NoLength? || p.len > 2312 then r == Failed(s)
            else if p.len == 0 then r == Over(s)
            else if s.offset > 0 && p.len % 2 == 1 then
              && r.s.offset == s.offset && r.s.retries == s.retries + 1 && r.s.buf == s.buf
              && (if s.retries == 2 then r.Failed? && r.s.sent == s.sent
                  else s.retries < 2 ==>
                    r.Running? && r.s.sent == s.sent + [Transfer(s.buf, s.txBlocks, 0, true)])
            else
              var asked := p.len - p.len % 2;
              var n := if asked <= |fw| - s.offset then asked else |fw| - s.offset;
              && r.Running? && r.s.offset == s.offset + n && r.s.retries == 0
              && r.s.buf[..n] == fw[s.offset..s.offset + n] && r.s.buf[n..] == s.buf[n..]
              && r.s.txBlocks == (n + 255) / 256 && r.s.sent == s.sent + [Transfer(r.s.buf, r.s.txBlocks, n, false)]
  {
    hide PollLength, Transfer;
  }

  // ---- What every run keeps ----

  /** The new bytes of all transfers, in order. */
  function NewBytes(sent: seq<Frame>): seq<Byte> {
    if sent == [] then []
    else
      var f := sent[|sent| - 1];
      NewBytes(sent[..|sent| - 1]) + f.data[..Min(f.unsent, |f.data|)]
  }

  /** The resends at the end of the log. */
  function TrailingResends(sent: seq<Frame>): nat {
    if sent == [] || !sent[|sent| - 1].resend then 0 else 1 + TrailingResends(sent[..|sent| - 1])
  }

  ghost predicate Kept(s: State, fw: seq<Byte>) {
    && Fits(s, fw) && s.retries < MAX_CMD53_RETRY
    && NewBytes(s.sent) == fw[..s.offset]
    && (forall k :: 0 <= k < |s.sent| && s.sent[k].resend ==>
          k > 0 && s.sent[k] == s.sent[k - 1].(unsent := 0, resend := true))
    && (forall k :: 0 <= k < |s.sent| && !s.sent[k].resend ==>
          (s.sent[k].beyond == 0 <==> s.sent[k].unsent <= MAX_INSIDE))
    && (s.sent == [] ==> s.offset == 0)
    && (s.sent != [] ==>
          s.sent[|s.sent| - 1].(unsent := 0, resend := true) == Transfer(s.buf, s.txBlocks, 0, true))
    && s.retries == TrailingResends(s.sent)
  }

  lemma StartKept(fw: seq<Byte>, buf: seq<Byte>)
    requires IsFwBuf(buf)
    ensures Kept(Start(buf), fw)
  {
  }

  lemma NewBytesSnoc(sent: seq<Frame>, f: Frame)
    ensures NewBytes(sent + [f]) == NewBytes(sent) + f.data[..Min(f.unsent, |f.data|)]
    ensures TrailingResends(sent + [f]) == if f.resend then 1 + TrailingResends(sent) else 0
  {
    assert (sent + [f])[..|sent|] == sent;
  }

  lemma NothingNew(buf: seq<Byte>, blocks: nat)
    ensures var f := Transfer(buf, blocks, 0, true);
            f.resend && f.unsent == 0 && f.data[..Min(f.unsent, |f.data|)] == []
  {
  }

  lemma ResendKept(s: State, fw: seq<Byte>)
    requires Kept(s, fw) && s.sent != [] && s.retries + 1 < MAX_CMD53_RETRY
    ensures Kept(Resend(s), fw)
  {
    hide NewBytes, TrailingResends, Transfer;
    NewBytesSnoc(s.sent, Transfer(s.buf, s.txBlocks, 0, true));
    NothingNew(s.buf, s.txBlocks);
  }

  /** The transfer of a chunk carries it whole, and reads beyond the buffer only if the chunk is long. */
  lemma ChunkTransfer(chunk: seq<Byte>, rest: seq<Byte>)
    requires IsFwBuf(chunk + rest) && |chunk| <= BT_UPLD_SIZE
    ensures var n := |chunk|;
            var f := Transfer(chunk + rest, Blocks(n), n, false);
            && f.data[..Min(f.unsent, |f.data|)] == chunk && f.unsent == n && !f.resend
            && (f.beyond == 0 <==> n <= MAX_INSIDE)
            && f.(unsent := 0, resend := true) == Transfer(chunk + rest, Blocks(n), 0, true)
  {
    hide Blocks;
    InsideExactly(chunk + rest, |chunk|);
  }

  lemma SendNextKept(s: State, fw: seq<Byte>, len: nat)
    requires Kept(s, fw) && len <= BT_UPLD_SIZE
    ensures Kept(SendNext(s, fw, len), fw)
  {
    hide NewBytes, TrailingResends, Blocks, Transfer;
    var txlen := Min(len, |fw| - s.offset);
    var chunk := fw[s.offset..s.offset + txlen];
    var buf := chunk + s.buf[txlen..];
    var f := Transfer(buf, Blocks(txlen), txlen, false);
    ChunkTransfer(chunk, s.buf[txlen..]);
    NewBytesSnoc(s.sent, f);
    assert fw[..s.offset] + chunk == fw[..s.offset + txlen];
  }

  /** After any turn the new bytes sent are the image up to the offset, and a resend repeats the block just sent. */
  lemma StepKept(s: State, fw: seq<Byte>, t: Turn)
    requires Kept(s, fw)
    ensures var r := Step(s, fw, t);
            && (!r.Failed? ==> Kept(r.s, fw))
            && r.s.offset <= |fw| && NewBytes(r.s.sent) == fw[..r.s.offset]
  {
    hide NewBytes, TrailingResends, PollLength, SendNext, Resend, Blocks;
    if t.ready && s.offset < |fw| && PollLength(t.answers).Length? {
      var len := PollLength(t.answers).len;
      if 0 < len <= BT_UPLD_SIZE {
        var e := EffectiveLength(s.offset, len);
        if e % 2 == 1 {
          assert s.sent != [];
          if s.retries + 1 < MAX_CMD53_RETRY {
            ResendKept(s, fw);
          }
        } else {
          SendNextKept(s, fw, e);
        }
      }
    }
  }

  /** The loop ends without error either with the whole image sent or because no length was offered. */
  lemma OverMeans(s: State, fw: seq<Byte>, t: Turn)
    requires Kept(s, fw) && Step(s, fw, t).Over?
    ensures Step(s, fw, t).s == s
    ensures if s.offset < |fw| then PollLength(t.answers) == Length(0) else NewBytes(s.sent) == fw
  {
    assert fw[..|fw|] == fw;
  }

  // ---- Termination ----

  /** The helper asks for a single byte before anything has been sent. */
  predicate OneAtStart(s: State, t: Turn) {
    s.offset == 0 && PollLength(t.answers) == Length(1)
  }

  /** A turn that goes on has sent more of the image or used up a retry, unless one byte was asked for at the start. */
  lemma StepAdvances(s: State, fw: seq<Byte>, t: Turn)
    requires Kept(s, fw) && Step(s, fw, t).Running?
    ensures var r := Step(s, fw, t).s;
            if OneAtStart(s, t) then r.offset == 0 && r.retries == 0
            else
              && (r.offset > s.offset || (r.offset == s.offset && r.retries == s.retries + 1 < MAX_CMD53_RETRY))
              && r.offset > 0
  {
    hide NewBytes, TrailingResends, PollLength, Blocks;
  }

  /** The outcome after `n` turns, or at the end if the loop ends before. */
  function Run(fw: seq<Byte>, buf: seq<Byte>, env: nat -> Turn, n: nat): (r: Outcome)
    requires IsFwBuf(buf)
    ensures r.Running? ==> Fits(r.s, fw)
  {
    if n == 0 then Running(Start(buf))
    else
      var before := Run(fw, buf, env, n - 1);
      if before.Running? then Step(before.s, fw, env(n - 1)) else before
  }

  lemma {:induction false} RunKept(fw: seq<Byte>, buf: seq<Byte>, env: nat -> Turn, n: nat)
    requires IsFwBuf(buf)
    ensures var r := Run(fw, buf, env, n);
            && (!r.Failed? ==> Kept(r.s, fw))
            && r.s.offset <= |fw| && NewBytes(r.s.sent) == fw[..r.s.offset]
  {
    hide Kept, Step, NewBytes;
    if n == 0 {
      StartKept(fw, buf);
      NothingSent(buf);
    } else {
      RunKept(fw, buf, env, n - 1);
      var before := Run(fw, buf, env, n - 1);
      if before.Running? {
        StepKept(before.s, fw, env(n - 1));
      }
    }
  }

  lemma NothingSent(buf: seq<Byte>)
    ensures NewBytes(Start(buf).sent) == []
  {
  }

  // ---- What is read from the buffer ----

  /** No transfer has read beyond the buffer. */
  ghost predicate StaysInside(sent: seq<Frame>) {
    forall k :: 0 <= k < |sent| ==> sent[k].beyond == 0
  }

  /** The turn sends more than 2304 bytes of the image: an even length above that is offered and as much is left. */
  predicate LongChunk(s: State, fw: seq<Byte>, t: Turn) {
    && t.ready && s.offset < |fw| && PollLength(t.answers).Length?
    && var len := PollLength(t.answers).len;
       var e := EffectiveLength(s.offset, len);
       len <= BT_UPLD_SIZE && e % 2 == 0 && MAX_INSIDE < Min(e, |fw| - s.offset)
  }

  lemma StaysInsideSnoc(sent: seq<Frame>, f: Frame)
    ensures StaysInside(sent + [f]) <==> StaysInside(sent) && f.beyond == 0
  {
    assert (sent + [f])[|sent|] == f;
    assert forall k :: 0 <= k < |sent| ==> (sent + [f])[k] == sent[k];
  }

  lemma ResendInside(s: State, fw: seq<Byte>)
    requires Kept(s, fw) && s.sent != []
    ensures StaysInside(Resend(s).sent) <==> StaysInside(s.sent)
  {
    hide Transfer, NewBytes, TrailingResends;
    StaysInsideSnoc(s.sent, Transfer(s.buf, s.txBlocks, 0, true));
  }

  lemma SendNextInside(s: State, fw: seq<Byte>, len: nat)
    requires Fits(s, fw) && len <= BT_UPLD_SIZE
    ensures StaysInside(SendNext(s, fw, len).sent)
       <==> StaysInside(s.sent) && Min(len, |fw| - s.offset) <= MAX_INSIDE
  {
    hide Blocks, StaysInside, Transfer;
    var txlen := Min(len, |fw| - s.offset);
    var buf := fw[s.offset..s.offset + txlen] + s.buf[txlen..];
    ChunkTransfer(fw[s.offset..s.offset + txlen], s.buf[txlen..]);
    StaysInsideSnoc(s.sent, Transfer(buf, Blocks(txlen), txlen, false));
  }

  lemma StepInside(s: State, fw: seq<Byte>, t: Turn)
    requires Kept(s, fw)
    ensures StaysInside(Step(s, fw, t).s.sent) <==> StaysInside(s.sent) && !LongChunk(s, fw, t)
  {
    hide NewBytes, TrailingResends, PollLength, SendNext, Resend, Blocks, StaysInside;
    if t.ready && s.offset < |fw| && PollLength(t.answers).Length? {
      var len := PollLength(t.answers).len;
      if 0 < len <= BT_UPLD_SIZE {
        var e := EffectiveLength(s.offset, len);
        if e % 2 == 1 {
          assert s.sent != [];
          ResendInside(s, fw);
        } else {
          SendNextInside(s, fw, e);
        }
      }
    }
  }

  ghost predicate LongChunkAt(fw: seq<Byte>, buf: seq<Byte>, env: nat -> Turn, m: nat)
    requires IsFwBuf(buf)
  {
    var r := Run(fw, buf, env, m);
    r.Running? && LongChunk(r.s, fw, env(m))
  }

  /** Over every run, the transfers stay inside the buffer exactly as long as no turn sends a long chunk. */
  lemma {:induction false} StaysInsideExactly(fw: seq<Byte>, buf: seq<Byte>, env: nat -> Turn, n: nat)
    requires IsFwBuf(buf)
    ensures StaysInside(Run(fw, buf, env, n).s.sent) <==> forall m: nat :: m < n ==> !LongChunkAt(fw, buf, env, m)
  {
    hide Kept, Step, LongChunk;
    if n > 0 {
      StaysInsideExactly(fw, buf, env, n - 1);
      RunKept(fw, buf, env, n - 1);
      var before := Run(fw, buf, env, n - 1);
      assert LongChunkAt(fw, buf, env, n - 1) <==> before.Running? && LongChunk(before.s, fw, env(n - 1));
      if before.Running? {
        StepInside(before.s, fw, env(n - 1));
      }
    }
  }

  /** What is left to do: three turns for every byte not sent yet, less the retries already used. */
  function Left(s: State, fw: seq<Byte>): int {
    MAX_CMD53_RETRY * (|fw| - s.offset) - s.retries
  }

  /** At turn `n` nothing has been sent and the helper asks for one byte. */
  ghost predicate SpinsAt(fw: seq<Byte>, buf: seq<Byte>, env: nat -> Turn, n: nat)
    requires IsFwBuf(buf)
  {
    var r := Run(fw, buf, env, n);
    r.Running? && OneAtStart(r.s, env(n))
  }

  /** Once a turn has not spun, every later turn finds something sent. */
  lemma {:induction false} NoSpinAfter(fw: seq<Byte>, buf: seq<Byte>, env: nat -> Turn, m: nat, n: nat)
    requires IsFwBuf(buf) && !SpinsAt(fw, buf, env, m) && m <= n
    ensures !SpinsAt(fw, buf, env, n)
    ensures Run(fw, buf, env, m).Running? && n > m && Run(fw, buf, env, n).Running? ==>
              Run(fw, buf, env, n).s.offset > 0
    ensures Run(fw, buf, env, n).Running? ==> Run(fw, buf, env, m).Running?
    decreases n - m
  {
    hide Step, PollLength, Kept;
    if n > m {
      NoSpinAfter(fw, buf, env, m, n - 1);
      RunKept(fw, buf, env, n - 1);
      var before := Run(fw, buf, env, n - 1);
      if before.Running? && Step(before.s, fw, env(n - 1)).Running? {
        StepAdvances(before.s, fw, env(n - 1));
      }
    }
  }

  lemma FewRetries(s: State, fw: seq<Byte>)
    requires Kept(s, fw)
    ensures s.offset <= |fw| && s.retries < MAX_CMD53_RETRY
  {
  }

  lemma {:induction false} RunShrinks(fw: seq<Byte>, buf: seq<Byte>, env: nat -> Turn, m: nat, n: nat)
    requires IsFwBuf(buf) && !SpinsAt(fw, buf, env, m) && m <= n && Run(fw, buf, env, n).Running?
    ensures Run(fw, buf, env, m).Running?
    ensures Left(Run(fw, buf, env, n).s, fw) <= Left(Run(fw, buf, env, m).s, fw) - (n - m)
    decreases n - m
  {
    hide Kept, Step, NewBytes, PollLength, OneAtStart;
    if n > m {
      RunShrinks(fw, buf, env, m, n - 1);
      RunKept(fw, buf, env, n - 1);
      NoSpinAfter(fw, buf, env, m, n - 1);
      var before := Run(fw, buf, env, n - 1).s;
      StepAdvances(before, fw, env(n - 1));
      FewRetries(before, fw);
    }
  }

  /** After a turn that does not spin the loop ends within three turns a byte and three more. */
  lemma EndsAfter(fw: seq<Byte>, buf: seq<Byte>, env: nat -> Turn, m: nat)
    requires IsFwBuf(buf) && !SpinsAt(fw, buf, env, m)
    ensures !Run(fw, buf, env, m + 3 * (|fw| + 1)).Running?
  {
    hide Kept, Run, SpinsAt, NewBytes;
    var n := m + MAX_CMD53_RETRY * (|fw| + 1);
    if Run(fw, buf, env, n).Running? {
      RunShrinks(fw, buf, env, m, n);
      RunKept(fw, buf, env, m);
      FewRetries(Run(fw, buf, env, m).s, fw);
      RunKept(fw, buf, env, n);
      FewRetries(Run(fw, buf, env, n).s, fw);
    }
  }

  /** In a turn the card is ready and its helper asks for one byte. */
  predicate AsksForOne(t: Turn) {
    t.ready && PollLength(t.answers) == Length(1)
  }

  /** A helper that keeps asking for one byte does keep the loop going. */
  lemma {:induction false} OneByteSpins(fw: seq<Byte>, buf: seq<Byte>, env: nat -> Turn, n: nat)
    requires IsFwBuf(buf) && fw != []
    requires forall k: nat :: AsksForOne(env(k))
    ensures SpinsAt(fw, buf, env, n)
  {
    hide PollLength;
    if n > 0 {
      OneByteSpins(fw, buf, env, n - 1);
    }
  }

  ghost predicate NeverEnds(fw: seq<Byte>, buf: seq<Byte>, env: nat -> Turn)
    requires IsFwBuf(buf)
  {
    forall n: nat :: Run(fw, buf, env, n).Running?
  }

  ghost predicate AlwaysAsksForOne(env: nat -> Turn) {
    forall k: nat :: AsksForOne(env(k))
  }

  /** The loop does not end exactly if there is an image to send and the helper asks for one byte at every turn. */
  lemma NeverEndsExactly(fw: seq<Byte>, buf: seq<Byte>, env: nat -> Turn)
    requires IsFwBuf(buf)
    ensures NeverEnds(fw, buf, env) <==> fw != [] && AlwaysAsksForOne(env)
  {
    hide Run, AsksForOne;
    if NeverEnds(fw, buf, env) {
      forall k: nat
        ensures fw != [] && AsksForOne(env(k))
      {
        RunningAsks(fw, buf, env, k);
      }
      RunningAsks(fw, buf, env, 0);
    } else {
      var n: nat :| !Run(fw, buf, env, n).Running?;
      if fw != [] && AlwaysAsksForOne(env) {
        OneByteSpins(fw, buf, env, n);
      }
    }
  }

  /** A turn of a loop that does not end. */
  lemma RunningAsks(fw: seq<Byte>, buf: seq<Byte>, env: nat -> Turn, k: nat)
    requires IsFwBuf(buf) && NeverEnds(fw, buf, env)
    ensures fw != [] && AsksForOne(env(k))
  {
    hide PollLength, Resend, SendNext;
    assert Run(fw, buf, env, k + 1).Running?;
    if !SpinsAt(fw, buf, env, k) {
      EndsAfter(fw, buf, env, k);
    }
  }

  // ---- The loop ----

  /** The polling of the length registers. */
  method ReadLength(answers: seq<Read>) returns (r: Length)
    requires 0 < |answers| <= MAX_POLL_TRIES
    ensures r == PollLength(answers)
  {
    var tries := 0;
    var len: nat := 0;
    while tries < |answers|
      invariant 0 <= tries <= |answers| && len == 0
      invariant PollLength(answers[tries..]) == PollLength(answers)
    {
      var a := answers[tries];
      assert answers[tries..][0] == a && answers[tries..][1..] == answers[tries + 1..];
      if a.ReadFailed? {
        return NoLength;
      }
      len := a.base1 * 256 + a.base0;
      if len != 0 {
        break;
      }
      tries := tries + 1;
    }
    r := Length(len);
  }

  class Download {
    const firmware: seq<Byte>
    const fwbuf: array<Byte>
    var offset: nat
    /** Consecutive resends so far. */
    var i: nat
    var txBlocks: nat
    ghost var sent: seq<Frame>

    ghost function Now(): State
      reads this, fwbuf
    {
      State(offset, i, txBlocks, fwbuf[..], sent)
    }

    /** The allocation begins `skip` bytes before an aligned address. */
    constructor (fw: seq<Byte>, skip: nat)
      requires skip < DMA_ALIGNMENT
      ensures firmware == fw && fresh(fwbuf) && IsFwBuf(fwbuf[..]) && Now() == Start(fwbuf[..])
    {
      firmware := fw;
      fwbuf := new Byte[BT_UPLD_SIZE + DMA_ALIGNMENT - skip](k => 0);
      offset, i, txBlocks, sent := 0, 0, 0, [];
    }

    /** sdio_writesb: whole blocks from the start of the buffer go out, whether or not the card takes them. */
    ghost method Write(unsent: nat, resend: bool)
      modifies this`sent
      ensures sent == old(sent) + [Transfer(fwbuf[..], txBlocks, unsent, resend)]
    {
      sent := sent + [Transfer(fwbuf[..], txBlocks, unsent, resend)];
    }

    /** Copies the next chunk to the buffer and sends it. */
    method SendChunk(len: nat)
      requires Fits(Now(), firmware) && len <= BT_UPLD_SIZE
      modifies this`offset, this`i, this`txBlocks, this`sent, fwbuf
      ensures Now() == SendNext(old(Now()), firmware, len)
    {
      hide Blocks, Transfer;
      var txlen := len;
      i := 0;
      if |firmware| - offset < txlen {
        txlen := |firmware| - offset;
      }
      txBlocks := Blocks(txlen);
      ghost var was := fwbuf[..];
      forall k | 0 <= k < txlen {
        fwbuf[k] := firmware[offset + k];
      }
      assert fwbuf[..] == firmware[offset..offset + txlen] + was[txlen..];
      Write(txlen, false);
      offset := offset + txlen;
    }

    /** The part of a turn that sends: a resend for an odd length, otherwise the next chunk. */
    method SendBlock(len: nat) returns (ok: bool)
      requires Fits(Now(), firmware) && offset < |firmware| && 0 < len <= BT_UPLD_SIZE
      modifies this`offset, this`i, this`txBlocks, this`sent, fwbuf
      ensures var e := EffectiveLength(old(offset), len);
              if e % 2 == 1 then
                ok == (old(i) + 1 < MAX_CMD53_RETRY)
                && Now() == if ok then Resend(old(Now())) else old(Now()).(retries := old(i) + 1)
              else ok && Now() == SendNext(old(Now()), firmware, e)
    {
      hide SendNext;
      var length := len;
      if offset == 0 && length % 2 == 1 {
        length := length - 1;
      }
      ok := true;
      if length % 2 == 1 {
        i := i + 1;
        if i >= MAX_CMD53_RETRY {
          return false;
        }
        Write(0, true);
      } else {
        SendChunk(length);
      }
    }

    /** One turn of the loop. */
    method OneTurn(t: Turn) returns (more: bool, ok: bool)
      requires Fits(Now(), firmware) && 0 < |t.answers| <= MAX_POLL_TRIES
      modifies this`offset, this`i, this`txBlocks, this`sent, fwbuf
      ensures Step(old(Now()), firmware, t)
           == if more then Running(Now()) else if ok then Over(Now()) else Failed(Now())
      ensures more ==> ok
    {
      hide PollLength, SendNext, Resend;
      if !t.ready {
        return false, false;
      }
      if offset >= |firmware| {
        return false, true;
      }
      var r := ReadLength(t.answers);
      if r.NoLength? {
        return false, false;
      }
      if r.len == 0 {
        return false, true;
      }
      if r.len > BT_UPLD_SIZE {
        return false, false;
      }
      ok := SendBlock(r.len);
      more := ok;
    }

    /** sd_init_fw_dpc from the first turn on, for a card that does not ask for one byte for ever. */
    method InitFwDpc(env: nat -> Turn) returns (ok: bool)
      requires IsFwBuf(fwbuf[..]) && Now() == Start(fwbuf[..])
      requires forall k: nat :: 0 < |env(k).answers| <= MAX_POLL_TRIES
      requires firmware == [] || !AlwaysAsksForOne(env)
      modifies this`offset, this`i, this`txBlocks, this`sent, fwbuf
      ensures exists n: nat :: EndsAt(firmware, old(fwbuf[..]), env, n, ok, Now())
      ensures offset <= |firmware| && NewBytes(sent) == firmware[..offset]
    {
      hide Step, PollLength, NewBytes, SpinsAt;
      ghost var buf := fwbuf[..];
      NeverEndsExactly(firmware, buf, env);
      ghost var end: nat :| !Run(firmware, buf, env, end).Running?;
      var n: nat := 0;
      var more := true;
      ok := true;
      while more
        invariant !more ==> EndsAt(firmware, buf, env, n, ok, Now())
        invariant n <= end && Run(firmware, buf, env, n)
                              == if more then Running(Now()) else if ok then Over(Now()) else Failed(Now())
        decreases more, end - n
      {
        StillRunning(firmware, buf, env, n, end);
        RunKept(firmware, buf, env, n);
        if Step(Now(), firmware, env(n)).Over? {
          OverMeans(Now(), firmware, env(n));
        }
        more, ok := OneTurn(env(n));
        n := n + 1;
      }
      RunKept(firmware, buf, env, n);
    }
  }

  /**
   * The loop ends after `n` turns in state `s`; without error only when the whole image has been sent or the last
   * turn was offered no length.
   */
  ghost predicate EndsAt(fw: seq<Byte>, buf: seq<Byte>, env: nat -> Turn, n: nat, ok: bool, s: State) {
    && IsFwBuf(buf) && n > 0 && Run(fw, buf, env, n) == (if ok then Over(s) else Failed(s))
    && (ok ==> NewBytes(s.sent) == fw || (s.offset < |fw| && PollLength(env(n - 1).answers) == Length(0)))
  }

  lemma {:induction false} StillRunning(fw: seq<Byte>, buf: seq<Byte>, env: nat -> Turn, n: nat, end: nat)
    requires IsFwBuf(buf) && n <= end && !Run(fw, buf, env, end).Running? && Run(fw, buf, env, n).Running?
    ensures n < end
  {
  }
}
