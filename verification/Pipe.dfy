/** rwc.go: an io.Writer that cuts into blocks and an io.Reader that puts frames back together. */
module Pipe {
  import opened Base
  import C = Codec
  import K = Sink
  import F = FrameBuffer
  import S = Source

  const CHUNK_SIZE: nat := 65536

  /** The blocks one Write is cut into. */
  function Chunks(data: Bytes): (blocks: seq<Bytes>)
    decreases |data|
  {
    if data == [] then []
    else if |data| > CHUNK_SIZE then [data[..CHUNK_SIZE]] + Chunks(data[CHUNK_SIZE..])
    else [data]
  }

  /** The blocks are a partition of the data into pieces of 65536 bytes, and a last one of 1 to 65536. */
  lemma {:induction false} ChunksPartition(data: Bytes)
    ensures Flat(Chunks(data)) == data
    ensures forall b | b in Chunks(data) :: 1 <= |b| <= 65536
    ensures forall i | 0 <= i < |Chunks(data)| - 1 :: |Chunks(data)[i]| == 65536
    decreases |data|
  {
    if |data| > CHUNK_SIZE {
      ChunksPartition(data[CHUNK_SIZE..]);
      assert Chunks(data)[1..] == Chunks(data[CHUNK_SIZE..]);
      assert data == data[..CHUNK_SIZE] + data[CHUNK_SIZE..];
    } else if data != [] {
      assert [data][1..] == [];
      assert data + [] == data;
    }
  }

  /** The frames a list of writes turns into. */
  function AllChunks(writes: seq<Bytes>): seq<Bytes> {
    if writes == [] then [] else Chunks(writes[0]) + AllChunks(writes[1..])
  }

  lemma {:induction false} AllChunksFlat(writes: seq<Bytes>)
    ensures Flat(AllChunks(writes)) == Flat(writes)
  {
    if writes != [] {
      ChunksPartition(writes[0]);
      AllChunksFlat(writes[1..]);
      FlatAppend(Chunks(writes[0]), AllChunks(writes[1..]));
    }
  }

  lemma FlatPrefix(a: seq<Bytes>, b: seq<Bytes>)
    requires a <= b
    ensures Flat(a) <= Flat(b)
  {
    assert b == a + b[|a|..];
    FlatAppend(a, b[|a|..]);
  }

  // ---- writing ----

  /** The packets that a sink sends for a list of blocks. */
  function BlockPackets(s: K.Sink, blocks: seq<Bytes>): seq<C.Packet> {
    seq(|blocks|, i requires 0 <= i < |blocks| => K.DataPacket(s, blocks[i]))
  }

  lemma BlockPacketsSnoc(s: K.Sink, blocks: seq<Bytes>, b: Bytes)
    ensures BlockPackets(s, blocks + [b]) == BlockPackets(s, blocks) + [K.DataPacket(s, b)]
    ensures C.PrintAll(BlockPackets(s, blocks + [b])) ==
            C.PrintAll(BlockPackets(s, blocks)) + C.Print(K.DataPacket(s, b))
  {
    hide C.Print, C.ToByte;
    var p := K.DataPacket(s, b);
    assert BlockPackets(s, blocks + [b]) == BlockPackets(s, blocks) + [p];
    C.PrintAllAppend(BlockPackets(s, blocks), [p]);
    assert [p][1..] == [];
    assert C.PrintAll([p]) == C.Print(p) + [];
  }

  class SinkWriter {
    const sink: K.ByteSink

    constructor (sink: K.ByteSink)
      ensures this.sink == sink
    {
      this.sink := sink;
    }

    /** `sent` blocks went out whole, one packet each and in order; `written` counts exactly their
        bytes; without an error that is all of the data. After an error nothing but a cut-off packet
        follows them, and the sink is closed unless it has no id. */
    method Write(data: Bytes) returns (written: int, err: Option<Error>, ghost sent: nat)
      modifies sink, sink.w.conn
      ensures sent <= |Chunks(data)| && written == |Flat(Chunks(data)[..sent])|
      ensures err.None? <==> sent == |Chunks(data)|
      ensures err.None? ==> written == |data| && sink.State() == old(sink.State())
      ensures var whole := old(sink.w.conn.out)
                           + C.PrintAll(BlockPackets(old(sink.State()), Chunks(data)[..sent]));
              && whole <= sink.w.conn.out
              && (sink.w.conn.out == whole || (err.Some? && sink.w.conn.quota == Some(0)))
      ensures err.Some? && old(sink.req) != 0 ==> sink.closed == err
    {
      hide C.ToByte, C.Print, C.PrintAll;
      var rest := data;
      written, sent := 0, 0;
      ghost var blocks := Chunks(data);
      ghost var before := sink.State();
      ghost var wire := sink.w.conn.out;
      assert blocks[..0] == [] && BlockPackets(before, []) == [];
      assert wire + C.PrintAll([]) == wire by { PrintNone(); }
      while |rest| > 0
        invariant sent <= |blocks| && Chunks(rest) == blocks[sent..]
        invariant written == |Flat(blocks[..sent])|
        invariant sink.State() == before
        invariant sink.w.conn.out == wire + C.PrintAll(BlockPackets(before, blocks[..sent]))
        decreases |rest|
      {
        var block;
        if |rest| > CHUNK_SIZE {
          block := rest[..CHUNK_SIZE];
        } else {
          block := rest;
        }
        ghost var out := sink.w.conn.out;
        var n, e, p := sink.WriteBody(block);
        assert block == blocks[sent..][0] == blocks[sent];
        if e.Some? {
          return written, e, sent;
        }
        assert blocks[..sent + 1] == blocks[..sent] + [block];
        BlockPacketsSnoc(before, blocks[..sent], block);
        FlatSnoc(blocks[..sent], block);
        assert blocks[sent..][1..] == blocks[sent + 1..];
        rest := rest[|block|..];
        written := written + |block|;
        sent := sent + 1;
      }
      assert blocks[..sent] == blocks;
      ChunksPartition(data);
      return written, None, sent;
    }
  }

  lemma PrintNone()
    ensures C.PrintAll([]) == []
  {
  }

  // ---- reading ----

  /** A srcReader: the source and the rest of the frame it is handing out. */
  datatype Reader = Reader(src: S.Source, buf: Bytes)

  /** What a Read comes to; `Blocks` means that it waits in the select of Next, also for the channel. */
  datatype ReadResult = Got(data: Bytes) | Ended | Fails(err: Error) | Blocks(ch: nat)

  const NO_FRAME: Error := Other("muxrpc: didnt get length of next body")

  /** What Read makes of a Next that returned false. */
  function Report(src: S.Source): ReadResult {
    var e := S.ErrOf(src);
    if e.None? || IsError(e.value, EOF) then Ended else Fails(e.value)
  }

  /** A Read from its start until it returns or waits. */
  function ReadStart(r: Reader, n: nat): (Reader, ReadResult)
    requires |r.src.buf.lenBuf| == 4
    decreases r.src.buf.frames
  {
    if |r.buf| > 0 then
      var k := Min(n, |r.buf|);
      (r.(buf := r.buf[k..]), Got(r.buf[..k]))
    else
      match S.PollNow(r.src)
      case Over => (r, Report(r.src))
      case Blocked =>
        var (buf, ch) := F.WaitForMore(r.src.buf);
        (r.(src := r.src.(buf := buf)), Blocks(ch))
      case Ready =>
        var (src, data) := S.TakeBytes(r.src);
        if data.None? then (r.(src := src), Fails(NO_FRAME)) else ReadStart(Reader(src, data.value), n)
  }

  /** A Read of size `n` that waited, from the arm that its select takes. */
  function ReadFinish(r: Reader, arm: S.Arm, n: nat): (Reader, ReadResult)
    requires |r.src.buf.lenBuf| == 4
  {
    var (src, more) := S.Wake(r.src, arm);
    if !more then (r.(src := src), Report(src))
    else
      var (src1, data) := S.TakeBytes(src);
      if data.None? then (r.(src := src1), Fails(NO_FRAME)) else ReadStart(Reader(src1, data.value), n)
  }

  /** The reader is in order: what it handed out, what it still holds and the frames not taken yet
      are the accepted bodies, end to end. */
  ghost predicate Reading(r: Reader, got: seq<Bytes>, taken: nat, read: Bytes) {
    S.Holding(r.src, got, taken) && read + r.buf + Flat(got[taken..]) == Flat(got)
  }

  /** A report of the end tells why the source failed: io.EOF for a regular end, and otherwise the error. */
  ghost predicate Reports(src: S.Source, res: ReadResult) {
    src.failed.Some? && res == if MeansEnd(src.failed.value) then Ended else Fails(src.failed.value)
  }

  lemma ReportTells(src: S.Source)
    requires src.failed.Some?
    ensures Reports(src, Report(src))
  {
    S.ErrExactly(src);
    MeansEndExactly(src.failed.value);
  }

  /** What the result of a Read says about the stream. Bytes fill the caller's buffer or use up the frame. A
      Read only waits when nothing is left to hand out; then only the arrival of a frame closes its
      channel. */
  ghost predicate Tells(r: Reader, res: ReadResult, got: seq<Bytes>, taken: nat, read: Bytes, n: nat) {
    match res
    case Got(data) =>
      && Reading(r, got, taken, read + data) && (n > 0 ==> |data| > 0)
      && |data| <= n && (|data| < n ==> r.buf == [])
    case Blocks(ch) =>
      && Reading(r, got, taken, read) && taken == |got| && r.buf == [] && read == Flat(got)
      && r.src.failed.None? && F.WakesAreReal(r.src.buf, ch) && ch < r.src.buf.made
    case _ =>
      && Reading(r, got, taken, read) && r.buf == [] && Reports(r.src, res)
      && (taken == |got| ==> read == Flat(got))
  }

  /** How many frames were taken between two states of the counter. */
  function Moved(before: S.Source, after: S.Source): nat {
    if after.buf.frames <= before.buf.frames then before.buf.frames - after.buf.frames else 0
  }

  lemma AllTaken(got: seq<Bytes>, read: Bytes)
    requires read + [] + Flat(got[|got|..]) == Flat(got)
    ensures read == Flat(got)
  {
    assert got[|got|..] == [];
    assert read + [] + [] == read;
  }

  /** A Read that does not have to wait. A positive size yields at least one byte, the next bytes of the
      stream; the end, or the source's error, is reported only when all frames were taken. */
  lemma {:induction false} StartInOrder(r: Reader, got: seq<Bytes>, taken: nat, read: Bytes, n: nat)
    requires Reading(r, got, taken, read) && |got| - taken < 0x1_0000_0000
    ensures |r.src.buf.lenBuf| == 4
    ensures var (r', res) := ReadStart(r, n);
            var taken' := taken + Moved(r.src, r'.src);
            && r'.src.failed == r.src.failed && r'.src.closings == r.src.closings
            && r'.src.buf.frames <= r.src.buf.frames && taken' <= |got|
            && Tells(r', res, got, taken', read, n)
            && (res.Ended? || res.Fails? ==> taken' == |got|)
    decreases |got| - taken
  {
    hide S.Holding, S.TakeBytes, F.Holds, Flat, F.WakesAreReal, Reports, Report;
    S.HoldingLenBuf(r.src, got, taken);
    S.HoldingBounds(r.src, got, taken);
    S.HoldingFrames(r.src, got, taken);
    if |r.buf| > 0 {
      var k := Min(n, |r.buf|);
      assert read + r.buf == (read + r.buf[..k]) + r.buf[k..];
    } else if r.src.buf.frames == 0 {
      assert read + [] + Flat(got[taken..]) == Flat(got);
      AllTaken(got, read);
      if r.src.failed.None? {
        WaitInOrder(r.src, got, taken);
      } else {
        ReportTells(r.src);
      }
    } else {
      S.TakeHolding(r.src, got, taken, 0);
      var (src, data) := S.TakeBytes(r.src);
      FrameMoved(got, taken, read);
      StartInOrder(Reader(src, got[taken]), got, taken + 1, read, n);
    }
  }

  lemma FrameMoved(got: seq<Bytes>, taken: nat, read: Bytes)
    requires taken < |got|
    ensures read + [] + Flat(got[taken..]) == read + got[taken] + Flat(got[taken + 1..])
  {
    assert got[taken..][0] == got[taken] && got[taken..][1..] == got[taken + 1..];
  }

  lemma WaitInOrder(s: S.Source, got: seq<Bytes>, taken: nat)
    requires S.Holding(s, got, taken) && s.buf.frames == 0
    ensures var (buf, ch) := F.WaitForMore(s.buf);
            S.Holding(s.(buf := buf), got, taken) && F.WakesAreReal(buf, ch) && ch < buf.made
  {
    hide F.WaitersInOrder;
    S.WaitersKept(s.buf, 0, F.Body([], false), 0);
    AllClosedBefore(s.buf);
    var cur, tail :| F.Holds(s.buf, cur, got[taken..], tail) && (tail != [] ==> s.failed.Some?);
    assert F.Holds(F.WaitForMore(s.buf).0, cur, got[taken..], tail);
  }

  lemma AllClosedBefore(fb: F.Buffer)
    requires F.WaitersInOrder(fb)
    ensures forall c | c in fb.closes :: c < fb.made
  {
    assert forall c | c in fb.closes :: c in fb.waiting + fb.closes;
  }

  /** A Read that waited. It reports the end with accepted frames left exactly if its select sees the
      context although a frame came in meanwhile; srcReader waits with the stream's own context, which
      the serve loop ends when it closes the stream. */
  lemma FinishInOrder(r: Reader, got: seq<Bytes>, taken: nat, read: Bytes, arm: S.Arm, n: nat)
    requires Reading(r, got, taken, read) && |got| - taken < 0x1_0000_0000 && r.buf == []
    requires S.CanWake(r.src, arm)
    requires arm.MoreChannel? ==> F.WakesAreReal(r.src.buf, arm.ch)
    ensures |r.src.buf.lenBuf| == 4
    ensures var (r', res) := ReadFinish(r, arm, n);
            var taken' := taken + Moved(r.src, r'.src);
            && (r.src.failed.Some? ==> r'.src.failed == r.src.failed) && r'.src.closings == r.src.closings
            && r'.src.buf.frames <= r.src.buf.frames && taken' <= |got|
            && Tells(r', res, got, taken', read, n)
            && (arm.CallerDone? ==> res.Ended? || res.Fails?)
            && (res.Ended? || res.Fails? ==> (taken' < |got| <==> arm.CallerDone? && r.src.buf.frames > 0))
  {
    hide S.Holding, S.TakeBytes, F.Holds, Flat, ReadStart;
    S.HoldingLenBuf(r.src, got, taken);
    S.HoldingBounds(r.src, got, taken);
    S.HoldingFrames(r.src, got, taken);
    S.WakeHolding(r.src, got, taken, arm);
    var (src, more) := S.Wake(r.src, arm);
    if more {
      S.TakeHolding(src, got, taken, 0);
      FrameMoved(got, taken, read);
      StartInOrder(Reader(S.TakeBytes(src).0, got[taken]), got, taken + 1, read, n);
    } else {
      assert src.failed.Some? by { EndedMeansFailed(r.src, got, taken, arm); }
      ReportTells(src);
      if taken == |got| {
        assert read + [] + Flat(got[taken..]) == Flat(got);
        AllTaken(got, read);
      }
    }
  }

  lemma EndedMeansFailed(s: S.Source, got: seq<Bytes>, taken: nat, arm: S.Arm)
    requires S.Holding(s, got, taken) && S.CanWake(s, arm) && !S.Wake(s, arm).1
    ensures S.Wake(s, arm).0.failed.Some?
  {
  }

  // ---- the byte pipe ----

  /** `InNext`: a Read of size `n` waits, with the channel `ch` among others. */
  datatype Wait = Idle | InNext(ch: nat, n: nat)

  /** The reading end with its history: `ctx` is the error of the stream's context once it is done, `got`
      the accepted bodies, `taken` the frames moved on to, `read` the bytes handed out. `report` is what
      the last read said that reported the end or an error, and `whole` as long as each such report came when no
      accepted frame was left. */
  datatype Receiver = Receiver(
    r: Reader, ctx: Option<Error>, got: seq<Bytes>, taken: nat, wait: Wait, read: Bytes,
    report: Option<ReadResult>, whole: bool)
  {
    const ended: bool := report.Some?
  }

  /** What happens at the reading end: reads start and end, the context ends, and everything else that
      may happen to a source. */
  datatype Event = StartRead(n: nat) | FinishRead(arm: S.Arm) | CtxDone(err: Error) | SourceEvent(op: S.Op)

  /** The arms that the select of a waiting Read can take: Read passes the stream's context as its own. */
  predicate CanFinish(e: Receiver, arm: S.Arm) {
    && e.wait.InNext? && S.CanWake(e.r.src, arm)
    && (arm.StreamDone? || arm.CallerDone? ==> e.ctx == Some(arm.err))
    && (arm.MoreChannel? ==> arm.ch == e.wait.ch)
  }

  function Returned(e: Receiver, r: Reader, res: ReadResult, n: nat): Receiver {
    var taken := e.taken + Moved(e.r.src, r.src);
    var report := res.Ended? || res.Fails?;
    Receiver(r, e.ctx, e.got, taken, if res.Blocks? then InNext(res.ch, n) else Idle,
             if res.Got? then e.read + res.data else e.read,
             if report then Some(res) else e.report, e.whole && (report ==> taken == |e.got|))
  }

  /** Reads that cannot start or end are skipped. The reader is the only one that takes frames. */
  function Step(e: Receiver, ev: Event): Receiver
    requires |e.r.src.buf.lenBuf| == 4
  {
    match ev
    case StartRead(n) =>
      if e.wait.InNext? then e else var (r, res) := ReadStart(e.r, n); Returned(e, r, res, n)
    case FinishRead(arm) =>
      if !CanFinish(e, arm) then e else var (r, res) := ReadFinish(e.r, arm, e.wait.n); Returned(e, r, res, e.wait.n)
    case CtxDone(err) => if e.ctx.None? then e.(ctx := Some(err)) else e
    case SourceEvent(op) =>
      if op.TakeAll? || op.TakeSome? then e
      else
        var (src, accepted, _) := S.Step(e.r.src, op);
        e.(r := e.r.(src := src), got := S.Append(e.got, accepted))
  }

  /** The read that ends with the event reports the end while a frame is queued. */
  predicate Early(e: Receiver, ev: Event) {
    ev.FinishRead? && CanFinish(e, ev.arm) && ev.arm.CallerDone? && e.r.src.buf.frames > 0
  }

  /** What the reading end keeps. */
  ghost predicate InOrder(e: Receiver) {
    && Reading(e.r, e.got, e.taken, e.read)
    && (e.wait.InNext? ==>
          e.r.buf == [] && F.WakesAreReal(e.r.src.buf, e.wait.ch) && e.wait.ch < e.r.src.buf.made && !e.ended)
    && (e.ended ==> Reports(e.r.src, e.report.value))
    && (e.ended && e.whole ==> e.taken == |e.got| && e.r.buf == [])
  }

  lemma InOrderPrefix(e: Receiver)
    requires InOrder(e)
    ensures |e.r.src.buf.lenBuf| == 4 && e.taken <= |e.got| && e.read <= Flat(e.got)
    ensures e.ended && e.whole ==> e.read == Flat(e.got)
    ensures e.report.Some? ==> Reports(e.r.src, e.report.value)
  {
    hide S.Holding, Flat, Reports;
    S.HoldingLenBuf(e.r.src, e.got, e.taken);
    S.HoldingBounds(e.r.src, e.got, e.taken);
    assert Flat(e.got) == e.read + (e.r.buf + Flat(e.got[e.taken..]));
    if e.ended && e.whole {
      AllTaken(e.got, e.read);
    }
  }

  /** The frame counter is 32 bits wide; `Small` says that it has not wrapped. */
  predicate Small(e: Receiver) { |e.got| - e.taken < 0x1_0000_0000 }

  lemma ReturnedInOrder(e: Receiver, r: Reader, res: ReadResult, n: nat)
    requires InOrder(e) && (r.src.failed == e.r.src.failed || e.r.src.failed.None?)
    requires Tells(r, res, e.got, e.taken + Moved(e.r.src, r.src), e.read, n)
    requires e.ended && e.whole ==> r.buf == [] && !res.Got?
    requires e.taken + Moved(e.r.src, r.src) <= |e.got|
    ensures InOrder(Returned(e, r, res, n))
  {
    hide S.Holding, Flat, F.WakesAreReal;
  }

  /** Other parts of the program only make the stream longer. */
  lemma GrowsInOrder(e: Receiver, src: S.Source, got: seq<Bytes>)
    requires InOrder(e) && S.Holding(src, got, e.taken) && S.Grows(e.r.src, e.got, src, got)
    requires Small(e) && |got| - e.taken < 0x1_0000_0000
    ensures InOrder(e.(r := e.r.(src := src), got := got))
  {
    hide S.Holding, Flat, F.WakesAreReal;
    S.HoldingBounds(e.r.src, e.got, e.taken);
    S.HoldingFrames(e.r.src, e.got, e.taken);
    var more := got[|e.got|..];
    assert got == e.got + more && got[e.taken..] == e.got[e.taken..] + more;
    FlatAppend(e.got, more);
    FlatAppend(e.got[e.taken..], more);
    assert e.read + e.r.buf + (Flat(e.got[e.taken..]) + Flat(more))
        == (e.read + e.r.buf + Flat(e.got[e.taken..])) + Flat(more);
  }

  lemma StepInOrder(e: Receiver, ev: Event)
    requires InOrder(e) && Small(e)
    ensures |e.r.src.buf.lenBuf| == 4
    ensures var e' := Step(e, ev);
            && (Small(e') ==> InOrder(e')) && e.got <= e'.got && e.read <= e'.read
            && (e'.whole <==> e.whole && !Early(e, ev))
  {
    hide S.Holding, S.Step, ReadStart, ReadFinish, Flat, F.WakesAreReal, S.Grows, InOrder;
    InOrderPrefix(e);
    InOrderReading(e);
    match ev {
      case StartRead(n) =>
        if e.wait.Idle? {
          StartInOrder(e.r, e.got, e.taken, e.read, n);
          if e.ended && e.whole {
            StartAfterEnd(e, n);
          }
          var (r, res) := ReadStart(e.r, n);
          ReturnedInOrder(e, r, res, n);
        }
      case FinishRead(arm) =>
        if CanFinish(e, arm) {
          FinishInOrder(e.r, e.got, e.taken, e.read, arm, e.wait.n);
          var (r, res) := ReadFinish(e.r, arm, e.wait.n);
          ReturnedInOrder(e, r, res, e.wait.n);
        }
      case CtxDone(err) => CtxInOrder(e, err);
      case SourceEvent(op) =>
        if !(op.TakeAll? || op.TakeSome?) {
          S.StepHolding(e.r.src, e.got, e.taken, op);
          S.StepGrows(e.r.src, e.got, op);
          var (src, accepted, data) := S.Step(e.r.src, op);
          if Small(Step(e, ev)) {
            GrowsInOrder(e, src, S.Append(e.got, accepted));
          }
        }
    }
  }

  lemma InOrderReading(e: Receiver)
    requires InOrder(e)
    ensures Reading(e.r, e.got, e.taken, e.read)
    ensures e.wait.InNext? ==> e.r.buf == [] && F.WakesAreReal(e.r.src.buf, e.wait.ch) && !e.ended
  {
    hide S.Holding, Flat, F.WakesAreReal;
  }

  lemma CtxInOrder(e: Receiver, err: Error)
    requires InOrder(e)
    ensures InOrder(e.(ctx := Some(err)))
  {
  }

  /** A read after the end has been reported, with nothing left, reports it again. */
  lemma StartAfterEnd(e: Receiver, n: nat)
    requires InOrder(e) && e.ended && e.whole
    ensures |e.r.src.buf.lenBuf| == 4 && ReadStart(e.r, n) == (e.r, Report(e.r.src))
  {
    hide S.Holding, Flat;
    S.HoldingLenBuf(e.r.src, e.got, e.taken);
    S.HoldingFrames(e.r.src, e.got, e.taken);
  }

  function Run(e: Receiver, evs: seq<Event>): Receiver
    requires |e.r.src.buf.lenBuf| == 4
    decreases |evs|
  {
    if evs == [] then e
    else
      LenBufKept(e, evs[0]);
      Run(Step(e, evs[0]), evs[1..])
  }

  lemma LenBufKept(e: Receiver, ev: Event)
    requires |e.r.src.buf.lenBuf| == 4
    ensures |Step(e, ev).r.src.buf.lenBuf| == 4
  {
    hide S.TakeBytes, ReadStart;
    match ev {
      case StartRead(n) => ReadLenBuf(e.r, n);
      case FinishRead(arm) =>
        if CanFinish(e, arm) {
          var (src, data) := S.TakeBytes(S.Wake(e.r.src, arm).0);
          if data.Some? {
            ReadLenBuf(Reader(src, data.value), e.wait.n);
          }
        }
      case CtxDone(_) =>
      case SourceEvent(op) => S.SourceLenBufKept(e.r.src, op);
    }
  }

  lemma {:induction false} ReadLenBuf(r: Reader, n: nat)
    requires |r.src.buf.lenBuf| == 4
    ensures |ReadStart(r, n).0.src.buf.lenBuf| == 4
    decreases r.src.buf.frames
  {
    hide S.TakeBytes;
    if |r.buf| == 0 && r.src.buf.frames > 0 {
      var (src, data) := S.TakeBytes(r.src);
      if data.Some? {
        ReadLenBuf(Reader(src, data.value), n);
      }
    }
  }

  /** At no point of the run are 2^32 frames queued at once. */
  predicate NeverFull(e: Receiver, evs: seq<Event>)
    requires |e.r.src.buf.lenBuf| == 4
    decreases |evs|
  {
    Small(e) && (evs == [] || (LenBufKept(e, evs[0]); NeverFull(Step(e, evs[0]), evs[1..])))
  }

  /** In no event of the run does a waiting read see its context while a frame is queued. */
  predicate NeverEarly(e: Receiver, evs: seq<Event>)
    requires |e.r.src.buf.lenBuf| == 4
    decreases |evs|
  {
    evs == [] || (!Early(e, evs[0]) && (LenBufKept(e, evs[0]); NeverEarly(Step(e, evs[0]), evs[1..])))
  }

  /** Every run of the reading end. */
  lemma {:induction false} RunInOrder(e: Receiver, evs: seq<Event>)
    requires InOrder(e)
    ensures |e.r.src.buf.lenBuf| == 4
    ensures NeverFull(e, evs) ==>
              var e' := Run(e, evs);
              && InOrder(e') && e.got <= e'.got && e.read <= e'.read
              && (e'.report.Some? ==> Reports(e'.r.src, e'.report.value))
              && (e'.whole <==> e.whole && NeverEarly(e, evs))
    decreases |evs|
  {
    hide Step, InOrder, Early, Small;
    InOrderPrefix(e);
    if evs != [] && NeverFull(e, evs) {
      StepInOrder(e, evs[0]);
      LenBufKept(e, evs[0]);
      var e1 := Step(e, evs[0]);
      assert Small(e1) by { assert NeverFull(e1, evs[1..]); }
      RunInOrder(e1, evs[1..]);
    }
  }

  /** When a Read that waits can return: exactly if a frame is queued, the source was cancelled, or the
      context is done. With a frame queued its own channel is closed, and taking that arm it takes the
      frame. */
  ghost predicate Wakes(e: Receiver) {
    e.wait.InNext? ==>
      && ((exists arm :: CanFinish(e, arm)) <==> e.r.src.buf.frames > 0 || e.r.src.closings > 0 || e.ctx.Some?)
      && (e.r.src.buf.frames > 0 ==>
            && CanFinish(e, S.MoreChannel(e.wait.ch)) && |e.r.src.buf.lenBuf| == 4
            && Step(e, FinishRead(S.MoreChannel(e.wait.ch))).taken > e.taken)
  }

  lemma WaitEndsExactly(e: Receiver)
    requires InOrder(e) && Small(e)
    ensures Wakes(e)
  {
    hide S.Holding, Flat, Step;
    if e.wait.InNext? {
      var ch, src := e.wait.ch, e.r.src;
      HoldingWaiters(src, e.got, e.taken);
      if src.buf.frames > 0 {
        assert CanFinish(e, S.MoreChannel(ch));
        TakesOne(e);
      }
      if src.closings > 0 {
        assert CanFinish(e, S.ClosedChannel);
      }
      if e.ctx.Some? {
        assert CanFinish(e, S.StreamDone(e.ctx.value));
      }
    }
  }

  lemma HoldingWaiters(s: S.Source, got: seq<Bytes>, taken: nat)
    requires S.Holding(s, got, taken)
    ensures forall ch: nat :: ch < s.buf.made && s.buf.frames > 0 ==> ch in s.buf.closes
  {
  }

  lemma TakesOne(e: Receiver)
    requires InOrder(e) && Small(e) && e.wait.InNext? && e.r.src.buf.frames > 0
    requires CanFinish(e, S.MoreChannel(e.wait.ch))
    ensures |e.r.src.buf.lenBuf| == 4 && Step(e, FinishRead(S.MoreChannel(e.wait.ch))).taken > e.taken
  {
    hide S.Holding, Flat, S.TakeBytes, ReadStart, F.WakesAreReal;
    S.HoldingLenBuf(e.r.src, e.got, e.taken);
    S.TakeHolding(e.r.src, e.got, e.taken, 0);
    FrameMoved(e.got, e.taken, e.read);
    StartInOrder(Reader(S.TakeBytes(e.r.src).0, e.got[e.taken]), e.got, e.taken + 1, e.read, e.wait.n);
  }

  /** No wake-up is lost, in any run of the reading end. */
  lemma ReadsWake(e: Receiver, evs: seq<Event>)
    requires InOrder(e)
    ensures |e.r.src.buf.lenBuf| == 4
    ensures NeverFull(e, evs) ==> Wakes(Run(e, evs))
  {
    hide InOrder, Run, NeverFull, Wakes, Small;
    RunInOrder(e, evs);
    if NeverFull(e, evs) {
      EndsSmall(e, evs);
      WaitEndsExactly(Run(e, evs));
    }
  }

  lemma {:induction false} EndsSmall(e: Receiver, evs: seq<Event>)
    requires |e.r.src.buf.lenBuf| == 4 && NeverFull(e, evs)
    ensures Small(Run(e, evs))
    decreases |evs|
  {
    hide Step, Small;
    if evs != [] {
      LenBufKept(e, evs[0]);
      EndsSmall(Step(e, evs[0]), evs[1..]);
    }
  }

  const FRESH: Receiver := Receiver(Reader(S.FRESH, []), None, [], 0, Idle, [], None, true)

  lemma FreshInOrder()
    ensures InOrder(FRESH)
  {
    hide S.Holding;
    S.FreshHolding();
    var got: seq<Bytes> := [];
    assert got[0..] == got;
  }

  /** The byte pipe: whatever sizes are read and whatever happens in between, if the frames that arrived
      are the first frames of the written blocks, then the bytes read are the first bytes written. The
      end is reported with nothing left each time if and only if no waiting read sees the end of its
      context while a frame is queued; then the bytes read are all that arrived. */
  lemma BytePipe(writes: seq<Bytes>, evs: seq<Event>)
    ensures |FRESH.r.src.buf.lenBuf| == 4
    ensures NeverFull(FRESH, evs) ==>
              var e := Run(FRESH, evs);
              && (e.got <= AllChunks(writes) ==> e.read <= Flat(writes))
              && (e.whole <==> NeverEarly(FRESH, evs))
              && (e.report.Some? ==> Reports(e.r.src, e.report.value))
              && (e.ended && e.whole ==> e.read == Flat(e.got))
              && (e.ended && e.whole && e.got == AllChunks(writes) ==> e.read == Flat(writes))
  {
    hide Run, InOrder, Flat, AllChunks, NeverFull, NeverEarly;
    if NeverFull(FRESH, evs) {
      FreshInOrder();
      RunInOrder(FRESH, evs);
      var e := Run(FRESH, evs);
      InOrderPrefix(e);
      AllChunksFlat(writes);
      if e.got <= AllChunks(writes) {
        FlatPrefix(e.got, AllChunks(writes));
      }
    }
  }

  /** A run in which the end comes too early: a read waits, a frame arrives, the stream is closed in the
      regular way, which cancels the source and ends the context, and the read sees the context first. */
  function EarlyRun(n: nat, x: Bytes): seq<Event>
    requires |x| < 0x1_0000_0000
  {
    [StartRead(n), SourceEvent(S.Arrive(|x|, 0, F.Body(x, false))), SourceEvent(S.Cancellation(None)),
     CtxDone(Canceled), FinishRead(S.CallerDone(Canceled))]
  }

  lemma EarlyEndHappens(n: nat, x: Bytes)
    requires |x| < 0x1_0000_0000
    ensures |FRESH.r.src.buf.lenBuf| == 4
    ensures var e := Run(FRESH, EarlyRun(n, x));
            e.report == Some(Ended) && e.read == [] && e.got == [x] && !e.whole
  {
    hide LE32, Run;
    var evs := EarlyRun(n, x);
    RunFirst(FRESH, evs);
    var e1 := Step(FRESH, evs[0]);
    assert e1.wait == InNext(0, n) && e1.r.src.buf.frames == 0 && e1.r.src.failed.None?;
    RunFirst(e1, evs[1..]);
    var e2 := Step(e1, evs[1]);
    assert e2.r.src.buf.frames == 1 && e2.got == [] + [x] && e2.wait == e1.wait && e2.r.src.failed.None?;
    RunFirst(e2, evs[2..]);
    var e3 := Step(e2, evs[2]);
    assert e3.r.src.failed == Some(EOF) && e3.r.src.buf.frames == 1 && e3.wait == e1.wait;
    assert evs[1..][1..] == evs[2..] && evs[2..][1..] == evs[3..];
    assert evs[3..] == [CtxDone(Canceled), FinishRead(S.CallerDone(Canceled))];
    EarlyFinish(e3);
  }

  /** The last two events: the waiting read sees the end of the context. */
  lemma EarlyFinish(e: Receiver)
    requires |e.r.src.buf.lenBuf| == 4 && e.wait.InNext? && e.ctx.None? && e.whole
    requires e.r.src.failed == Some(EOF) && e.r.src.buf.frames > 0 && e.taken < |e.got|
    ensures var e' := Run(e, [CtxDone(Canceled), FinishRead(S.CallerDone(Canceled))]);
            && e'.report == Some(Ended) && !e'.whole
            && e'.read == e.read && e'.got == e.got && e'.r.src.failed == Some(EOF)
  {
    hide LE32, Run, S.TakeBytes, ReadStart;
    var evs := [CtxDone(Canceled), FinishRead(S.CallerDone(Canceled))];
    RunFirst(e, evs);
    var e1 := Step(e, evs[0]);
    assert e1.ctx == Some(Canceled) && e1.r == e.r;
    RunFirst(e1, evs[1..]);
    assert evs[1..][1..] == [];
    RunNone(Step(e1, evs[1]));
  }

  lemma RunFirst(e: Receiver, evs: seq<Event>)
    requires |e.r.src.buf.lenBuf| == 4 && evs != []
    ensures |Step(e, evs[0]).r.src.buf.lenBuf| == 4
    ensures Run(e, evs) == Run(Step(e, evs[0]), evs[1..])
  {
    hide Step;
    LenBufKept(e, evs[0]);
  }

  lemma RunNone(e: Receiver)
    requires |e.r.src.buf.lenBuf| == 4
    ensures Run(e, []) == e
  {
  }

  // ---- the object ----

  class SrcReader {
    const src: S.ByteSource
    var buf: Bytes

    ghost function State(): Reader
      reads this, src, src.buf
    {
      Reader(src.State(), buf)
    }

    constructor (src: S.ByteSource)
      ensures this.src == src && buf == []
    {
      this.src := src;
      buf := [];
    }

    /** Read, until it returns or waits in Next. */
    method ReadInto(n: nat) returns (r: ReadResult)
      requires |State().src.buf.lenBuf| == 4
      modifies this, src.buf
      ensures |State().src.buf.lenBuf| == 4
      ensures (State(), r) == ReadStart(old(State()), n)
      decreases src.buf.frames
    {
      hide S.TakeBytes;
      if |buf| > 0 {
        var k := Min(n, |buf|);
        var data := buf[..k];
        buf := buf[k..];
        return Got(data);
      }
      var p, ch := src.StartNext();
      if p == S.Blocked {
        return Blocks(ch);
      }
      if p == S.Over {
        r := AfterEnd();
        return;
      }
      var data := src.NextBytes();
      if data.None? {
        return Fails(NO_FRAME);
      }
      buf := data.value;
      r := ReadInto(n);
    }

    /** The rest of a Read that waited, from the arm that the select took. */
    method ResumeRead(arm: S.Arm, n: nat) returns (r: ReadResult)
      requires |State().src.buf.lenBuf| == 4 && buf == [] && S.CanWake(State().src, arm)
      modifies this, src, src.buf
      ensures |State().src.buf.lenBuf| == 4
      ensures (State(), r) == ReadFinish(old(State()), arm, n)
    {
      hide S.TakeBytes;
      var more := src.FinishNext(arm);
      if !more {
        r := AfterEnd();
        return;
      }
      var data := src.NextBytes();
      if data.None? {
        return Fails(NO_FRAME);
      }
      buf := data.value;
      r := ReadInto(n);
    }

    method AfterEnd() returns (r: ReadResult)
      ensures r == Report(State().src)
    {
      var e := src.Err();
      if e.None? || IsError(e.value, EOF) {
        return Ended;
      }
      return Fails(e.value);
    }
  }
}
