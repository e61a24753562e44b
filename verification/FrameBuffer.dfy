/** frameBuffer of stream2_source.go: a queue of frames flattened into one byte buffer. */
module FrameBuffer {
  import opened Base

  /** What the reader given to copyBody yields: some bytes, then the end or an error. */
  datatype Body = Body(data: Bytes, fails: bool)

  /** The fields of a frameBuffer. `limit` is what the latest frame reader may still deliver.
      Channels are numbered in the order they are made; `closes` logs every close. */
  datatype Buffer = Buffer(
    store: Bytes, total: uint32, read: uint32, limit: nat, frames: uint32, lenBuf: Bytes,
    made: nat, waiting: seq<nat>, closes: seq<nat>)

  const EMPTY: Buffer := Buffer([], 0, 0, 0, 0, [0, 0, 0, 0], 0, [], [])

  // ---- the operations ----

  function CopyBody(fb: Buffer, len: uint32, rd: Body): (Buffer, Option<Error>) {
    var written := fb.(store := fb.store + LE32(len) + rd.data, lenBuf := LE32(len));
    if rd.fails then (written, Some(Other("read failed")))
    else if Wrap32(|rd.data|) != len then (written, Some(ShortBody))
    else (written.(frames := Wrap32(fb.frames + 1), waiting := [], closes := fb.closes + fb.waiting), None)
  }

  function WaitForMore(fb: Buffer): (Buffer, nat) {
    var ch := fb.made;
    if fb.frames > 0 then (fb.(made := ch + 1, closes := fb.closes + [ch]), ch)
    else (fb.(made := ch + 1, waiting := fb.waiting + [ch]), ch)
  }

  /** Skips what is left of the current frame, then reads the next length. */
  function NextFrame(fb: Buffer): (Buffer, Option<uint32>)
    requires |fb.lenBuf| == 4
  {
    var diff := if fb.total != 0 then Wrap32(fb.total - fb.read) else 0;
    var rest := fb.store[Min(diff, |fb.store|)..];
    if rest == [] then (fb.(store := []), None)
    else
      var n := Min(4, |rest|);
      var lenBuf := rest[..n] + fb.lenBuf[n..];
      var len := FromLE32(lenBuf);
      (fb.(store := rest[n..], lenBuf := lenBuf, read := 0, total := len, limit := len,
           frames := Wrap32(fb.frames - 1)), Some(len))
  }

  /** One Read of at most `n` bytes from the counting, limited reader of the current frame. */
  function ReadSome(fb: Buffer, n: nat): (Buffer, Bytes) {
    var k := Min(Min(n, fb.limit), |fb.store|);
    (fb.(store := fb.store[k..], limit := fb.limit - k, read := Wrap32(fb.read + k)), fb.store[..k])
  }

  // ---- the queue it stands for ----

  predicate SmallFrames(queue: seq<Bytes>) { forall q | q in queue :: |q| < 0x1_0000_0000 }

  function Frames(queue: seq<Bytes>): Bytes
    requires SmallFrames(queue)
  {
    if queue == [] then [] else LE32(|queue[0]|) + queue[0] + Frames(queue[1..])
  }

  lemma {:induction false} FramesSnoc(queue: seq<Bytes>, x: Bytes)
    requires SmallFrames(queue) && |x| < 0x1_0000_0000
    ensures SmallFrames(queue + [x])
    ensures Frames(queue + [x]) == Frames(queue) + (LE32(|x|) + x)
  {
    hide LE32;
    if queue == [] {
      assert queue + [x] == [x] && [x][1..] == [];
      assert Frames([x]) == LE32(|x|) + x + Frames([x][1..]);
    } else {
      assert (queue + [x])[1..] == queue[1..] + [x];
      FramesSnoc(queue[1..], x);
    }
  }

  /** `fb` holds the unread rest `cur` of the frame being read, the frames of `queue` behind it, and
      a `tail` of bytes left by a copyBody that stopped short. */
  ghost predicate Holds(fb: Buffer, cur: Bytes, queue: seq<Bytes>, tail: Bytes) {
    && SmallFrames(queue)
    && fb.store == cur + Frames(queue) + tail
    && fb.read <= fb.total && fb.limit == fb.total - fb.read == |cur|
    && fb.frames == Wrap32(|queue|)
    && |fb.lenBuf| == 4
  }

  /** A complete body becomes the last frame. */
  lemma PutHolds(fb: Buffer, cur: Bytes, queue: seq<Bytes>, x: Bytes)
    requires Holds(fb, cur, queue, []) && |x| < 0x1_0000_0000
    ensures var (fb', err) := CopyBody(fb, |x|, Body(x, false));
            err == None && Holds(fb', cur, queue + [x], [])
  {
    hide LE32;
    FramesSnoc(queue, x);
    assert cur + Frames(queue) + [] + LE32(|x|) + x == cur + (Frames(queue) + (LE32(|x|) + x)) + [];
  }

  /** A body that stops short is an error; it adds no frame, only a tail. */
  lemma ShortPutHolds(fb: Buffer, cur: Bytes, queue: seq<Bytes>, len: uint32, rd: Body)
    requires Holds(fb, cur, queue, []) && (rd.fails || |rd.data| < len)
    ensures var (fb', err) := CopyBody(fb, len, rd);
            && err.Some? && fb'.frames == fb.frames && fb'.waiting == fb.waiting
            && Holds(fb', cur, queue, LE32(len) + rd.data)
  {
    hide LE32, Frames;
    assert cur + Frames(queue) + [] + LE32(len) + rd.data == cur + Frames(queue) + (LE32(len) + rd.data);
  }

  /** The first frame behind the bytes `cur`, taken apart. */
  lemma FrontFrame(store: Bytes, cur: Bytes, x: Bytes, rest: Bytes, lenBuf: Bytes)
    requires |x| < 0x1_0000_0000 && store == cur + (LE32(|x|) + (x + rest)) && |lenBuf| == 4
    ensures |store[|cur|..]| >= 4 && store[|cur|..][4..] == x + rest
    ensures FromLE32(store[|cur|..][..4] + lenBuf[4..]) == |x|
  {
    hide LE32, FromLE32;
    LE32RoundTrip(|x|);
    assert store[|cur|..] == LE32(|x|) + (x + rest);
    assert (LE32(|x|) + (x + rest))[..4] == LE32(|x|);
    assert LE32(|x|) + lenBuf[4..] == LE32(|x|);
  }

  lemma NextComputes(fb: Buffer, cur: Bytes, x: Bytes, rest: Bytes)
    requires |x| < 0x1_0000_0000 && fb.store == cur + (LE32(|x|) + (x + rest)) && |fb.lenBuf| == 4
    requires fb.read <= fb.total && fb.total - fb.read == |cur|
    ensures var (fb', len) := NextFrame(fb);
            && len == Some(|x|) && fb'.store == x + rest && |fb'.lenBuf| == 4
            && fb'.read == 0 && fb'.total == fb'.limit == |x| && fb'.frames == Wrap32(fb.frames - 1)
  {
    hide LE32, FromLE32;
    FrontFrame(fb.store, cur, x, rest, fb.lenBuf);
    assert (if fb.total != 0 then Wrap32(fb.total - fb.read) else 0) == |cur|;
  }

  /** With a frame counted, the next frame becomes the current one, however much of the old one was
      read, and the counter does not wrap. */
  lemma NextHolds(fb: Buffer, cur: Bytes, queue: seq<Bytes>, tail: Bytes)
    requires Holds(fb, cur, queue, tail) && fb.frames > 0
    ensures queue != []
    ensures var (fb', len) := NextFrame(fb);
            && len == Some(|queue[0]|) && fb'.frames == fb.frames - 1
            && Holds(fb', queue[0], queue[1..], tail)
  {
    hide LE32, FromLE32, NextFrame;
    var x := queue[0];
    var rest := Frames(queue[1..]) + tail;
    assert cur + Frames(queue) + tail == cur + (LE32(|x|) + (x + rest));
    NextComputes(fb, cur, x, rest);
    assert x + rest == x + Frames(queue[1..]) + tail;
  }

  /** Without a frame and without a tail the call fails, and it has skipped the rest of the current
      frame without recording it: the buffer is still in order exactly when nothing was left. */
  lemma NextFails(fb: Buffer, cur: Bytes)
    requires Holds(fb, cur, [], [])
    ensures var (fb', len) := NextFrame(fb);
            len == None && ((exists c, q, t :: Holds(fb', c, q, t)) <==> cur == [])
  {
    hide FromLE32;
    var (fb', len) := NextFrame(fb);
    assert fb.store == cur;
    assert fb'.store == [];
    if cur == [] {
      assert Holds(fb', [], [], []);
    }
  }

  /** Called without a frame on a buffer with a tail, it hands the tail out and wraps the counter. */
  lemma UnguardedNextReadsTail(fb: Buffer, cur: Bytes, len: uint32, data: Bytes)
    requires Holds(fb, cur, [], LE32(len) + data)
    ensures var (fb', n) := NextFrame(fb);
            n == Some(len) && fb'.frames == 0xFFFF_FFFF && fb'.store == data
  {
    hide LE32, FromLE32;
    LE32RoundTrip(len);
    assert fb.store == cur + (LE32(len) + data);
    assert fb.store[|cur|..] == LE32(len) + data;
    assert (LE32(len) + data)[..4] == LE32(len) && (LE32(len) + data)[4..] == data;
    assert LE32(len) + fb.lenBuf[4..] == LE32(len);
  }

  /** A read of any size delivers the next bytes of the current frame and never touches the others. */
  lemma ReadHolds(fb: Buffer, cur: Bytes, queue: seq<Bytes>, tail: Bytes, n: nat)
    requires Holds(fb, cur, queue, tail)
    ensures var (fb', data) := ReadSome(fb, n);
            var k := Min(n, |cur|);
            data == cur[..k] && Holds(fb', cur[k..], queue, tail)
  {
    hide Frames;
    var k := Min(n, |cur|);
    assert fb.store == cur[..k] + (cur[k..] + Frames(queue) + tail);
    assert fb.store[..k] == cur[..k];
    assert fb.store[k..] == cur[k..] + Frames(queue) + tail;
  }

  // ---- whole runs ----

  datatype Op =
    | Put(body: Bytes)                            // copyBody of a complete body
    | PutShort(len: uint32, data: Bytes)          // copyBody of a body that ends early
    | Next                                        // getNextFrameReader
    | Read(n: nat)                                // a Read on the current frame's reader
    | Wait                                        // waitForMore

  datatype Out = Silent | Failed | Length(len: nat) | Data(data: Bytes)

  /** The discipline of the callers: bodies come from a reader limited to the announced length, no
      body is copied after one that stopped short, and the next frame is only asked for while frames
      are counted. Steps outside of it are skipped. */
  predicate Allowed(op: Op, frames: uint32, torn: bool) {
    match op
    case Put(body) => !torn && |body| < 0x1_0000_0000
    case PutShort(len, data) => !torn && |data| < len
    case Next => frames > 0
    case Read(_) => true
    case Wait => true
  }

  function Step(fb: Buffer, torn: bool, op: Op): (Buffer, bool, Out)
    requires |fb.lenBuf| == 4
  {
    if !Allowed(op, fb.frames, torn) then (fb, torn, Silent)
    else match op
      case Put(body) =>
        var (fb', err) := CopyBody(fb, |body|, Body(body, false));
        (fb', torn, if err.None? then Silent else Failed)
      case PutShort(len, data) =>
        var (fb', err) := CopyBody(fb, len, Body(data, false));
        (fb', true, if err.None? then Silent else Failed)
      case Next =>
        var (fb', len) := NextFrame(fb);
        (fb', torn, if len.Some? then Length(len.value) else Failed)
      case Read(n) =>
        var (fb', data) := ReadSome(fb, n);
        (fb', torn, Data(data))
      case Wait =>
        (WaitForMore(fb).0, torn, Silent)
  }

  /** The same steps on a plain queue: the reference. Its counter is the length as a uint32. */
  datatype Queue = Queue(cur: Bytes, waiting: seq<Bytes>, torn: bool)

  function QueueStep(q: Queue, op: Op): (Queue, Out) {
    if !Allowed(op, Wrap32(|q.waiting|), q.torn) then (q, Silent)
    else match op
      case Put(body) => (q.(waiting := q.waiting + [body]), Silent)
      case PutShort(_, _) => (q.(torn := true), Failed)
      case Next => (q.(cur := q.waiting[0], waiting := q.waiting[1..]), Length(|q.waiting[0]|))
      case Read(n) => var k := Min(n, |q.cur|); (q.(cur := q.cur[k..]), Data(q.cur[..k]))
      case Wait => (q, Silent)
  }

  function Run(fb: Buffer, torn: bool, ops: seq<Op>): (Buffer, seq<Out>)
    requires |fb.lenBuf| == 4
    decreases |ops|
  {
    if ops == [] then (fb, [])
    else
      var (fb1, torn1, out) := Step(fb, torn, ops[0]);
      LenBufKept(fb, torn, ops[0]);
      var (fb2, outs) := Run(fb1, torn1, ops[1..]);
      (fb2, [out] + outs)
  }

  lemma LenBufKept(fb: Buffer, torn: bool, op: Op)
    requires |fb.lenBuf| == 4
    ensures |Step(fb, torn, op).0.lenBuf| == 4
  {
  }

  function QueueRun(q: Queue, ops: seq<Op>): (Queue, seq<Out>)
    decreases |ops|
  {
    if ops == [] then (q, [])
    else
      var (q1, out) := QueueStep(q, ops[0]);
      var (q2, outs) := QueueRun(q1, ops[1..]);
      (q2, [out] + outs)
  }

  ghost predicate Matches(fb: Buffer, q: Queue) {
    exists tail :: Holds(fb, q.cur, q.waiting, tail) && (!q.torn ==> tail == [])
  }

  lemma StepRefines(fb: Buffer, q: Queue, op: Op)
    requires Matches(fb, q)
    ensures var (fb', torn, out) := Step(fb, q.torn, op);
            var (q', out') := QueueStep(q, op);
            out == out' && torn == q'.torn && Matches(fb', q')
  {
    hide LE32, FromLE32, Frames, CopyBody, NextFrame;
    var tail :| Holds(fb, q.cur, q.waiting, tail) && (!q.torn ==> tail == []);
    if Allowed(op, fb.frames, q.torn) {
      match op {
        case Put(body) => PutHolds(fb, q.cur, q.waiting, body);
        case PutShort(len, data) => ShortPutHolds(fb, q.cur, q.waiting, len, Body(data, false));
        case Next => NextHolds(fb, q.cur, q.waiting, tail);
        case Read(n) => ReadHolds(fb, q.cur, q.waiting, tail, n);
        case Wait => assert Holds(WaitForMore(fb).0, q.cur, q.waiting, tail);
      }
    }
  }

  /** The frame buffer refines the queue: every run of any mix of operations gives the same outputs,
      so each frame's exact bytes come out in order, whatever was skipped, split or cut short. */
  lemma {:induction false} RefinesQueue(fb: Buffer, q: Queue, ops: seq<Op>)
    requires Matches(fb, q)
    ensures |fb.lenBuf| == 4
    ensures Run(fb, q.torn, ops).1 == QueueRun(q, ops).1
    ensures Matches(Run(fb, q.torn, ops).0, QueueRun(q, ops).0)
    decreases |ops|
  {
    hide Step, QueueStep, Holds;
    assert |fb.lenBuf| == 4 by { MatchesLenBuf(fb, q); }
    if ops != [] {
      StepRefines(fb, q, ops[0]);
      RefinesQueue(Step(fb, q.torn, ops[0]).0, QueueStep(q, ops[0]).0, ops[1..]);
    }
  }

  lemma MatchesLenBuf(fb: Buffer, q: Queue)
    requires Matches(fb, q)
    ensures |fb.lenBuf| == 4
  {
  }

  lemma NoFramesHolds(fb: Buffer)
    requires fb.store == [] && fb.total == fb.read == fb.limit == fb.frames == 0 && |fb.lenBuf| == 4
    ensures Holds(fb, [], [], [])
  {
  }

  lemma EmptyHolds()
    ensures Holds(EMPTY, [], [], [])
    ensures Matches(EMPTY, Queue([], [], false))
  {
    hide Holds;
    NoFramesHolds(EMPTY);
  }

  lemma EmptyWaiters()
    ensures WaitersInOrder(EMPTY)
  {
  }

  // ---- waiting channels ----

  predicate Distinct(s: seq<nat>) { forall i, j | 0 <= i < j < |s| :: s[i] != s[j] }

  /** Every channel ever made is either waiting or has been closed, exactly once, and channels only
      wait while no frame is counted. */
  ghost predicate WaitersInOrder(fb: Buffer) {
    && Distinct(fb.waiting + fb.closes)
    && (forall c: nat :: c < fb.made <==> c in fb.waiting || c in fb.closes)
    && (fb.waiting != [] ==> fb.frames == 0)
  }

  lemma DistinctSnoc(s: seq<nat>, x: nat)
    requires Distinct(s) && x !in s
    ensures Distinct(s + [x])
  {
  }

  lemma DistinctSwap(a: seq<nat>, b: seq<nat>)
    requires Distinct(a + b)
    ensures Distinct(b + a)
  {
    var s := a + b;
    forall i, j | 0 <= i < j < |b + a| ensures (b + a)[i] != (b + a)[j] {
      var i' := if i < |b| then i + |a| else i - |b|;
      var j' := if j < |b| then j + |a| else j - |b|;
      assert s[i'] == (b + a)[i] && s[j'] == (b + a)[j];
    }
  }

  lemma CopyBodyWaiters(fb: Buffer, len: uint32, rd: Body)
    requires WaitersInOrder(fb)
    ensures var (fb', err) := CopyBody(fb, len, rd);
            && WaitersInOrder(fb') && fb'.made == fb.made
            && (err.None? ==> fb'.waiting == [] && forall c: nat | c < fb.made :: c in fb'.closes)
            && (err.Some? ==> fb'.waiting == fb.waiting && fb'.closes == fb.closes)
  {
    DistinctSwap(fb.waiting, fb.closes);
    assert [] + (fb.closes + fb.waiting) == fb.closes + fb.waiting;
  }

  lemma WaitForMoreWaiters(fb: Buffer)
    requires WaitersInOrder(fb)
    ensures var (fb', ch) := WaitForMore(fb);
            && WaitersInOrder(fb') && ch == fb.made && fb'.made == fb.made + 1
            && (ch in fb'.closes <==> fb.frames > 0)
  {
    var (fb', ch) := WaitForMore(fb);
    assert ch !in fb.waiting + fb.closes;
    if fb.frames > 0 {
      DistinctSnoc(fb.waiting + fb.closes, ch);
      assert fb'.waiting + fb'.closes == fb.waiting + fb.closes + [ch];
    } else {
      DistinctSwap(fb.waiting, fb.closes);
      DistinctSnoc(fb.closes + fb.waiting, ch);
      assert fb.closes + fb.waiting + [ch] == fb'.closes + fb'.waiting;
      DistinctSwap(fb'.closes, fb'.waiting);
    }
  }

  lemma StepWaiters(fb: Buffer, torn: bool, op: Op)
    requires WaitersInOrder(fb) && |fb.lenBuf| == 4
    ensures WaitersInOrder(Step(fb, torn, op).0)
  {
    hide CopyBody, WaitForMore;
    if Allowed(op, fb.frames, torn) {
      match op {
        case Put(body) => CopyBodyWaiters(fb, |body|, Body(body, false));
        case PutShort(len, data) => CopyBodyWaiters(fb, len, Body(data, false));
        case Next => assert fb.waiting == [];
        case Read(n) =>
        case Wait => WaitForMoreWaiters(fb);
      }
    }
  }

  /** No lost wake-up and no double close, over every run: a channel that waitForMore ever returned is
      waiting or closed once and for all, and it only waits while there is nothing to read. */
  lemma {:induction false} NoLostWakeUp(fb: Buffer, torn: bool, ops: seq<Op>)
    requires WaitersInOrder(fb) && |fb.lenBuf| == 4
    ensures WaitersInOrder(Run(fb, torn, ops).0)
    decreases |ops|
  {
    hide Step, WaitersInOrder;
    if ops != [] {
      StepWaiters(fb, torn, ops[0]);
      LenBufKept(fb, torn, ops[0]);
      var (fb1, torn1, out) := Step(fb, torn, ops[0]);
      NoLostWakeUp(fb1, torn1, ops[1..]);
    }
  }

  /** From a new buffer: every channel ever handed out is waiting or closed, never both, and as long as
      one waits there is nothing to read. */
  lemma NewBufferWaits(ops: seq<Op>)
    ensures var fb := Run(EMPTY, false, ops).0;
            && (forall ch: nat :: ch < fb.made ==> (ch in fb.waiting <==> ch !in fb.closes))
            && (fb.waiting != [] ==> fb.frames == 0)
  {
    hide Run;
    EmptyWaiters();
    NoLostWakeUp(EMPTY, false, ops);
    var fb := Run(EMPTY, false, ops).0;
    forall ch: nat | ch in fb.waiting
      ensures ch !in fb.closes
    {
      DistinctApart(fb.waiting, fb.closes, ch);
    }
  }

  lemma DistinctApart(a: seq<nat>, b: seq<nat>, x: nat)
    requires Distinct(a + b) && x in a
    ensures x !in b
  {
    var i :| 0 <= i < |a| && a[i] == x;
    forall j | 0 <= j < |b|
      ensures b[j] != x
    {
      assert (a + b)[i] != (a + b)[|a| + j];
    }
  }

  predicate WakesAreReal(fb: Buffer, since: nat) {
    forall c | c in fb.closes && since <= c :: fb.frames > 0
  }

  lemma {:induction false} WakesStayReal(fb: Buffer, torn: bool, ops: seq<Op>, since: nat)
    requires |fb.lenBuf| == 4 && Next !in ops
    requires fb.frames + |ops| < 0x1_0000_0000
    requires WakesAreReal(fb, since)
    ensures WakesAreReal(Run(fb, torn, ops).0, since)
    decreases |ops|
  {
    hide Step;
    if ops != [] {
      LenBufKept(fb, torn, ops[0]);
      var (fb1, torn1, out) := Step(fb, torn, ops[0]);
      assert ops[0] != Next && Next !in ops[1..];
      StepCounts(fb, torn, ops[0], since);
      WakesStayReal(fb1, torn1, ops[1..], since);
    }
  }

  /** With a single consumer a wake-up is never spurious: as long as no frame is taken, a channel made
      from now on is found closed only when there is a frame to read. */
  lemma WokenMeansFrame(fb: Buffer, torn: bool, ops: seq<Op>, ch: nat)
    requires |fb.lenBuf| == 4 && Next !in ops && WaitersInOrder(fb)
    requires fb.frames + |ops| < 0x1_0000_0000
    requires fb.made <= ch && ch in Run(fb, torn, ops).0.closes
    ensures Run(fb, torn, ops).0.frames > 0
  {
    WakesStayReal(fb, torn, ops, fb.made);
  }

  lemma StepCounts(fb: Buffer, torn: bool, op: Op, since: nat)
    requires |fb.lenBuf| == 4 && op != Next && fb.frames < 0xFFFF_FFFF
    requires WakesAreReal(fb, since)
    ensures var fb' := Step(fb, torn, op).0;
            && fb.frames <= fb'.frames <= fb.frames + 1
            && WakesAreReal(fb', since)
  {
    hide LE32;
  }

  // ---- the object ----

  class FrameBuffer {
    var store: Bytes
    var waiting: seq<nat>
    var currentFrameTotal: uint32
    var currentFrameRead: uint32
    var frames: uint32
    var lenBuf: Bytes
    var limit: nat          // the N of the limited reader handed out last
    var made: nat
    var closes: seq<nat>

    ghost function State(): Buffer
      reads this
    {
      Buffer(store, currentFrameTotal, currentFrameRead, limit, frames, lenBuf, made, waiting, closes)
    }

    constructor ()
      ensures State() == EMPTY
    {
      store, waiting, closes := [], [], [];
      currentFrameTotal, currentFrameRead, frames, limit, made := 0, 0, 0, 0, 0;
      lenBuf := [0, 0, 0, 0];
    }

    method CopyBodyFrom(pktLen: uint32, rd: Body) returns (err: Option<Error>)
      modifies this
      ensures (State(), err) == CopyBody(old(State()), pktLen, rd)
    {
      lenBuf := LE32(pktLen);
      store := store + lenBuf;
      store := store + rd.data;
      if rd.fails {
        return Some(Other("read failed"));
      }
      if Wrap32(|rd.data|) != pktLen {
        return Some(ShortBody);
      }
      frames := Wrap32(frames + 1);
      var n := |waiting|;
      if n > 0 {
        ghost var before := State();
        var i := 0;
        while i < n
          invariant 0 <= i <= n == |waiting| && waiting == old(waiting)
          invariant closes == old(closes) + waiting[..i]
          invariant State() == before.(closes := closes)
        {
          closes := closes + [waiting[i]];
          i := i + 1;
        }
        assert waiting[..n] == waiting;
        waiting := [];
      } else {
        assert old(closes) + old(waiting) == closes;
      }
      return None;
    }

    method WaitChannel() returns (ch: nat)
      modifies this
      ensures (State(), ch) == WaitForMore(old(State()))
    {
      ch := made;
      made := made + 1;
      if frames > 0 {
        closes := closes + [ch];
        return;
      }
      waiting := waiting + [ch];
    }

    method GetNextFrameReader() returns (len: Option<uint32>)
      requires |lenBuf| == 4
      modifies this
      ensures |lenBuf| == 4
      ensures (State(), len) == NextFrame(old(State()))
    {
      hide FromLE32;
      if currentFrameTotal != 0 {
        var diff := Wrap32(currentFrameTotal - currentFrameRead);
        if diff > 0 {
          store := store[Min(diff, |store|)..];
        }
      }
      if store == [] {
        return None;
      }
      var n := Min(4, |store|);
      lenBuf := store[..n] + lenBuf[n..];
      store := store[n..];
      var pktLen := FromLE32(lenBuf);
      currentFrameRead := 0;
      currentFrameTotal := pktLen;
      limit := pktLen;
      frames := Wrap32(frames + 0xFFFF_FFFF);
      return Some(pktLen);
    }

    method ReadFrame(n: nat) returns (data: Bytes)
      modifies this
      ensures (State(), data) == ReadSome(old(State()), n)
    {
      var k := Min(Min(n, limit), |store|);
      data := store[..k];
      store := store[k..];
      limit := limit - k;
      if k > 0 {
        currentFrameRead := Wrap32(currentFrameRead + k);
      }
    }
  }
}
