/** ByteSource of stream2_source.go: a frame buffer with a failure that is set once. */
module Source {
  import opened Base
  import opened FrameBuffer

  /** `closings` counts how often the channel `closed` was closed. */
  datatype Source = Source(buf: Buffer, failed: Option<Error>, closings: nat, hdrFlag: byte)

  const FRESH: Source := Source(EMPTY, None, 0, 0)

  // ---- the operations ----

  function Cancel(s: Source, err: Option<Error>): Source {
    if s.failed.Some? then s
    else s.(failed := Some(if err.None? then EOF else err.value), closings := s.closings + 1)
  }

  /** Err hides the two errors that mean a regular end. */
  function ErrOf(s: Source): Option<Error> {
    if s.failed.Some? && (IsError(s.failed.value, EOF) || IsError(s.failed.value, Canceled)) then None
    else s.failed
  }

  /** Err is silent exactly after a regular end, however deep in wrapping. */
  lemma ErrExactly(s: Source)
    ensures ErrOf(s) == if s.failed.Some? && MeansEnd(s.failed.value) then None else s.failed
  {
    if s.failed.Some? {
      MeansEndExactly(s.failed.value);
    }
  }

  /** What Err says after the first Cancel: nothing after a regular end, or after an error that wraps
      one, and the error itself otherwise. */
  lemma ErrAfterCancel(s: Source, err: Option<Error>)
    requires s.failed.None?
    ensures ErrOf(Cancel(s, err)) ==
            if err.None? || MeansEnd(err.value) then None else err
    ensures forall again :: Cancel(Cancel(s, err), again) == Cancel(s, err)
  {
    ErrExactly(Cancel(s, err));
    MeansEndExactly(EOF);
  }

  function Consume(s: Source, len: uint32, flag: byte, rd: Body): (Source, Option<Error>) {
    if s.failed.Some? then (s, Some(SourceCanceled(s.failed.value)))
    else
      var (buf, err) := CopyBody(s.buf, len, rd);
      (s.(buf := buf, hdrFlag := flag), err)
  }

  /** What Next finds under the lock: a frame, the end, or neither. */
  datatype Poll = Ready | Over | Blocked

  function PollNow(s: Source): Poll {
    if s.failed.Some? && s.buf.frames == 0 then Over
    else if s.buf.frames > 0 then Ready
    else Blocked
  }

  /** The four arms of the select that a blocked Next waits in. */
  datatype Arm = StreamDone(err: Error) | CallerDone(err: Error) | ClosedChannel | MoreChannel(ch: nat)

  predicate CanWake(s: Source, arm: Arm) {
    match arm
    case StreamDone(_) => true
    case CallerDone(_) => true
    case ClosedChannel => s.closings > 0
    case MoreChannel(ch) => ch in s.buf.closes
  }

  function Wake(s: Source, arm: Arm): (Source, bool) {
    match arm
    case StreamDone(e) => (if s.failed.Some? then s else s.(failed := Some(e)), s.buf.frames > 0)
    case CallerDone(e) => (if s.failed.Some? then s else s.(failed := Some(e)), false)
    case ClosedChannel => (s, s.buf.frames > 0)
    case MoreChannel(_) => (s, true)
  }

  /** What the four arms of the select record and return. A context that ends a Next on a source that has
      not failed leaves its error there, to be seen by Err unless it means a regular end; nothing else
      is recorded. */
  lemma WakeRecords(s: Source, arm: Arm)
    ensures var (s', more) := Wake(s, arm);
            && (if (arm.StreamDone? || arm.CallerDone?) && s.failed.None?
                then s' == Source(s.buf, Some(arm.err), s.closings, s.hdrFlag)
                     && ErrOf(s') == if MeansEnd(arm.err) then None else Some(arm.err)
                else s' == s)
            && (more <==> arm.MoreChannel? || (!arm.CallerDone? && s.buf.frames > 0))
  {
    ErrExactly(Wake(s, arm).0);
  }

  /** Bytes: the next frame, read to its end. */
  function TakeBytes(s: Source): (r: (Source, Option<Bytes>))
    requires |s.buf.lenBuf| == 4
    ensures |r.0.buf.lenBuf| == 4
    ensures r.1.Some? && s.buf.frames > 0 ==> r.0.buf.frames == s.buf.frames - 1
  {
    var (buf, len) := NextFrame(s.buf);
    if len.None? then (s.(buf := buf), None)
    else
      var (buf', data) := ReadSome(buf, buf.limit);
      (s.(buf := buf'), Some(data))
  }

  /** Reader with a function that reads up to `n` bytes. */
  function TakePart(s: Source, n: nat): (Source, Option<Bytes>)
    requires |s.buf.lenBuf| == 4
  {
    var (buf, len) := NextFrame(s.buf);
    if len.None? then (s.(buf := buf), None)
    else
      var (buf', data) := ReadSome(buf, n);
      (s.(buf := buf'), Some(data))
  }

  /** What the serve loop does with a data packet: consume it, and fail the source if that fails. */
  function Deliver(s: Source, len: uint32, flag: byte, rd: Body): (Source, Option<Error>) {
    var (s', err) := Consume(s, len, flag, rd);
    (if err.Some? then Cancel(s', err) else s', err)
  }

  // ---- what a source stands for ----

  /** `got` lists every body the source ever accepted, `taken` how many frames readers moved on to. */
  ghost predicate Holding(s: Source, got: seq<Bytes>, taken: nat) {
    && taken <= |got|
    && (exists cur, tail :: Holds(s.buf, cur, got[taken..], tail) && (tail != [] ==> s.failed.Some?))
    && s.closings <= 1 && (s.closings == 1 ==> s.failed.Some?)
    && WaitersInOrder(s.buf)
  }

  lemma WaitersKept(fb: Buffer, len: uint32, rd: Body, n: nat)
    requires WaitersInOrder(fb)
    ensures WaitersInOrder(CopyBody(fb, len, rd).0) && WaitersInOrder(WaitForMore(fb).0)
    ensures WaitersInOrder(ReadSome(fb, n).0)
    ensures |fb.lenBuf| == 4 && fb.frames > 0 ==> WaitersInOrder(NextFrame(fb).0)
  {
    hide LE32, FromLE32, CopyBody, WaitForMore;
    CopyBodyWaiters(fb, len, rd);
    WaitForMoreWaiters(fb);
  }

  lemma HoldingLenBuf(s: Source, got: seq<Bytes>, taken: nat)
    requires Holding(s, got, taken)
    ensures |s.buf.lenBuf| == 4
    ensures s.buf.frames > 0 ==> taken < |got|
  {
  }

  lemma HoldingBounds(s: Source, got: seq<Bytes>, taken: nat)
    requires Holding(s, got, taken)
    ensures taken <= |got|
  {
  }

  lemma FreshHolding()
    ensures Holding(FRESH, [], 0)
  {
    hide Holds, WaitersInOrder;
    EmptyHolds();
    EmptyWaiters();
    var got: seq<Bytes> := [];
    assert got[0..] == [];
  }

  lemma CancelHolding(s: Source, got: seq<Bytes>, taken: nat, err: Option<Error>)
    requires Holding(s, got, taken)
    ensures Holding(Cancel(s, err), got, taken) && Cancel(s, err).failed.Some?
  {
  }

  /** A complete body is accepted exactly by a source that has not failed; a short one fails it, and
      what was queued before stays in order. */
  lemma DeliverHolding(s: Source, got: seq<Bytes>, taken: nat, len: uint32, flag: byte, rd: Body)
    requires Holding(s, got, taken) && |rd.data| <= len
    ensures var (s', err) := Deliver(s, len, flag, rd);
            && (err.None? <==> s.failed.None? && !rd.fails && |rd.data| == len)
            && (err.None? ==> s'.failed.None? && Holding(s', got + [rd.data], taken))
            && (err.Some? ==> s'.failed.Some? && Holding(s', got, taken))
            && (s.failed.Some? ==> s' == s && err == Some(SourceCanceled(s.failed.value)))
            && (s.failed.None? ==> s'.hdrFlag == flag)
            && (s.failed.None? && err.Some? ==>
                  s'.failed == err == Some(if rd.fails then Other("read failed") else ShortBody)
                  && s'.closings == s.closings + 1)
  {
    hide LE32, Holds, WaitersInOrder;
    var cur, tail :| Holds(s.buf, cur, got[taken..], tail) && (tail != [] ==> s.failed.Some?);
    WaitersKept(s.buf, len, rd, 0);
    if s.failed.None? {
      if rd.fails || |rd.data| < len {
        ShortPutHolds(s.buf, cur, got[taken..], len, rd);
      } else {
        assert rd == Body(rd.data, false);
        PutHolds(s.buf, cur, got[taken..], rd.data);
        assert (got + [rd.data])[taken..] == got[taken..] + [rd.data];
      }
    }
  }

  /** Reading a frame: Bytes delivers exactly the next accepted body, Reader its first bytes. */
  lemma TakeHolding(s: Source, got: seq<Bytes>, taken: nat, n: nat)
    requires Holding(s, got, taken) && s.buf.frames > 0
    ensures taken < |got| && |s.buf.lenBuf| == 4
    ensures var (s', data) := TakeBytes(s);
            && data == Some(got[taken]) && Holding(s', got, taken + 1)
            && s'.failed == s.failed && s'.closings == s.closings && s'.buf.frames == s.buf.frames - 1
    ensures var (s', data) := TakePart(s, n);
            data == Some(got[taken][..Min(n, |got[taken]|)]) && Holding(s', got, taken + 1)
            && s'.failed == s.failed
  {
    hide NextFrame, ReadSome, LE32, WaitersInOrder;
    var cur, tail :| Holds(s.buf, cur, got[taken..], tail) && (tail != [] ==> s.failed.Some?);
    NextHolds(s.buf, cur, got[taken..], tail);
    var (buf, len) := NextFrame(s.buf);
    var x := got[taken];
    var some := Body([], false);
    WaitersKept(s.buf, 0, some, 0);
    WaitersKept(buf, 0, some, buf.limit);
    WaitersKept(buf, 0, some, n);
    assert got[taken..][0] == x && got[taken..][1..] == got[taken + 1..];
    ReadHolds(buf, x, got[taken + 1..], tail, buf.limit);
    ReadHolds(buf, x, got[taken + 1..], tail, n);
    assert x[..|x|] == x;
    FramesKept(buf, buf.limit);
  }

  lemma FramesKept(fb: Buffer, n: nat)
    ensures ReadSome(fb, n).0.frames == fb.frames
  {
  }

  // ---- whole runs ----

  datatype Op =
    | Arrive(len: uint32, flag: byte, rd: Body)   // a data packet reaches the stream
    | Cancellation(err: Option<Error>)            // Cancel
    | Waking(arm: Arm)                            // a blocked Next returns
    | Waiting                                     // a Next starts to block
    | TakeAll                                     // Bytes, after a Next that returned true
    | TakeSome(n: nat)                            // Reader, after a Next that returned true

  /** One step, with the body it accepted and the bytes it delivered. Takes that no successful Next
      allows, wake-ups that cannot happen and bodies longer than announced are skipped. */
  function Step(s: Source, op: Op): (Source, Option<Bytes>, Option<Bytes>)
    requires |s.buf.lenBuf| == 4
  {
    match op
    case Arrive(len, flag, rd) =>
      if |rd.data| > len then (s, None, None)
      else
        var (s', err) := Deliver(s, len, flag, rd);
        (s', if err.None? then Some(rd.data) else None, None)
    case Cancellation(err) => (Cancel(s, err), None, None)
    case Waking(arm) => (if CanWake(s, arm) then Wake(s, arm).0 else s, None, None)
    case Waiting => (s.(buf := WaitForMore(s.buf).0), None, None)
    case TakeAll =>
      if s.buf.frames == 0 then (s, None, None)
      else var (s', data) := TakeBytes(s); (s', None, data)
    case TakeSome(n) =>
      if s.buf.frames == 0 then (s, None, None)
      else var (s', data) := TakePart(s, n); (s', None, data)
  }

  function Append(list: seq<Bytes>, x: Option<Bytes>): seq<Bytes> {
    if x.Some? then list + [x.value] else list
  }

  /** The bytes a take must deliver for the frame `x`. */
  function Portion(op: Op, x: Bytes): Bytes {
    if op.TakeSome? then x[..Min(op.n, |x|)] else x
  }

  lemma StepHolding(s: Source, got: seq<Bytes>, taken: nat, op: Op)
    requires Holding(s, got, taken)
    ensures |s.buf.lenBuf| == 4
    ensures var (s', accepted, data) := Step(s, op);
            && Holding(s', Append(got, accepted), if data.Some? then taken + 1 else taken)
            && (data.Some? ==> taken < |got| && data.value == Portion(op, got[taken]))
            && (s.failed.Some? ==> s'.failed == s.failed && accepted.None?)
            && (data.Some? <==> (op.TakeAll? || op.TakeSome?) && s.buf.frames > 0)
  {
    hide Deliver, TakeBytes, TakePart, LE32, WaitersInOrder;
    HoldingLenBuf(s, got, taken);
    match op {
      case Arrive(len, flag, rd) =>
        if |rd.data| <= len {
          DeliverHolding(s, got, taken, len, flag, rd);
          var (s', err) := Deliver(s, len, flag, rd);
          assert Step(s, op) == (s', if err.None? then Some(rd.data) else None, None);
        }
      case Cancellation(err) => CancelHolding(s, got, taken, err);
      case Waking(arm) => WakeHolding(s, got, taken, arm);
      case Waiting =>
        var cur, tail :| Holds(s.buf, cur, got[taken..], tail) && (tail != [] ==> s.failed.Some?);
        WaitersKept(s.buf, 0, Body([], false), 0);
        assert Holds(WaitForMore(s.buf).0, cur, got[taken..], tail);
      case TakeAll =>
        if s.buf.frames > 0 {
          TakeHolding(s, got, taken, 0);
        }
      case TakeSome(n) =>
        if s.buf.frames > 0 {
          TakeHolding(s, got, taken, n);
        }
    }
  }

  lemma WakeHolding(s: Source, got: seq<Bytes>, taken: nat, arm: Arm)
    requires Holding(s, got, taken)
    ensures Holding(Wake(s, arm).0, got, taken)
    ensures s.failed.Some? ==> Wake(s, arm).0.failed == s.failed
  {
  }

  datatype History = History(src: Source, got: seq<Bytes>, read: seq<Bytes>)

  function Run(h: History, ops: seq<Op>): History
    requires |h.src.buf.lenBuf| == 4
    decreases |ops|
  {
    if ops == [] then h
    else
      var (s', accepted, data) := Step(h.src, ops[0]);
      SourceLenBufKept(h.src, ops[0]);
      Run(History(s', Append(h.got, accepted), Append(h.read, data)), ops[1..])
  }

  lemma SourceLenBufKept(s: Source, op: Op)
    requires |s.buf.lenBuf| == 4
    ensures |Step(s, op).0.buf.lenBuf| == 4
  {
  }

  /** `read` is what readers got for the first frames: each one whole, or its first bytes. */
  ghost predicate ReadsPrefix(read: seq<Bytes>, got: seq<Bytes>) {
    |read| <= |got| && forall i | 0 <= i < |read| :: read[i] <= got[i]
  }

  /** Every run of a source: frames are delivered in order, each once, each the accepted body or (by
      Reader) its beginning; a failure is final, and nothing is accepted after it. */
  lemma {:induction false} DeliversInOrder(h: History, ops: seq<Op>)
    requires Holding(h.src, h.got, |h.read|) && ReadsPrefix(h.read, h.got)
    ensures |h.src.buf.lenBuf| == 4
    ensures var h' := Run(h, ops);
            && Holding(h'.src, h'.got, |h'.read|) && ReadsPrefix(h'.read, h'.got)
            && h.got <= h'.got && h.read <= h'.read
            && (h.src.failed.Some? ==> h'.src.failed == h.src.failed && h'.got == h.got)
            && ((forall op | op in ops :: !op.TakeSome?) && h.read == h.got[..|h.read|]
                ==> h'.read == h'.got[..|h'.read|])
    decreases |ops|
  {
    hide Step, Holding;
    HoldingLenBuf(h.src, h.got, |h.read|);
    if ops != [] {
      var (s', accepted, data) := Step(h.src, ops[0]);
      StepHolding(h.src, h.got, |h.read|, ops[0]);
      SourceLenBufKept(h.src, ops[0]);
      var h1 := History(s', Append(h.got, accepted), Append(h.read, data));
      DeliversInOrder(h1, ops[1..]);
      assert forall op | op in ops[1..] :: op in ops;
      assert ops[0] in ops;
      if data.Some? && h.read == h.got[..|h.read|] && !ops[0].TakeSome? {
        assert h1.read == h1.got[..|h1.read|];
      }
    }
  }

  /** A Next that ends with a context, say a timeout, is reported as that: whatever happens to the source
      later, Err gives the error of that context, unless it means a regular end. */
  lemma TimeoutIsReported(h: History, arm: Arm, ops: seq<Op>)
    requires Holding(h.src, h.got, |h.read|) && ReadsPrefix(h.read, h.got) && h.src.failed.None?
    requires arm.StreamDone? || arm.CallerDone?
    ensures |h.src.buf.lenBuf| == 4
    ensures ErrOf(Run(h, [Waking(arm)] + ops).src) == if MeansEnd(arm.err) then None else Some(arm.err)
  {
    hide Holding, Step, ReadsPrefix;
    HoldingLenBuf(h.src, h.got, |h.read|);
    var op := Waking(arm);
    var all := [op] + ops;
    assert all[0] == op && all[1..] == ops;
    StepHolding(h.src, h.got, |h.read|, op);
    WakeRecords(h.src, arm);
    var (s', accepted, data) := Step(h.src, op);
    assert s' == Wake(h.src, arm).0 && accepted.None? && data.None? by { WakingStep(h.src, arm); }
    SourceLenBufKept(h.src, op);
    var h1 := History(s', h.got, h.read);
    assert Run(h, all) == Run(h1, ops);
    DeliversInOrder(h1, ops);
    ErrExactly(s');
    ErrExactly(Run(h1, ops).src);
  }

  lemma WakingStep(s: Source, arm: Arm)
    requires |s.buf.lenBuf| == 4 && (arm.StreamDone? || arm.CallerDone?)
    ensures Step(s, Waking(arm)) == (Wake(s, arm).0, None, None)
  {
  }

  // ---- what happens to a source while nobody takes frames from it ----

  /** From `s` with history `got` to `s'` with `got'`: bodies were accepted, nothing was taken, a failure
      is final, and a channel from `ch` on was only closed because there is a frame. */
  ghost predicate Grows(s: Source, got: seq<Bytes>, s': Source, got': seq<Bytes>) {
    && got <= got'
    && (s.failed.Some? ==> s'.failed == s.failed && got' == got)
    && s.closings <= s'.closings
    && (s'.closings > 0 && s.closings == 0 ==> s'.failed.Some?)
    && s.buf.made <= s'.buf.made && s'.buf.frames == Wrap32(s.buf.frames + |got'| - |got|)
    && (forall ch: nat :: WakesAreReal(s.buf, ch) && s.buf.frames + |got'| - |got| < 0x1_0000_0000
                          ==> WakesAreReal(s'.buf, ch))
  }

  lemma StepGrows(s: Source, got: seq<Bytes>, op: Op)
    requires |s.buf.lenBuf| == 4 && !op.TakeAll? && !op.TakeSome?
    ensures var (s', accepted, _) := Step(s, op);
            Grows(s, got, s', Append(got, accepted))
  {
    hide LE32;
  }

  // ---- when a failure wakes a waiting Next ----

  /** Next waits for the channel `closed` too, which is closed by the step that fails the source, unless
      that is the end of a Next with a context: the failure is recorded then, and nobody is told. */
  lemma FailureWakesExactly(s: Source, op: Op)
    requires |s.buf.lenBuf| == 4 && s.failed.None? && s.closings == 0
    ensures var s' := Step(s, op).0;
            && (s'.failed.Some? ==> (CanWake(s', ClosedChannel) <==> !op.Waking?))
            && (s'.failed.None? ==> !CanWake(s', ClosedChannel))
  {
    hide LE32, CopyBody, NextFrame, ReadSome;
  }

  /** What a failed source tells is settled: if a Next that ended with a context failed it, no Cancel, and
      nothing else, ever closes the channel, and no other Next is woken by it. */
  lemma {:induction false} FailureIsSettled(h: History, ops: seq<Op>)
    requires |h.src.buf.lenBuf| == 4 && h.src.failed.Some?
    ensures CanWake(Run(h, ops).src, ClosedChannel) <==> CanWake(h.src, ClosedChannel)
    decreases |ops|
  {
    hide LE32, CopyBody, NextFrame, ReadSome, CanWake;
    if ops != [] {
      var (s', accepted, data) := Step(h.src, ops[0]);
      SourceLenBufKept(h.src, ops[0]);
      FailedStays(h.src, ops[0]);
      FailureIsSettled(History(s', Append(h.got, accepted), Append(h.read, data)), ops[1..]);
    }
  }

  lemma FailedStays(s: Source, op: Op)
    requires |s.buf.lenBuf| == 4 && s.failed.Some?
    ensures var s' := Step(s, op).0;
            s'.failed == s.failed && (CanWake(s', ClosedChannel) <==> CanWake(s, ClosedChannel))
  {
    hide LE32, CopyBody, NextFrame, ReadSome;
  }

  // ---- draining a failed source ----

  /** The loop `for src.Next(ctx) { src.Bytes() }` on a source that nothing arrives at. */
  function Drain(s: Source): (Source, seq<Bytes>)
    requires |s.buf.lenBuf| == 4
    decreases s.buf.frames
  {
    if PollNow(s) != Ready then (s, [])
    else
      var (s1, data) := TakeBytes(s);
      if data.None? then (s1, [])
      else
        var (s2, more) := Drain(s1);
        (s2, [data.value] + more)
  }

  /** After a failure the loop runs exactly once per queued frame, delivers all of them intact, and
      then Next reports the end: no byte of a body that stopped short is delivered. */
  lemma {:induction false} FailedSourceDrains(s: Source, got: seq<Bytes>, taken: nat)
    requires Holding(s, got, taken) && s.failed.Some? && |got| - taken < 0x1_0000_0000
    ensures |s.buf.lenBuf| == 4
    ensures Drain(s).1 == got[taken..] && PollNow(Drain(s).0) == Over
    decreases |got| - taken
  {
    hide Holds, TakeBytes;
    HoldingLenBuf(s, got, taken);
    assert s.buf.frames == |got| - taken by { HoldingFrames(s, got, taken); }
    if s.buf.frames > 0 {
      TakeHolding(s, got, taken, 0);
      var (s1, data) := TakeBytes(s);
      FailedSourceDrains(s1, got, taken + 1);
      assert got[taken..] == [got[taken]] + got[taken + 1..];
    }
  }

  /** A Next that waits in its select reports the end although accepted frames are left exactly if it is
      the caller's context that it sees and a frame came in while it waited. */
  lemma EndsEarlyExactly(s: Source, got: seq<Bytes>, taken: nat, arm: Arm)
    requires Holding(s, got, taken) && |got| - taken < 0x1_0000_0000
    ensures taken <= |got|
    ensures !Wake(s, arm).1 && taken < |got| <==> arm.CallerDone? && s.buf.frames > 0
  {
    hide Holds;
    HoldingBounds(s, got, taken);
    HoldingFrames(s, got, taken);
  }

  /** The loop of Drain when its first Next is waiting already and is ended by `arm`. */
  function DrainFrom(s: Source, arm: Arm): (Source, seq<Bytes>)
    requires |s.buf.lenBuf| == 4
  {
    var (s1, more) := Wake(s, arm);
    if !more then (s1, [])
    else
      var (s2, data) := TakeBytes(s1);
      if data.None? then (s2, [])
      else var (s3, rest) := Drain(s2); (s3, [data.value] + rest)
  }

  /** With a Next that was waiting when the source failed, the loop still delivers everything, except in
      that one case, in which it delivers nothing. A wake-up by a channel is taken to be real. */
  lemma WaitingSourceDrains(s: Source, got: seq<Bytes>, taken: nat, arm: Arm)
    requires Holding(s, got, taken) && s.failed.Some? && |got| - taken < 0x1_0000_0000
    requires arm.MoreChannel? ==> s.buf.frames > 0
    ensures |s.buf.lenBuf| == 4 && taken <= |got|
    ensures DrainFrom(s, arm).1 == if arm.CallerDone? then [] else got[taken..]
    ensures DrainFrom(s, arm).1 == got[taken..] <==> !(arm.CallerDone? && s.buf.frames > 0)
  {
    hide Holding, TakeBytes, Drain;
    HoldingLenBuf(s, got, taken);
    HoldingBounds(s, got, taken);
    HoldingFrames(s, got, taken);
    if s.buf.frames > 0 && !arm.CallerDone? {
      assert Wake(s, arm) == (s, true);
      TakeHolding(s, got, taken, 0);
      FailedSourceDrains(TakeBytes(s).0, got, taken + 1);
      assert got[taken..] == [got[taken]] + got[taken + 1..];
    }
  }

  lemma HoldingFrames(s: Source, got: seq<Bytes>, taken: nat)
    requires Holding(s, got, taken)
    ensures s.buf.frames == Wrap32(|got| - taken)
  {
  }

  // ---- the object ----

  class ByteSource {
    const buf: FrameBuffer
    var failed: Option<Error>
    var closings: nat
    var hdrFlag: byte

    ghost function State(): Source
      reads this, buf
    {
      Source(buf.State(), failed, closings, hdrFlag)
    }

    constructor ()
      ensures fresh(buf) && State() == FRESH
    {
      buf := new FrameBuffer();
      failed, closings, hdrFlag := None, 0, 0;
    }

    method CancelWith(err: Option<Error>)
      modifies this
      ensures State() == Cancel(old(State()), err)
    {
      if failed.Some? {
        return;
      }
      if err.None? {
        failed := Some(EOF);
      } else {
        failed := err;
      }
      closings := closings + 1;
    }

    method Err() returns (err: Option<Error>)
      ensures err == ErrOf(State())
    {
      if failed.Some? && (IsError(failed.value, EOF) || IsError(failed.value, Canceled)) {
        return None;
      }
      return failed;
    }

    method ConsumeBody(pktLen: uint32, flag: byte, rd: Body) returns (err: Option<Error>)
      modifies this, buf
      ensures (State(), err) == Consume(old(State()), pktLen, flag, rd)
    {
      if failed.Some? {
        return Some(SourceCanceled(failed.value));
      }
      hdrFlag := flag;
      err := buf.CopyBodyFrom(pktLen, rd);
    }

    /** The part of Next before its select; a blocked caller gets the channel it waits for. */
    method StartNext() returns (p: Poll, ch: nat)
      modifies buf
      ensures p == PollNow(old(State()))
      ensures p != Blocked ==> State() == old(State())
      ensures p == Blocked ==> (State().buf, ch) == WaitForMore(old(State()).buf)
                               && State() == old(State()).(buf := State().buf)
    {
      ch := 0;
      if failed.Some? && buf.frames == 0 {
        return Over, ch;
      }
      if buf.frames > 0 {
        return Ready, ch;
      }
      ch := buf.WaitChannel();
      return Blocked, ch;
    }

    /** The part of Next after its select. */
    method FinishNext(arm: Arm) returns (more: bool)
      requires CanWake(State(), arm)
      modifies this
      ensures (State(), more) == Wake(old(State()), arm)
    {
      match arm {
        case StreamDone(e) =>
          if failed.None? {
            failed := Some(e);
          }
          return buf.frames > 0;
        case CallerDone(e) =>
          if failed.None? {
            failed := Some(e);
          }
          return false;
        case ClosedChannel => return buf.frames > 0;
        case MoreChannel(_) => return true;
      }
    }

    method NextBytes() returns (data: Option<Bytes>)
      requires |State().buf.lenBuf| == 4
      modifies buf
      ensures |State().buf.lenBuf| == 4
      ensures (State(), data) == TakeBytes(old(State()))
    {
      hide NextFrame;
      var len := buf.GetNextFrameReader();
      if len.None? {
        return None;
      }
      var b := buf.ReadFrame(buf.limit);
      return Some(b);
    }
  }
}
