/** ByteSink of stream2_sink.go, the end packets of stream.go and the request encodings of request.go. */
module Sink {
  import opened Base
  import opened Codec

  // ---- JSON, as a parameter ----

  datatype Call = Call(path: seq<string>, args: Bytes, typ: string)

  /** The encoding of calls and call errors. The library behind it is not modelled. */
  datatype Json = Json(
    encCall: Call -> Bytes, decCall: Bytes -> Option<Call>,
    encErr: string -> Bytes, decErr: Bytes -> Option<(string, string)>)

  const TRUE: Bytes := [116, 114, 117, 101]   // t r u e

  /** What the session needs of it: calls and errors survive the trip, and an error is never the
      literal `true`. Json.dfy has an encoding that is faithful. */
  ghost predicate Faithful(j: Json) {
    && (forall c: Call :: j.decCall(j.encCall(c)) == Some(c))
    && (forall m: string :: j.decErr(j.encErr(m)) == Some(("Error", m)) && j.encErr(m) != TRUE)
  }

  /** The texts of the errors, as they go into an error packet. That of Eos is luigi's, which is
      not part of this model. */
  function Text(e: Error): string {
    match e
    case EOF => "EOF"
    case Eos => "end of stream"
    case Canceled => "context canceled"
    case SessionTerminated => "muxrpc: session terminated"
    case NoSuchMethod(path) => "muxrpc: no such command: " + Join(path)
    case CallError(name, message) => "muxrpc CallError: " + name + " - " + message
    case SourceCanceled(inner) => "muxrpc: byte source canceled: " + Text(inner)
    case ShortBody => "frameBuffer: failed to consume whole body"
    case UnexpectedEOF => "unexpected EOF"
    case TooLarge => "pkt-codec: body too large"
    case WriteFailed => "pkt-codec: write failed"
    case NoRequestID => "req ID not set"
    case BadRequest => "muxrpc: error unpacking request"
    case Other(text) => text
  }

  // ---- end packets ----

  function EndFlag(stream: bool): Flag {
    var f := Set(FLAG_JSON, FLAG_END_ERR);
    if stream then Set(f, FLAG_STREAM) else f
  }

  function EndOkay(req: int32, stream: bool): Packet { Packet(ToByte(EndFlag(stream)), req, TRUE) }

  function EndErr(j: Json, req: int32, stream: bool, e: Error): Packet {
    Packet(ToByte(EndFlag(stream)), req, j.encErr(Text(e)))
  }

  /** The error packet that rejects a call of this method fits into the 32-bit length field. */
  predicate Answerable(j: Json, path: seq<string>) { |j.encErr(Text(NoSuchMethod(path)))| <= MAX_BUFFER_SIZE }

  predicate IsEnd(p: Packet) { Get(FromByte(p.flag), FLAG_END_ERR) }

  lemma EndsAreEnds(j: Json, req: int32, stream: bool, e: Error)
    ensures IsEnd(EndOkay(req, stream)) && IsEnd(EndErr(j, req, stream, e))
    ensures !Goodbye(EndOkay(req, stream)) && !Goodbye(EndErr(j, req, stream, e))
    ensures Fits(EndOkay(req, stream))
    ensures Faithful(j) ==> EndErr(j, req, stream, e).body != TRUE
  {
    hide ToByte, FromByte, Text;
    FlagRoundTrip(EndFlag(stream));
    ZeroByte();
  }

  /** `true` in ASCII. */
  lemma TrueIsAscii()
    ensures |TRUE| == |"true"| && forall i | 0 <= i < |TRUE| :: TRUE[i] == "true"[i] as int
  {
  }

  /** The end packets byte by byte: JSON and end bits (2 + 4), and the stream bit (8). */
  lemma EndPackets(j: Json, req: int32, stream: bool, e: Error)
    ensures EndOkay(req, stream) == Packet(if stream then 14 else 6, req, [116, 114, 117, 101])
    ensures EndErr(j, req, stream, e) == Packet(if stream then 14 else 6, req, j.encErr(Text(e)))
  {
    hide Text;
  }

  lemma ZeroByte()
    ensures FromByte(0) == NO_FLAGS
  {
  }

  /** The serve loop can read this packet's body if it is an end packet. */
  predicate Decodable(j: Json, p: Packet) {
    IsEnd(p) ==> p.body == TRUE || j.decErr(p.body).Some?
  }

  // ---- encodings ----

  datatype Encoding = TypeBinary | TypeString | TypeJSON

  function EncodingFlag(re: Encoding): Flag {
    match re
    case TypeBinary => NO_FLAGS
    case TypeString => FLAG_STRING
    case TypeJSON => FLAG_JSON
  }

  // ---- the sink ----

  datatype Sink = Sink(closed: Option<Error>, flag: Flag, req: int32)

  /** What a write of `p` returns when the connection takes (`ok`) or refuses it. */
  function WriteError(p: Packet, ok: bool): Option<Error> {
    if !Fits(p) then Some(TooLarge) else if !ok then Some(WriteFailed) else None
  }

  function DataPacket(s: Sink, b: Bytes): Packet { Packet(ToByte(s.flag), s.req, b) }

  /** `ctx` is the error of the stream's context, if it is done. The packet returned went out. */
  function Write(s: Sink, ctx: Option<Error>, b: Bytes, ok: bool): (Sink, Option<Error>, Option<Packet>) {
    if s.closed.Some? then (s, s.closed, None)
    else if ctx.Some? then (s.(closed := ctx), ctx, None)
    else if s.req == 0 then (s, Some(NoRequestID), None)
    else
      var p := DataPacket(s, b);
      var err := WriteError(p, ok);
      if err.Some? then (s.(closed := err), err, None) else (s, None, Some(p))
  }

  /** How the write of an end packet goes: the connection takes it, refuses it, or does not answer
      within ten seconds; in that case the write is still under way and may succeed late. */
  datatype Outcome = Goes | Refused | TimesOut(late: bool)

  const CLOSE_TIMEOUT: Error := Other("muxrpc: close timeout exceeded")

  predicate CleanClose(err: Option<Error>) { err.None? || err.value == EOF }

  function ClosePacket(j: Json, s: Sink, err: Option<Error>): Packet {
    if CleanClose(err) then EndOkay(s.req, Get(s.flag, FLAG_STREAM))
    else EndErr(j, s.req, Get(s.flag, FLAG_STREAM), err.value)
  }

  /** The packet returned is what goes out, now or late. */
  function Close(j: Json, s: Sink, err: Option<Error>, outcome: Outcome): (Sink, Option<Error>, Option<Packet>) {
    if s.closed.Some? then (s, s.closed, None)
    else
      var p := ClosePacket(j, s, err);
      var s' := if CleanClose(err) then s else s.(closed := err);
      if outcome.TimesOut? then
        (s'.(closed := Some(CLOSE_TIMEOUT)), Some(CLOSE_TIMEOUT), if outcome.late && Fits(p) then Some(p) else None)
      else
        var werr := WriteError(p, outcome.Goes?);
        if werr.Some? then (s'.(closed := werr), werr, None) else (s', None, Some(p))
  }

  function SetEncoding(s: Sink, re: Encoding): Sink {
    var f := if re == TypeBinary then Clear(s.flag, FLAG_JSON) else s.flag;
    s.(flag := Set(f, EncodingFlag(re)))
  }

  /** Which bits a change of encoding moves: the string bit is never taken back, the JSON bit only by
      TypeBinary, and the bits above the type stay as they were. */
  lemma EncodingBits(s: Sink, re: Encoding)
    ensures var f := SetEncoding(s, re).flag;
            && (f.text <==> s.flag.text || re == TypeString)
            && (f.json <==> re == TypeJSON || (s.flag.json && re != TypeBinary))
            && f.endErr == s.flag.endErr && f.stream == s.flag.stream
            && f.b4 == s.flag.b4 && f.b5 == s.flag.b5 && f.b6 == s.flag.b6 && f.b7 == s.flag.b7
  {
    match re {
      case TypeBinary =>
      case TypeString =>
      case TypeJSON =>
    }
  }

  // ---- runs of a sink ----

  datatype Op =
    | Send(ctx: Option<Error>, b: Bytes, ok: bool)
    | End(err: Option<Error>, outcome: Outcome)
    | Encode(re: Encoding)

  function Step(j: Json, s: Sink, op: Op): (Sink, seq<Packet>) {
    match op
    case Send(ctx, b, ok) => var (s', err, p) := Write(s, ctx, b, ok); (s', if p.Some? then [p.value] else [])
    case End(err, outcome) => var (s', werr, p) := Close(j, s, err, outcome); (s', if p.Some? then [p.value] else [])
    case Encode(re) => (SetEncoding(s, re), [])
  }

  /** Data packets never carry the end flag, and a sink with an id never says goodbye. */
  predicate SaneSink(s: Sink) { s.req != 0 && !s.flag.endErr }

  lemma StepFacts(j: Json, s: Sink, op: Op)
    requires SaneSink(s)
    ensures var (s', out) := Step(j, s, op);
            && SaneSink(s') && s'.req == s.req && |out| <= 1
            && (s.closed.Some? ==> out == [] && s'.closed == s.closed)
            && (op.Encode? ==> out == [])
            && (out != [] ==> Emitted(s, s', op, out[0]))
            && (out != [] && Faithful(j) ==> Decodable(j, out[0]))
  {
    match op {
      case Send(ctx, b, ok) => WriteFacts(s, ctx, b, ok);
      case End(err, outcome) => CloseFacts(j, s, err, outcome);
      case Encode(re) =>
    }
  }

  lemma WriteFacts(s: Sink, ctx: Option<Error>, b: Bytes, ok: bool)
    requires SaneSink(s)
    ensures var (s', err, p) := Write(s, ctx, b, ok);
            && SaneSink(s') && s'.req == s.req && (err.None? <==> p.Some?)
            && (s.closed.Some? ==> p.None? && s'.closed == s.closed)
            && (p.Some? ==> s' == s && Emitted(s, s', Send(ctx, b, ok), p.value))
            && (p.None? ==> s'.closed.Some?)
  {
    hide ToByte, FromByte;
    FlagRoundTrip(s.flag);
  }

  lemma CloseFacts(j: Json, s: Sink, err: Option<Error>, outcome: Outcome)
    requires SaneSink(s)
    ensures var (s', werr, p) := Close(j, s, err, outcome);
            && SaneSink(s') && s'.req == s.req && (werr.None? ==> p.Some?)
            && (werr.Some? && p.Some? ==> outcome == TimesOut(true) && s'.closed == Some(CLOSE_TIMEOUT))
            && (s.closed.Some? ==> p.None? && s'.closed == s.closed)
            && (p.Some? ==> Emitted(s, s', End(err, outcome), p.value))
            && (p.Some? && Faithful(j) ==> Decodable(j, p.value))
            && (p.None? ==> s'.closed.Some?)
  {
    hide EndErr, EndOkay, IsEnd, Sendable, Faithful, Decodable, Get;
    var e := if err.Some? then err.value else EOF;
    ClosePacketSendable(j, s, err);
    EndsAreEnds(j, s.req, Get(s.flag, FLAG_STREAM), e);
    EndFields(j, s.req, Get(s.flag, FLAG_STREAM), e);
  }

  lemma ClosePacketSendable(j: Json, s: Sink, err: Option<Error>)
    requires SaneSink(s)
    ensures var p := ClosePacket(j, s, err);
            p.req == s.req && (Fits(p) ==> Sendable(p))
  {
    hide Get, Text;
    EndFields(j, s.req, Get(s.flag, FLAG_STREAM), if err.Some? then err.value else EOF);
  }

  lemma EndFields(j: Json, req: int32, stream: bool, e: Error)
    ensures EndOkay(req, stream).req == req && EndOkay(req, stream).body == TRUE
    ensures EndErr(j, req, stream, e).req == req
    ensures Faithful(j) ==> Decodable(j, EndOkay(req, stream)) && Decodable(j, EndErr(j, req, stream, e))
  {
    hide Text, IsEnd, ToByte;
  }

  /** A write in full. An open sink with a running context and an id sends one packet with its own flags;
      a packet that does not go out closes the sink for good. Without an id nothing happens. */
  lemma WriteExactly(s: Sink, ctx: Option<Error>, b: Bytes, ok: bool)
    ensures var (s', err, p) := Write(s, ctx, b, ok);
            && (s.closed.Some? ==> s' == s && err == s.closed && p == None)
            && (s.closed.None? && ctx.Some? ==> s' == Sink(ctx, s.flag, s.req) && err == ctx && p == None)
            && (s.closed.None? && ctx.None? && s.req == 0 ==> s' == s && err == Some(NoRequestID) && p == None)
            && (s.closed.None? && ctx.None? && s.req != 0 ==>
                  if |b| <= 0xFFFF_FFFF && ok then
                    s' == s && err == None && p.Some? && p.value.req == s.req && p.value.body == b
                    && FromByte(p.value.flag) == s.flag
                  else
                    p == None && err == Some(if |b| > 0xFFFF_FFFF then TooLarge else WriteFailed)
                    && s' == Sink(err, s.flag, s.req))
  {
    hide ToByte, FromByte;
    FlagRoundTrip(s.flag);
  }

  /** SetEncoding reaches the wire: on a sink that has at most the stream bit, the next packet has the type
      0, 1 or 2, and 8 if it is a stream. */
  lemma EncodedWrite(s: Sink, re: Encoding, b: Bytes)
    requires s.closed.None? && s.req != 0 && |b| <= MAX_BUFFER_SIZE && s.flag in {NO_FLAGS, FLAG_STREAM}
    ensures var (_, err, p) := Write(SetEncoding(s, re), None, b, true);
            var typ := match re case TypeBinary => 0 case TypeString => 1 case TypeJSON => 2;
            err == None && p == Some(Packet(typ + if s.flag == FLAG_STREAM then 8 else 0, s.req, b))
  {
  }

  /** A close in full. An open sink sends one end packet: `true` for a regular end, the text of the error
      otherwise; it is left open exactly by a regular end whose packet went out. */
  lemma CloseExactly(j: Json, s: Sink, err: Option<Error>, outcome: Outcome)
    ensures var (s', werr, sent) := Close(j, s, err, outcome);
            var clean := err == None || err == Some(EOF);
            var body := if clean then [116, 114, 117, 101] else j.encErr(Text(err.value));
            var p := Packet(if s.flag.stream then 14 else 6, s.req, body);
            var fits := |body| <= 0xFFFF_FFFF;
            && (s.closed.Some? ==> s' == s && werr == s.closed && sent == None)
            && (s.closed.None? ==>
                  && sent == (if fits && outcome in {Goes, TimesOut(true)} then Some(p) else None)
                  && werr == (if outcome.TimesOut? then Some(Other("muxrpc: close timeout exceeded"))
                              else if !fits then Some(TooLarge) else if outcome.Refused? then Some(WriteFailed)
                              else None)
                  && s' == Sink(if werr.Some? then werr else if clean then None else err, s.flag, s.req))
  {
    hide Text, ToByte, EndFlag;
    EndPackets(j, s.req, Get(s.flag, FLAG_STREAM), if err.Some? then err.value else EOF);
  }

  /** What the packet sent by a step looks like, and what the sink remembers of it. */
  predicate Emitted(s: Sink, s': Sink, op: Op, p: Packet) {
    && p.req == s.req && Sendable(p)
    && (IsEnd(p) <==> op.End?)
    && (op.Send? ==> p.body == op.b && FromByte(p.flag) == s.flag)
    && (op.End? && !CleanClose(op.err) ==> s'.closed == if op.outcome.Goes? then op.err else Some(CLOSE_TIMEOUT))
    && (op.End? && CleanClose(op.err) ==> p.body == TRUE && (op.outcome.Goes? ==> s' == s))
  }

  function Run(j: Json, s: Sink, ops: seq<Op>): (Sink, seq<Packet>)
    decreases |ops|
  {
    if ops == [] then (s, [])
    else
      var (s1, out) := Step(j, s, ops[0]);
      var (s2, more) := Run(j, s1, ops[1..]);
      (s2, out + more)
  }

  predicate IsErrorEnd(p: Packet) { IsEnd(p) && p.body != TRUE }

  /** An error end packet can only be the last one. */
  predicate ErrorOnlyLast(ps: seq<Packet>) {
    forall i | 0 <= i < |ps| && IsErrorEnd(ps[i]) :: i == |ps| - 1
  }

  /** What a closed sink sends: nothing, ever again. */
  lemma {:induction false} ClosedSinkIsSilent(j: Json, s: Sink, ops: seq<Op>)
    requires SaneSink(s) && s.closed.Some?
    ensures Run(j, s, ops).1 == [] && Run(j, s, ops).0.closed == s.closed
    decreases |ops|
  {
    hide Step;
    if ops != [] {
      StepFacts(j, s, ops[0]);
      ClosedSinkIsSilent(j, Step(j, s, ops[0]).0, ops[1..]);
    }
  }

  /** Over every run of a sink, an error end packet is the last packet it sends, so there is at most
      one. (Clean closes are not recorded and may repeat.) */
  lemma {:induction false} ErrorEndIsLast(j: Json, s: Sink, ops: seq<Op>)
    requires SaneSink(s) && Faithful(j)
    ensures ErrorOnlyLast(Run(j, s, ops).1)
    decreases |ops|
  {
    hide Step, IsEnd, Faithful;
    if ops != [] {
      StepFacts(j, s, ops[0]);
      var (s1, out) := Step(j, s, ops[0]);
      ErrorEndIsLast(j, s1, ops[1..]);
      if out != [] && IsErrorEnd(out[0]) {
        ClosedSinkIsSilent(j, s1, ops[1..]);
      }
    }
  }

  /** When a sink closes without telling the other end: a write after the stream's context ended, a write
      that is too large or refused, and a close whose packet does not go out. */
  lemma ClosesSilentlyExactly(j: Json, s: Sink, op: Op)
    requires SaneSink(s) && s.closed.None?
    ensures var (s', out) := Step(j, s, op);
            (s'.closed.Some? && !(exists p :: p in out && IsEnd(p))) <==>
              match op
              case Send(ctx, b, ok) => ctx.Some? || |b| > MAX_BUFFER_SIZE || !ok
              case End(err, outcome) =>
                |ClosePacket(j, s, err).body| > MAX_BUFFER_SIZE || outcome.Refused? || outcome == TimesOut(false)
              case Encode(_) => false
  {
    hide IsEnd, EndErr, EndOkay;
    StepFacts(j, s, op);
    match op {
      case Send(ctx, b, ok) =>
      case End(err, outcome) =>
        CloseFacts(j, s, err, outcome);
        var out := Step(j, s, op).1;
        if out != [] {
          assert out[0] in out;
        }
      case Encode(_) =>
    }
  }

  /** A clean close leaves no trace: closing again sends the end packet again. */
  lemma CleanCloseRepeats(j: Json, s: Sink, err: Option<Error>)
    requires s.closed.None? && CleanClose(err)
    ensures var (s1, first) := Step(j, s, End(err, Goes));
            var (s2, second) := Step(j, s1, End(err, Goes));
            first == second == [EndOkay(s.req, Get(s.flag, FLAG_STREAM))] && s2 == s
  {
    EndsAreEnds(j, s.req, Get(s.flag, FLAG_STREAM), EOF);
  }

  // ---- the object ----

  /** A context: `err` is set once it is done. */
  class Context {
    var err: Option<Error>

    constructor ()
      ensures err == None
    {
      err := None;
    }
  }

  class ByteSink {
    const w: Writer
    const streamCtx: Context
    var closed: Option<Error>
    var flag: Flag
    var req: int32

    ghost function State(): Sink
      reads this
    {
      Sink(closed, flag, req)
    }

    constructor (ctx: Context, w: Writer)
      ensures this.w == w && streamCtx == ctx && State() == Sink(None, NO_FLAGS, 0)
    {
      this.w := w;
      streamCtx := ctx;
      closed, flag, req := None, NO_FLAGS, 0;
    }

    method Encode(re: Encoding)
      modifies this
      ensures State() == SetEncoding(old(State()), re)
    {
      if re == TypeBinary {
        flag := Clear(flag, FLAG_JSON);
      }
      flag := Set(flag, EncodingFlag(re));
    }

    method WriteBody(b: Bytes) returns (n: int, err: Option<Error>, ghost sent: Option<Packet>)
      modifies this, w.conn
      ensures var ok := old(w.conn.Takes(HEADER_SIZE + |b|));
              (State(), err, sent) == Write(old(State()), old(streamCtx.err), b, ok)
      ensures n == if err.None? then |b| else if old(closed.None? && streamCtx.err.None?) then -1 else 0
      ensures sent.Some? <==> err.None?
      ensures sent.Some? ==> w.conn.out == old(w.conn.out) + Print(sent.value)
      ensures sent.None? ==> w.conn.out == old(w.conn.out) || w.conn.quota == Some(0)
      ensures old(w.conn.out) <= w.conn.out
      ensures old(w.conn.quota).None? ==> w.conn.quota.None?
      ensures Wrote(old(w.conn.Now()), w.conn.Now(), if sent.Some? then [sent.value] else [])
    {
      WroteNothing(w.conn.Now());
      sent := None;
      if closed.Some? {
        return 0, closed, sent;
      }
      if streamCtx.err.Some? {
        closed := streamCtx.err;
        return 0, closed, sent;
      }
      if req == 0 {
        return -1, Some(NoRequestID), sent;
      }
      var p := Packet(ToByte(flag), req, b);
      err := w.WritePacket(p);
      if err.Some? {
        closed := err;
        return -1, err, sent;
      }
      return |b|, None, Some(p);
    }

    /** `answer` says whether the write comes to an end within ten seconds. If it does not, the sink is
        closed with the timeout, and the goroutine that writes is left behind with the packet. */
    method CloseWithError(j: Json, err: Option<Error>, answer: bool)
      returns (r: Option<Error>, ghost sent: Option<Packet>, left: Option<Packet>)
      modifies this, w.conn
      ensures var ok := old(w.conn.Takes(HEADER_SIZE + |ClosePacket(j, State(), err).body|));
              var outcome := if !answer then TimesOut(false) else if ok then Goes else Refused;
              (State(), r, sent) == Close(j, old(State()), err, outcome)
      ensures left == if old(closed).None? && !answer then Some(ClosePacket(j, old(State()), err)) else None
      ensures sent.Some? <==> r.None?
      ensures sent.Some? ==> w.conn.out == old(w.conn.out) + Print(sent.value)
      ensures sent.None? ==> w.conn.out == old(w.conn.out) || w.conn.quota == Some(0)
      ensures old(w.conn.out) <= w.conn.out
      ensures old(w.conn.quota).None? ==> w.conn.quota.None?
      ensures Wrote(old(w.conn.Now()), w.conn.Now(), if sent.Some? then [sent.value] else [])
    {
      WroteNothing(w.conn.Now());
      sent, left := None, None;
      if closed.Some? {
        return closed, sent, left;
      }
      var isStream := Get(flag, FLAG_STREAM);
      var p;
      if err.None? || err.value == EOF {
        p := EndOkay(req, isStream);
      } else {
        p := EndErr(j, req, isStream, err.value);
        closed := err;
      }
      if !answer {
        closed := Some(CLOSE_TIMEOUT);
        return closed, sent, Some(p);
      }
      r := w.WritePacket(p);
      if r.Some? {
        closed := r;
        return r, sent, left;
      }
      return None, Some(p), left;
    }

    /** The write that was left behind comes to an end after all. Nobody looks at its result. */
    method WriteLate(p: Packet) returns (ghost sent: bool)
      modifies w.conn
      ensures sent == (Fits(p) && old(w.conn.Takes(HEADER_SIZE + |p.body|)))
      ensures sent ==> w.conn.out == old(w.conn.out) + Print(p)
      ensures !sent ==> w.conn.out == old(w.conn.out) || w.conn.quota == Some(0)
      ensures State() == old(State())
    {
      var err := w.WritePacket(p);
      sent := err.None?;
    }
  }
}
