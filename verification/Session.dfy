/** One end of a connection: the tables of rpc_server.go, the calls of rpc_client.go, one serve
    iteration and one user action at a time. */
module Session {
  import opened Base
  import C = Codec
  import K = Sink
  import S = Source
  import F = FrameBuffer

  type Packet = C.Packet

  // ---- state ----

  /** A Request with its source, sink and context. `got`, `taken` and `sent` record its history: the
      bodies its source accepted, the frames readers moved on to, the bodies its sink wrote, and `said`
      the body of the first end packet that its sink wrote. */
  datatype Stream = Stream(
    id: int32, src: S.Source, snk: K.Sink, ctx: Option<Error>, abortable: bool,
    got: seq<Bytes>, taken: nat, sent: seq<Bytes>, said: Option<Bytes>)
  {
    const ended: bool := said.Some?
  }

  /** `reqs`, `closed` (reqsClosed) and `highest` are the fields of the rpc. `retired` keeps the
      streams that left `reqs` but that users may still hold, `pending` the calls that have an id but
      whose opening packet is not written yet, `calls` the ids that HandleCall was started for.
      `serving` turns false when the serve loop returns. */
  datatype Endpoint = Endpoint(
    reqs: map<int32, Stream>, closed: set<int32>, highest: int32, retired: map<int32, Stream>,
    pending: map<int32, K.Call>, calls: seq<int32>, serving: bool)

  const START: Endpoint := Endpoint(map[], {}, 0, map[], map[], [], true)

  /** The JSON library, the root handler's answer to `Handled`, and whether the connection takes what is
      written to it. */
  datatype Config = Config(json: K.Json, handles: seq<string> -> bool, goes: bool)

  function Outcome(cfg: Config): K.Outcome { if cfg.goes then K.Goes else K.Refused }

  function Known(ep: Endpoint): set<int32> { ep.reqs.Keys + ep.closed }

  function NewStream(id: int32, flag: C.Flag, abortable: bool): Stream {
    Stream(id, S.FRESH, K.Sink(None, flag, id), None, abortable, [], 0, [], None)
  }

  function Or<T>(a: Option<T>, b: Option<T>): Option<T> { if a.Some? then a else b }

  /** The body of the first end packet. */
  function FirstEnd(ps: seq<Packet>): Option<Bytes> {
    if ps == [] then None else if K.IsEnd(ps[0]) then Some(ps[0].body) else FirstEnd(ps[1..])
  }

  // ---- closing ----

  /** What closing its sink does to a request. */
  function CloseSinkOf(cfg: Config, st: Stream, err: Option<Error>): (Stream, seq<Packet>) {
    var (snk, _, p) := K.Close(cfg.json, st.snk, err, Outcome(cfg));
    var out := if p.Some? then [p.value] else [];
    (st.(snk := snk, said := Or(st.said, FirstEnd(out))), out)
  }

  /** The source is cancelled, the sink closed and, if `abort`, the context ended. */
  function CloseWith(cfg: Config, st: Stream, err: Option<Error>, abort: bool): (Stream, seq<Packet>) {
    var (st', out) := CloseSinkOf(cfg, st, err);
    (st'.(src := S.Cancel(st.src, err), ctx := if abort && st.ctx.None? then Some(Canceled) else st.ctx), out)
  }

  /** What closeStream does to the request's parts. */
  function CloseParts(cfg: Config, st: Stream, err: Option<Error>): (Stream, seq<Packet>) {
    CloseWith(cfg, st, err, st.abortable)
  }

  /** What closeStream does to the tables. */
  function Retire(ep: Endpoint, st: Stream): Endpoint {
    ep.(reqs := ep.reqs - {st.id}, closed := ep.closed + {st.id}, retired := ep.retired[st.id := st])
  }

  /** The errors that Request.CloseWithError takes for a regular end. */
  predicate Regular(err: Option<Error>) {
    err.None? || IsError(err.value, EOF) || IsError(err.value, Eos)
  }

  /** What Request.CloseWithError does to the request's parts: it closes them itself, as a regular end
      if the error is one or wraps one, and then runs closeStream, which closes them again. `goes` says
      whether the connection takes the second packet. */
  function CloseRequest(cfg: Config, st: Stream, cerr: Option<Error>, goes: bool): (Stream, seq<Packet>) {
    var (st1, out1) := CloseSinkOf(cfg, st, if Regular(cerr) then Some(EOF) else cerr);
    var (st2, out2) :=
      CloseParts(cfg.(goes := goes), st1.(src := S.Cancel(st.src, if Regular(cerr) then None else cerr)), cerr);
    (st2, out1 + out2)
  }

  // ---- one serve iteration ----

  /** `drained` says whether the body of the packet was read; `fatal` ends the serve loop. */
  datatype Effect = Effect(ep: Endpoint, out: seq<Packet>, drained: bool, fatal: Option<Error>)

  function Fatal(ep: Endpoint, e: Error, drained: bool): Effect { Effect(ep.(serving := false), [], drained, Some(e)) }

  function CloseStream(cfg: Config, ep: Endpoint, st: Stream, err: Option<Error>, drained: bool): Effect {
    var (st', out) := CloseParts(cfg, st, err);
    Effect(Retire(ep, st'), out, drained, None)
  }

  function ReceiveEnd(cfg: Config, ep: Endpoint, i: int32, body: Bytes): Effect {
    if i in ep.reqs then
      if body == K.TRUE then CloseStream(cfg, ep, ep.reqs[i], None, true)
      else
        var e := cfg.json.decErr(body);
        if e.None? then Fatal(ep, BadRequest, true)
        else CloseStream(cfg, ep, ep.reqs[i], Some(CallError(e.value.0, e.value.1)), true)
    else if i in ep.closed then Effect(ep, [], true, None)
    else Effect(ep, [], false, None)   // "unhandled packet": its body stays in the stream
  }

  /** `len` is what the header announced, `body` what the connection delivered of it. */
  function ReceiveData(cfg: Config, ep: Endpoint, st: Stream, flag: byte, len: uint32, body: Bytes): Effect {
    var (src, err) := S.Consume(st.src, len, flag, F.Body(body, false));
    if err.None? then Effect(ep.(reqs := ep.reqs[st.id := st.(src := src, got := st.got + [body])]), [], true, None)
    else CloseStream(cfg, ep, st.(src := src), err, st.src.failed.None?)
  }

  predicate WellTyped(typ: string, stream: bool) {
    if stream then typ == "duplex" || typ == "source" || typ == "sink" else typ == "" || typ == "async"
  }

  function ReceiveCall(cfg: Config, ep: Endpoint, i: int32, flag: C.Flag, body: Bytes): Effect {
    if i >= 0 || !C.Get(flag, C.FLAG_JSON) then Fatal(ep, BadRequest, false)
    else
      var call := cfg.json.decCall(body);
      var stream := C.Get(flag, C.FLAG_STREAM);
      if call.None? || !WellTyped(call.value.typ, stream) then Fatal(ep, BadRequest, true)
      else if !cfg.handles(call.value.path) then
        var reply := K.EndErr(cfg.json, i, stream, NoSuchMethod(call.value.path));
        if !C.Fits(reply) then Fatal(ep, TooLarge, true)
        else if !cfg.goes then Fatal(ep, WriteFailed, true)
        else Effect(ep.(closed := ep.closed + {i}), [reply], true, None)
      else
        var st := NewStream(i, if stream then C.FLAG_STREAM else C.NO_FLAGS, true);
        Effect(ep.(reqs := ep.reqs[i := st], calls := ep.calls + [i]), [], true, None)
  }

  /** One iteration of the serve loop on a complete packet. Ids are negated on receipt. */
  function Receive(cfg: Config, ep: Endpoint, p: Packet): Effect {
    var i := Neg32(p.req);
    if K.IsEnd(p) then ReceiveEnd(cfg, ep, i, p.body)
    else if i in ep.closed then Effect(ep, [], true, None)
    else if i in ep.reqs then ReceiveData(cfg, ep, ep.reqs[i], p.flag, Wrap32(|p.body|), p.body)
    else ReceiveCall(cfg, ep, i, C.FromByte(p.flag), p.body)
  }

  // ---- user actions ----

  datatype UserOp =
    | Write(b: Bytes)                       // ByteSink.Write
    | CloseSink(err: Option<Error>)         // ByteSink.CloseWithError
    | SetEncoding(re: K.Encoding)
    | OnSource(op: S.Op)                    // anything but a packet arriving
    | ContextDone(cause: Error)             // the stream's context ends

  function SinkOp(cfg: Config, st: Stream, op: UserOp): K.Op
    requires op.Write? || op.CloseSink? || op.SetEncoding?
  {
    match op
    case Write(b) => K.Send(st.ctx, b, cfg.goes)
    case CloseSink(err) => K.End(err, Outcome(cfg))
    case SetEncoding(re) => K.Encode(re)
  }

  function UserStep(cfg: Config, st: Stream, op: UserOp): (Stream, seq<Packet>) {
    match op
    case OnSource(sop) =>
      if sop.Arrive? || |st.src.buf.lenBuf| != 4 then (st, [])
      else
        var (src, _, data) := S.Step(st.src, sop);
        (st.(src := src, taken := if data.Some? then st.taken + 1 else st.taken), [])
    case ContextDone(e) => (if st.ctx.None? then st.(ctx := Some(e)) else st, [])
    case _ =>
      var (snk, out) := K.Step(cfg.json, st.snk, SinkOp(cfg, st, op));
      (st.(snk := snk, sent := if op.Write? && out != [] then st.sent + [op.b] else st.sent,
           said := Or(st.said, FirstEnd(out))), out)
  }

  /** The call types that the client functions set. */
  predicate ClientType(typ: string) { typ == "async" || typ == "source" || typ == "sink" || typ == "duplex" }

  predicate StreamType(typ: string) { typ == "source" || typ == "sink" || typ == "duplex" }

  function OpeningFlag(typ: string): C.Flag {
    if StreamType(typ) then C.Set(C.FLAG_JSON, C.FLAG_STREAM) else C.FLAG_JSON
  }

  function Opening(j: K.Json, k: int32, call: K.Call): Packet {
    C.Packet(C.ToByte(OpeningFlag(call.typ)), k, j.encCall(call))
  }

  function ClientFlag(typ: string, re: K.Encoding): C.Flag {
    if typ == "sink" || typ == "duplex" then C.Set(K.EncodingFlag(re), C.FLAG_STREAM) else K.EncodingFlag(re)
  }

  datatype Act =
    | Allocate(call: K.Call, re: K.Encoding, abortable: bool)   // start, under the lock
    | Open(k: int32)                                            // start, WritePacket
    | User(k: int32, op: UserOp)
    | Forget(k: int32)                                          // the table part of a user's closeStream

  /** Actions that are not possible in a state leave it alone. */
  function ActStep(cfg: Config, ep: Endpoint, act: Act): (Endpoint, seq<Packet>) {
    match act
    case Allocate(call, re, abortable) =>
      if ep.highest == MAX_INT32 || ep.highest < 0 || !ClientType(call.typ) then (ep, [])
      else
        var k := ep.highest + 1;
        var st := NewStream(k, ClientFlag(call.typ, re), abortable);
        (ep.(highest := k, reqs := ep.reqs[k := st], pending := ep.pending[k := call]), [])
    case Open(k) =>
      if k !in ep.pending || !cfg.goes || !C.Fits(Opening(cfg.json, k, ep.pending[k])) then (ep, [])
      else (ep.(pending := ep.pending - {k}), [Opening(cfg.json, k, ep.pending[k])])
    case User(k, op) =>
      if k in ep.pending then (ep, [])
      else if k in ep.reqs then
        var (st, out) := UserStep(cfg, ep.reqs[k], op);
        (ep.(reqs := ep.reqs[k := st]), out)
      else if k in ep.retired then
        var (st, out) := UserStep(cfg, ep.retired[k], op);
        (ep.(retired := ep.retired[k := st]), out)
      else (ep, [])
    case Forget(k) =>
      if k in ep.pending || k !in ep.reqs then (ep, [])
      else (Retire(ep, ep.reqs[k]), [])
  }

  // ---- Terminate ----

  /** What Terminate does to the parts of an active request. Cancelling the session ends the contexts
      that were derived from it: those of incoming calls and of the manifest request. */
  function TerminateParts(cfg: Config, st: Stream): (Stream, seq<Packet>) {
    CloseWith(cfg, st, Some(SessionTerminated), st.id < 0 || !st.abortable)
  }

  /** The same for the request `k`, if `taken` are the ids whose packets the connection takes. */
  function TerminateOf(cfg: Config, ep: Endpoint, k: int32, taken: set<int32>): (Stream, seq<Packet>)
    requires k in ep.reqs
  {
    TerminateParts(cfg.(goes := k in taken), ep.reqs[k])
  }

  /** The tables once the requests under `ks` are terminated. */
  function Terminated(cfg: Config, ep: Endpoint, ks: set<int32>, taken: set<int32>): Endpoint
    requires ks <= ep.reqs.Keys
  {
    ep.(reqs := ep.reqs - ks, closed := ep.closed + ks,
        retired := ep.retired + map k | k in ks :: TerminateOf(cfg, ep, k, taken).0)
  }

  function Ids(order: seq<int32>): set<int32> { set k | k in order }

  /** The end packets that Terminate writes when it visits the requests in this order. */
  function Farewells(cfg: Config, ep: Endpoint, order: seq<int32>, taken: set<int32>): seq<Packet>
    requires Ids(order) <= ep.reqs.Keys
  {
    if order == [] then []
    else Farewells(cfg, ep, order[..|order| - 1], taken) + TerminateOf(cfg, ep, order[|order| - 1], taken).1
  }

  // ---- what every step keeps ----

  ghost predicate StreamInv(st: Stream) {
    K.SaneSink(st.snk) && st.snk.req == st.id && S.Holding(st.src, st.got, st.taken)
  }

  predicate DistinctIds(s: seq<int32>) { forall i, j | 0 <= i < j < |s| :: s[i] != s[j] }

  ghost predicate Inv(ep: Endpoint) {
    && ep.reqs.Keys !! ep.closed
    && (forall k | k in ep.reqs :: ep.reqs[k].id == k && StreamInv(ep.reqs[k]))
    && (forall k | k in ep.retired :: k in ep.closed && ep.retired[k].id == k && StreamInv(ep.retired[k]))
    && 0 <= ep.highest
    && (forall k | k in Known(ep) :: k != 0 && k <= ep.highest)
    && (forall k | k in ep.pending :: 0 < k && k in Known(ep) && ClientType(ep.pending[k].typ))
    && DistinctIds(ep.calls)
    && (forall k | k in ep.calls :: k < 0 && k in Known(ep))
  }

  lemma NewStreamInv(id: int32, flag: C.Flag, abortable: bool)
    requires id != 0 && !flag.endErr
    ensures StreamInv(NewStream(id, flag, abortable))
  {
    hide S.Holding;
    S.FreshHolding();
  }

  lemma CloseSinkFacts(cfg: Config, st: Stream, err: Option<Error>)
    requires StreamInv(st)
    ensures var (st', out) := CloseSinkOf(cfg, st, err);
            && StreamInv(st') && st' == st.(snk := st'.snk, said := Or(st.said, FirstEnd(out)))
            && st'.ended == (st.ended || out != [])
            && |out| <= 1 && (forall p | p in out :: p.req == st.id && K.IsEnd(p) && C.Sendable(p))
            && (K.Faithful(cfg.json) ==> forall p | p in out :: K.Decodable(cfg.json, p))
            && (!K.CleanClose(err) || !cfg.goes ==> st'.snk.closed.Some?)
            && (st.snk.closed.Some? ==> st' == st && out == [])
  {
    hide S.Holding, K.IsEnd, K.Decodable, K.Faithful, K.EndErr, K.EndOkay;
    K.CloseFacts(cfg.json, st.snk, err, Outcome(cfg));
  }

  lemma CloseWithFacts(cfg: Config, st: Stream, err: Option<Error>, abort: bool)
    requires StreamInv(st)
    ensures var (st', out) := CloseWith(cfg, st, err, abort);
            && StreamInv(st') && st'.id == st.id && st'.got == st.got && st'.sent == st.sent
            && st'.taken == st.taken && st'.src == S.Cancel(st.src, err) && st'.src.failed.Some?
            && st'.ended == (st.ended || out != []) && st'.said == Or(st.said, FirstEnd(out))
            && |out| <= 1 && (forall p | p in out :: p.req == st.id && K.IsEnd(p) && C.Sendable(p))
            && (K.Faithful(cfg.json) ==> forall p | p in out :: K.Decodable(cfg.json, p))
            && (!K.CleanClose(err) || !cfg.goes ==> st'.snk.closed.Some?)
  {
    hide S.Holding, CloseSinkOf, K.IsEnd, K.Decodable, K.Faithful, S.Cancel;
    CloseSinkFacts(cfg, st, err);
    S.CancelHolding(st.src, st.got, st.taken, err);
  }

  lemma ClosePartsFacts(cfg: Config, st: Stream, err: Option<Error>)
    requires StreamInv(st)
    ensures var (st', out) := CloseParts(cfg, st, err);
            && StreamInv(st') && st'.id == st.id && st'.got == st.got && st'.sent == st.sent
            && st'.taken == st.taken && st'.src.failed.Some? && st'.ended == (st.ended || out != [])
            && st'.said == Or(st.said, FirstEnd(out))
            && |out| <= 1 && (forall p | p in out :: p.req == st.id && K.IsEnd(p) && C.Sendable(p))
            && (K.Faithful(cfg.json) ==> forall p | p in out :: K.Decodable(cfg.json, p))
  {
    hide StreamInv, CloseWith, K.IsEnd, K.Decodable, K.Faithful, S.Cancel;
    CloseWithFacts(cfg, st, err, st.abortable);
  }

  lemma UserStepFacts(cfg: Config, st: Stream, op: UserOp)
    requires StreamInv(st)
    ensures var (st', out) := UserStep(cfg, st, op);
            && StreamInv(st') && st'.id == st.id && st'.got == st.got
            && (st.src.failed.Some? ==> st'.src.failed.Some?)
            && |out| <= 1 && (forall p | p in out :: p.req == st.id && C.Sendable(p))
            && (K.Faithful(cfg.json) ==> forall p | p in out :: K.Decodable(cfg.json, p))
            && st'.sent == st.sent + DataBodies(out)
            && st'.ended == (st.ended || HasEnd(out)) && st'.said == Or(st.said, FirstEnd(out))
  {
    hide S.Holding, S.Step, K.Step, K.IsEnd, K.Decodable, K.Faithful;
    match op {
      case OnSource(sop) =>
        S.HoldingLenBuf(st.src, st.got, st.taken);
        S.StepHolding(st.src, st.got, st.taken, sop);
        if !sop.Arrive? {
          NothingAccepted(st.src, sop);
        }
      case ContextDone(e) =>
      case _ =>
        K.StepFacts(cfg.json, st.snk, SinkOp(cfg, st, op));
        DataBodiesShort(K.Step(cfg.json, st.snk, SinkOp(cfg, st, op)).1);
        assert st.sent + [] == st.sent;
    }
  }

  /** There is an end packet among these. */
  predicate HasEnd(ps: seq<Packet>) { exists p :: p in ps && K.IsEnd(p) }

  lemma DataBodiesShort(ps: seq<Packet>)
    requires |ps| <= 1
    ensures DataBodies(ps) == if ps == [] || K.IsEnd(ps[0]) then [] else [ps[0].body]
    ensures ps == [] || ps == [ps[0]]
    ensures HasEnd(ps) <==> FirstEnd(ps).Some?
  {
    hide K.IsEnd;
    if ps != [] {
      assert ps[1..] == [] && FirstEnd(ps[1..]) == None;
      assert ps[0] in ps;
    }
  }

  lemma NothingAccepted(s: S.Source, op: S.Op)
    requires |s.buf.lenBuf| == 4 && !op.Arrive?
    ensures S.Step(s, op).1.None?
  {
  }

  /** The bodies of the packets that are not end packets. */
  function DataBodies(ps: seq<Packet>): seq<Bytes> {
    if ps == [] then []
    else (if K.IsEnd(ps[0]) then [] else [ps[0].body]) + DataBodies(ps[1..])
  }

  lemma {:induction false} DataBodiesAppend(a: seq<Packet>, b: seq<Packet>)
    ensures DataBodies(a + b) == DataBodies(a) + DataBodies(b)
  {
    hide K.IsEnd;
    if a == [] {
      assert a + b == b;
    } else {
      assert (a + b)[1..] == a[1..] + b;
      DataBodiesAppend(a[1..], b);
    }
  }

  lemma {:induction false} NoData(a: seq<Packet>)
    requires forall p | p in a :: K.IsEnd(p)
    ensures DataBodies(a) == []
  {
    hide K.IsEnd;
    if a != [] {
      NoData(a[1..]);
    }
  }

  /** How the tables look after a step that touched the entry `i` only. */
  lemma RetireInv(ep: Endpoint, st: Stream)
    requires Inv(ep) && st.id in ep.reqs && StreamInv(st)
    ensures Inv(Retire(ep, st)) && Known(Retire(ep, st)) == Known(ep)
  {
    hide StreamInv;
  }

  lemma UpdateInv(ep: Endpoint, st: Stream)
    requires Inv(ep) && st.id in ep.reqs && StreamInv(st)
    ensures Inv(ep.(reqs := ep.reqs[st.id := st]))
    ensures Known(ep.(reqs := ep.reqs[st.id := st])) == Known(ep)
  {
    hide StreamInv;
  }

  lemma CloseStreamFacts(cfg: Config, ep: Endpoint, st: Stream, err: Option<Error>, drained: bool)
    requires Inv(ep) && st.id in ep.reqs && StreamInv(st)
    ensures var fx := CloseStream(cfg, ep, st, err, drained);
            && Inv(fx.ep) && Known(fx.ep) == Known(ep) && fx.ep.reqs == ep.reqs - {st.id}
            && fx.ep.closed == ep.closed + {st.id}
            && |fx.out| <= 1 && (forall p | p in fx.out :: p.req == st.id && K.IsEnd(p) && C.Sendable(p))
            && fx.fatal.None? && fx.drained == drained
  {
    hide StreamInv, Inv, CloseParts;
    ClosePartsFacts(cfg, st, err);
    var (st', out) := CloseParts(cfg, st, err);
    RetireInv(ep, st');
  }

  lemma ConsumeFacts(st: Stream, flag: byte, body: Bytes)
    requires StreamInv(st) && |body| <= C.MAX_BUFFER_SIZE
    ensures var (src, err) := S.Consume(st.src, Wrap32(|body|), flag, F.Body(body, false));
            && (err.None? <==> st.src.failed.None?)
            && (err.None? ==> src.failed.None? && StreamInv(st.(src := src, got := st.got + [body])))
            && (err.Some? ==> src == st.src && err == Some(SourceCanceled(st.src.failed.value)))
  {
    hide S.Holding, F.CopyBody;
    S.DeliverHolding(st.src, st.got, st.taken, |body|, flag, F.Body(body, false));
  }

  /** What one serve iteration does, whatever packet arrives. */
  ghost predicate ReceiveKeeps(ep: Endpoint, i: int32, fx: Effect) {
    && Inv(fx.ep)
    && ep.closed <= fx.ep.closed && Known(ep) <= Known(fx.ep) <= Known(ep) + {i}
    && fx.ep.highest == ep.highest && fx.ep.pending == ep.pending
    && fx.ep.retired.Keys <= ep.retired.Keys + (if i in ep.reqs then {i} else {})
    && |fx.out| <= 1 && (forall p | p in fx.out :: p.req == i && K.IsEnd(p) && C.Fits(p))
    && (fx.ep.calls == ep.calls || (fx.ep.calls == ep.calls + [i] && i !in Known(ep)))
  }

  lemma CloseStreamKeeps(cfg: Config, ep: Endpoint, st: Stream, err: Option<Error>, drained: bool)
    requires Inv(ep) && st.id in ep.reqs && StreamInv(st)
    ensures ReceiveKeeps(ep, st.id, CloseStream(cfg, ep, st, err, drained))
  {
    hide StreamInv, CloseStream, K.IsEnd, Inv;
    CloseStreamFacts(cfg, ep, st, err, drained);
    CloseStreamCalls(cfg, ep, st, err, drained);
  }

  lemma ReceiveEndKeeps(cfg: Config, ep: Endpoint, i: int32, body: Bytes)
    requires Inv(ep)
    ensures ReceiveKeeps(ep, i, ReceiveEnd(cfg, ep, i, body))
  {
    hide CloseStream, K.IsEnd, Inv, ReceiveKeeps;
    if i in ep.reqs {
      IdOf(ep, i);
      CloseStreamKeeps(cfg, ep, ep.reqs[i], None, true);
      var e := cfg.json.decErr(body);
      if e.Some? {
        CloseStreamKeeps(cfg, ep, ep.reqs[i], Some(CallError(e.value.0, e.value.1)), true);
      }
    }
    SameKeeps(ep, i);
  }

  lemma IdOf(ep: Endpoint, i: int32)
    requires Inv(ep) && i in ep.reqs
    ensures ep.reqs[i].id == i && StreamInv(ep.reqs[i])
  {
    hide StreamInv;
  }

  lemma StreamLenBuf(st: Stream)
    requires StreamInv(st)
    ensures |st.src.buf.lenBuf| == 4
  {
    hide S.Holding;
    S.HoldingLenBuf(st.src, st.got, st.taken);
  }

  lemma SameKeeps(ep: Endpoint, i: int32)
    requires Inv(ep)
    ensures forall d, e ::
              && ReceiveKeeps(ep, i, Effect(ep, [], d, e))
              && ReceiveKeeps(ep, i, Effect(ep.(serving := false), [], d, e))
  {
    hide Inv;
    NotServingInv(ep);
  }

  lemma CloseStreamCalls(cfg: Config, ep: Endpoint, st: Stream, err: Option<Error>, drained: bool)
    ensures var fx := CloseStream(cfg, ep, st, err, drained);
            && fx.ep.calls == ep.calls && fx.ep.highest == ep.highest && fx.ep.pending == ep.pending
            && fx.ep.serving == ep.serving
            && fx.ep.retired == ep.retired[st.id := CloseParts(cfg, st, err).0]
            && fx.out == CloseParts(cfg, st, err).1
  {
    hide K.Close, S.Cancel;
  }

  lemma ReceiveDataKeeps(cfg: Config, ep: Endpoint, i: int32, flag: byte, body: Bytes)
    requires Inv(ep) && i in ep.reqs && |body| <= C.MAX_BUFFER_SIZE
    ensures ReceiveKeeps(ep, i, ReceiveData(cfg, ep, ep.reqs[i], flag, Wrap32(|body|), body))
  {
    hide StreamInv, CloseStream, K.IsEnd, S.Consume;
    var st := ep.reqs[i];
    ConsumeFacts(st, flag, body);
    var (src, err) := S.Consume(st.src, Wrap32(|body|), flag, F.Body(body, false));
    if err.None? {
      UpdateInv(ep, st.(src := src, got := st.got + [body]));
    } else {
      assert st.(src := src) == st;
      CloseStreamFacts(cfg, ep, st, err, st.src.failed.None?);
      CloseStreamCalls(cfg, ep, st, err, st.src.failed.None?);
    }
  }

  lemma DistinctSnoc(s: seq<int32>, x: int32)
    requires DistinctIds(s) && x !in s
    ensures DistinctIds(s + [x])
  {
  }

  lemma AcceptInv(ep: Endpoint, st: Stream)
    requires Inv(ep) && st.id !in Known(ep) && st.id < 0 && StreamInv(st)
    ensures Inv(ep.(reqs := ep.reqs[st.id := st], calls := ep.calls + [st.id]))
  {
    hide StreamInv;
    DistinctSnoc(ep.calls, st.id);
  }

  lemma RejectInv(ep: Endpoint, i: int32)
    requires Inv(ep) && i !in Known(ep) && i < 0
    ensures Inv(ep.(closed := ep.closed + {i}))
  {
    hide StreamInv;
  }

  lemma AcceptKeeps(ep: Endpoint, i: int32, flag: C.Flag)
    requires Inv(ep) && i !in Known(ep) && i < 0 && !flag.endErr
    ensures ReceiveKeeps(ep, i, Effect(ep.(reqs := ep.reqs[i := NewStream(i, flag, true)], calls := ep.calls + [i]),
                                       [], true, None))
  {
    hide StreamInv, NewStream, Inv;
    NewStreamInv(i, flag, true);
    NewStreamId(i, flag, true);
    AcceptInv(ep, NewStream(i, flag, true));
  }

  lemma RejectKeeps(cfg: Config, ep: Endpoint, i: int32, stream: bool, err: Error)
    requires Inv(ep) && i !in Known(ep) && i < 0 && C.Fits(K.EndErr(cfg.json, i, stream, err))
    ensures ReceiveKeeps(ep, i, Effect(ep.(closed := ep.closed + {i}), [K.EndErr(cfg.json, i, stream, err)],
                                       true, None))
  {
    hide StreamInv, K.IsEnd, K.EndErr, K.EndOkay, K.Decodable, K.Faithful, Inv;
    RejectInv(ep, i);
    K.EndsAreEnds(cfg.json, i, stream, err);
    K.EndFields(cfg.json, i, stream, err);
  }

  lemma ReceiveCallKeeps(cfg: Config, ep: Endpoint, i: int32, flag: C.Flag, body: Bytes)
    requires Inv(ep) && i !in Known(ep)
    ensures ReceiveKeeps(ep, i, ReceiveCall(cfg, ep, i, flag, body))
  {
    hide ReceiveKeeps, K.EndErr, Inv, NewStream, WellTyped;
    SameKeeps(ep, i);
    if i < 0 {
      AcceptKeeps(ep, i, C.FLAG_STREAM);
      AcceptKeeps(ep, i, C.NO_FLAGS);
      var call, stream := cfg.json.decCall(body), C.Get(flag, C.FLAG_STREAM);
      if call.Some? && C.Fits(K.EndErr(cfg.json, i, stream, NoSuchMethod(call.value.path))) {
        RejectKeeps(cfg, ep, i, stream, NoSuchMethod(call.value.path));
      }
    }
  }

  lemma NotServingInv(ep: Endpoint)
    requires Inv(ep)
    ensures Inv(ep.(serving := false))
  {
    hide StreamInv;
  }

  /** The serve loop keeps the tables in order on any input, also from a peer that breaks the rules. */
  lemma ReceiveInv(cfg: Config, ep: Endpoint, p: Packet)
    requires Inv(ep) && C.Fits(p)
    ensures ReceiveKeeps(ep, Neg32(p.req), Receive(cfg, ep, p))
  {
    hide ReceiveEnd, ReceiveData, ReceiveCall, StreamInv, K.IsEnd;
    var i := Neg32(p.req);
    if K.IsEnd(p) {
      ReceiveEndKeeps(cfg, ep, i, p.body);
    } else if i in ep.closed {
    } else if i in ep.reqs {
      ReceiveDataKeeps(cfg, ep, i, p.flag, p.body);
    } else {
      ReceiveCallKeeps(cfg, ep, i, C.FromByte(p.flag), p.body);
    }
  }

  /** What a user action does, whatever it is. */
  ghost predicate ActKeeps(ep: Endpoint, ep': Endpoint, out: seq<Packet>) {
    && Inv(ep') && ep.closed <= ep'.closed && Known(ep) <= Known(ep')
    && (forall k | k in Known(ep') - Known(ep) :: k > ep.highest)
    && ep'.calls == ep.calls && ep'.serving == ep.serving
    && ep'.retired.Keys <= ep.retired.Keys + ep.reqs.Keys
    && (forall p | p in out :: p.req in ep.pending || p.req in ep.reqs || p.req in ep.retired)
  }

  lemma AllocateKeeps(ep: Endpoint, st: Stream, call: K.Call)
    requires Inv(ep) && ep.highest < MAX_INT32 && st.id == ep.highest + 1 && StreamInv(st) && ClientType(call.typ)
    ensures ActKeeps(ep, ep.(highest := st.id, reqs := ep.reqs[st.id := st], pending := ep.pending[st.id := call]), [])
  {
    hide StreamInv;
  }

  lemma OpenKeeps(j: K.Json, ep: Endpoint, k: int32)
    requires Inv(ep) && k in ep.pending
    ensures ActKeeps(ep, ep.(pending := ep.pending - {k}), [Opening(j, k, ep.pending[k])])
  {
    hide StreamInv, Opening;
    OpeningReq(j, k, ep.pending[k]);
  }

  lemma RetiredKeeps(ep: Endpoint, st: Stream)
    requires Inv(ep) && st.id in ep.retired && StreamInv(st)
    ensures Inv(ep.(retired := ep.retired[st.id := st]))
  {
    hide StreamInv;
  }

  lemma ActInv(cfg: Config, ep: Endpoint, act: Act)
    requires Inv(ep)
    ensures var (ep', out) := ActStep(cfg, ep, act); ActKeeps(ep, ep', out)
  {
    hide StreamInv, UserStep, Opening, ClientFlag, NewStream, ClientType;
    match act {
      case Allocate(call, re, abortable) =>
        if ep.highest < MAX_INT32 && ClientType(call.typ) {
          EncodingNotEnd(call.typ, re);
          NewStreamInv(ep.highest + 1, ClientFlag(call.typ, re), abortable);
          NewStreamId(ep.highest + 1, ClientFlag(call.typ, re), abortable);
          AllocateKeeps(ep, NewStream(ep.highest + 1, ClientFlag(call.typ, re), abortable), call);
        }
      case Open(k) =>
        if k in ep.pending {
          OpenKeeps(cfg.json, ep, k);
        }
      case User(k, op) =>
        if k in ep.pending {
        } else if k in ep.reqs {
          UserStepFacts(cfg, ep.reqs[k], op);
          UpdateInv(ep, UserStep(cfg, ep.reqs[k], op).0);
        } else if k in ep.retired {
          UserStepFacts(cfg, ep.retired[k], op);
          RetiredKeeps(ep, UserStep(cfg, ep.retired[k], op).0);
        }
      case Forget(k) =>
        if k in ep.reqs {
          RetireInv(ep, ep.reqs[k]);
        }
    }
  }

  lemma NewStreamId(id: int32, flag: C.Flag, abortable: bool)
    ensures NewStream(id, flag, abortable).id == id
  {
  }

  lemma EncodingNotEnd(typ: string, re: K.Encoding)
    ensures !ClientFlag(typ, re).endErr
  {
  }

  lemma OpeningReq(j: K.Json, k: int32, call: K.Call)
    ensures Opening(j, k, call).req == k
  {
  }

  // ---- whole sessions, against any peer ----

  /** `Quit` is Terminate, with the order in which its loop visits the requests and the ids whose end
      packets the connection takes. */
  datatype Event = In(p: Packet) | Do(act: Act) | Quit(order: seq<int32>, taken: set<int32>)

  /** Packets are only received while the serve loop runs, and no packet is larger than its length
      field can say. Terminate visits every request once and closes the connection. */
  function Step(cfg: Config, ep: Endpoint, ev: Event): (Endpoint, seq<Packet>) {
    match ev
    case In(p) =>
      if !ep.serving || !C.Fits(p) then (ep, []) else var fx := Receive(cfg, ep, p); (fx.ep, fx.out)
    case Do(act) => ActStep(cfg, ep, act)
    case Quit(order, taken) =>
      if Ids(order) != ep.reqs.Keys || !DistinctIds(order) then (ep, [])
      else (Terminated(cfg, ep, ep.reqs.Keys, taken).(serving := false), Farewells(cfg, ep, order, taken))
  }

  function Run(cfg: Config, ep: Endpoint, evs: seq<Event>): (Endpoint, seq<Packet>)
    decreases |evs|
  {
    if evs == [] then (ep, [])
    else
      var (ep1, out) := Step(cfg, ep, evs[0]);
      var (ep2, more) := Run(cfg, ep1, evs[1..]);
      (ep2, out + more)
  }

  lemma StepInv(cfg: Config, ep: Endpoint, ev: Event)
    requires Inv(ep)
    ensures var ep' := Step(cfg, ep, ev).0;
            Inv(ep') && ep.closed <= ep'.closed && Known(ep) <= Known(ep') && ep.calls <= ep'.calls
  {
    hide Receive, ActStep, Inv, TerminateParts;
    match ev {
      case In(p) =>
        if ep.serving && C.Fits(p) {
          ReceiveInv(cfg, ep, p);
        }
      case Do(act) => ActInv(cfg, ep, act);
      case Quit(order, taken) =>
        TerminateInv(cfg, ep, taken);
        NotServingInv(Terminated(cfg, ep, ep.reqs.Keys, taken));
    }
  }

  /** The life of ids over every session, with any peer and any users, past Terminate as well: the
      tables stay disjoint, an entry is filed under its own id, 0 is never an id, positive ids were
      allocated, and ids never leave the tables. HandleCall is started at most once per id: `calls` has
      no duplicates, now or later, and no id is reopened. */
  lemma {:induction false} IdLifecycle(cfg: Config, ep: Endpoint, evs: seq<Event>)
    requires Inv(ep)
    ensures var ep' := Run(cfg, ep, evs).0;
            && Inv(ep') && ep.closed <= ep'.closed && Known(ep) <= Known(ep') && ep.calls <= ep'.calls
            && (forall k | k in ep.closed :: k !in ep'.reqs)
    decreases |evs|
  {
    hide Step, StreamInv;
    if evs != [] {
      StepInv(cfg, ep, evs[0]);
      IdLifecycle(cfg, Step(cfg, ep, evs[0]).0, evs[1..]);
    }
  }

  lemma StartInv()
    ensures Inv(START)
  {
  }

  // ---- what an iteration does, packet by packet ----

  /** `st` is closed with `err` and becomes `st'`: the source fails, unless it has already; the sink sends one
      end packet, unless it is closed, the packet is too large or the connection refuses it, and remembers
      an error; the context ends if `abort`; and what was accepted, taken and written stays. */
  ghost predicate Closes(cfg: Config, st: Stream, err: Option<Error>, abort: bool, st': Stream, out: seq<Packet>) {
    var clean := err == None || err == Some(EOF);
    var body := if clean then [116, 114, 117, 101] else cfg.json.encErr(K.Text(err.value));
    var fits := |body| <= 0xFFFF_FFFF;
    var goes := st.snk.closed.None? && fits && cfg.goes;
    && out == (if goes then [C.Packet(if st.snk.flag.stream then 14 else 6, st.snk.req, body)] else [])
    && st'.id == st.id && st'.abortable == st.abortable
    && st'.got == st.got && st'.taken == st.taken && st'.sent == st.sent
    && st'.said == (if st.said.Some? then st.said else if goes then Some(body) else None)
    && st'.src == (if st.src.failed.Some? then st.src
                   else st.src.(failed := if clean then Some(EOF) else err, closings := st.src.closings + 1))
    && st'.snk == (if st.snk.closed.Some? then st.snk
                   else st.snk.(closed := if !fits then Some(TooLarge) else if !cfg.goes then Some(WriteFailed)
                                          else if clean then None else err))
    && st'.ctx == (if st.ctx.None? && abort then Some(Canceled) else st.ctx)
  }

  /** The stream `i` goes from the active ones to the closed ones and becomes `st`. */
  ghost predicate Retires(ep: Endpoint, i: int32, st: Stream, ep': Endpoint) {
    ep' == ep.(reqs := ep.reqs - {i}, closed := ep.closed + {i}, retired := ep.retired[i := st])
  }

  lemma CloseSinkExactly(cfg: Config, st: Stream, err: Option<Error>)
    ensures var (st', out) := CloseSinkOf(cfg, st, err);
            Closes(cfg, st, err, false, st'.(src := S.Cancel(st.src, err)), out)
  {
    hide K.Text, K.Close, K.IsEnd, K.EndErr, K.EndOkay, C.ToByte, C.FromByte;
    K.CloseExactly(cfg.json, st.snk, err, Outcome(cfg));
    var (snk, _, p) := K.Close(cfg.json, st.snk, err, Outcome(cfg));
    if p.Some? {
      assert [p.value][1..] == [];
      EndBitExactly(p.value);
    }
  }

  lemma CloseWithExactly(cfg: Config, st: Stream, err: Option<Error>, abort: bool)
    ensures var (st', out) := CloseWith(cfg, st, err, abort); Closes(cfg, st, err, abort, st', out)
  {
    hide S.Cancel, CloseSinkOf, K.Text;
    CloseSinkExactly(cfg, st, err);
    CloseAfterCancel(cfg, st, err, err);
  }

  lemma CloseStreamExactly(cfg: Config, ep: Endpoint, i: int32, err: Option<Error>, drained: bool)
    requires Inv(ep) && i in ep.reqs
    ensures var fx := CloseStream(cfg, ep, ep.reqs[i], err, drained);
            && fx.drained == drained && fx.fatal == None && i in fx.ep.retired
            && Retires(ep, i, fx.ep.retired[i], fx.ep)
            && Closes(cfg, ep.reqs[i], err, ep.reqs[i].abortable, fx.ep.retired[i], fx.out)
  {
    hide Inv, StreamInv, CloseWith, Closes;
    IdOf(ep, i);
    var st := ep.reqs[i];
    CloseWithExactly(cfg, st, err, st.abortable);
    ClosePartsId(cfg, st, err);
  }

  lemma ClosePartsId(cfg: Config, st: Stream, err: Option<Error>)
    ensures CloseParts(cfg, st, err).0.id == st.id
  {
    hide K.Close, S.Cancel;
  }

  /** The bit of the flag byte that makes an end packet. */
  predicate EndBit(p: Packet) { p.flag / 4 % 2 == 1 }

  lemma EndBitExactly(p: Packet)
    ensures K.IsEnd(p) <==> EndBit(p)
  {
    hide C.FromByte;
    C.ByteBits(p.flag);
  }

  /** An end packet for an active stream closes it, whether or not its own user has failed the source: as a
      regular end on `true`, with the error that the body spells otherwise; a body that spells neither
      ends the serve loop. */
  lemma EndAnswers(cfg: Config, ep: Endpoint, p: Packet)
    requires Inv(ep) && EndBit(p) && Neg32(p.req) in ep.reqs
    ensures var i := Neg32(p.req);
            var st, fx, e := ep.reqs[i], Receive(cfg, ep, p), cfg.json.decErr(p.body);
            var okay := p.body == [116, 114, 117, 101];
            if okay || e.Some? then
              && fx.drained && fx.fatal == None && i in fx.ep.retired && Retires(ep, i, fx.ep.retired[i], fx.ep)
              && Closes(cfg, st, if okay then None else Some(CallError(e.value.0, e.value.1)), st.abortable,
                        fx.ep.retired[i], fx.out)
            else fx == Effect(ep.(serving := false), [], true, Some(BadRequest))
  {
    hide Inv, CloseStream, Closes, K.IsEnd, EndBit, Retires;
    EndBitExactly(p);
    var i, e := Neg32(p.req), cfg.json.decErr(p.body);
    CloseStreamExactly(cfg, ep, i, None, true);
    if e.Some? {
      CloseStreamExactly(cfg, ep, i, Some(CallError(e.value.0, e.value.1)), true);
    }
  }

  /** Data for an active stream whose source has failed closes the stream as well: the peer gets the error
      that the source was cancelled with, unless the sink here is closed. The body stays unread. */
  lemma FailedDataAnswers(cfg: Config, ep: Endpoint, p: Packet)
    requires Inv(ep) && C.Fits(p) && !EndBit(p)
    requires Neg32(p.req) in ep.reqs && ep.reqs[Neg32(p.req)].src.failed.Some?
    ensures var i := Neg32(p.req);
            var st, fx := ep.reqs[i], Receive(cfg, ep, p);
            && !fx.drained && fx.fatal == None && i in fx.ep.retired && Retires(ep, i, fx.ep.retired[i], fx.ep)
            && Closes(cfg, st, Some(SourceCanceled(st.src.failed.value)), st.abortable, fx.ep.retired[i], fx.out)
  {
    hide Inv, CloseStream, Closes, K.IsEnd, EndBit, Retires, S.Consume, StreamInv;
    EndBitExactly(p);
    var i := Neg32(p.req);
    var st := ep.reqs[i];
    IdOf(ep, i);
    ActiveOpen(ep, i);
    ConsumeFacts(st, p.flag, p.body);
    var src := S.Consume(st.src, Wrap32(|p.body|), p.flag, F.Body(p.body, false)).0;
    assert st.(src := src) == st;
    CloseStreamExactly(cfg, ep, i, Some(SourceCanceled(st.src.failed.value)), false);
  }

  lemma ActiveOpen(ep: Endpoint, i: int32)
    requires Inv(ep) && i in ep.reqs
    ensures i !in ep.closed
  {
    hide StreamInv;
  }

  /** Data for an active stream that accepts: the body is the next one accepted, and nothing else changes. */
  lemma DataAccepted(cfg: Config, ep: Endpoint, p: Packet)
    requires Inv(ep) && C.Fits(p) && !EndBit(p)
    requires Neg32(p.req) in ep.reqs && ep.reqs[Neg32(p.req)].src.failed.None?
    ensures var i := Neg32(p.req);
            var st, fx := ep.reqs[i], Receive(cfg, ep, p);
            && i in fx.ep.reqs && var src := fx.ep.reqs[i].src;
               && fx == Effect(ep.(reqs := ep.reqs[i := st.(src := src, got := st.got + [p.body])]), [], true, None)
               && src == S.Source(src.buf, None, st.src.closings, p.flag)
               && S.Holding(src, st.got + [p.body], st.taken)
  {
    hide Inv, K.IsEnd, EndBit, F.CopyBody, S.Holding, K.SaneSink;
    EndBitExactly(p);
    var i := Neg32(p.req);
    var st := ep.reqs[i];
    IdOf(ep, i);
    ActiveOpen(ep, i);
    S.DeliverHolding(st.src, st.got, st.taken, |p.body|, p.flag, F.Body(p.body, false));
  }

  /** All other packets: nothing happens for a closed id, nor on an end packet for an unknown one, whose
      body stays unread; anything else for an unknown id is a call (see ReceiveOpening) or ends the loop. */
  lemma OtherPackets(cfg: Config, ep: Endpoint, p: Packet)
    requires Inv(ep) && Neg32(p.req) !in ep.reqs
    ensures var i := Neg32(p.req);
            var fx, call := Receive(cfg, ep, p), cfg.json.decCall(p.body);
            && (i in ep.closed ==> fx == Effect(ep, [], true, None))
            && (i !in ep.closed && EndBit(p) ==> fx == Effect(ep, [], false, None))
            && (i !in ep.closed && !EndBit(p) && !(call.Some? && CallPacket(cfg, p, call.value)) ==>
                  fx == Effect(ep.(serving := false), [], i < 0 && p.flag / 2 % 2 == 1, Some(BadRequest)))
  {
    hide Inv, K.IsEnd, EndBit, NewStream, K.EndErr;
    EndBitExactly(p);
    JsonBit(p);
  }

  lemma JsonBit(p: Packet)
    ensures C.Get(C.FromByte(p.flag), C.FLAG_JSON) <==> p.flag / 2 % 2 == 1
    ensures C.Get(C.FromByte(p.flag), C.FLAG_STREAM) <==> p.flag / 8 % 2 == 1
  {
    hide C.FromByte;
    C.ByteBits(p.flag);
  }

  // ---- the packets of one stream ----

  /** The packets of one stream, in order. */
  function Filter(ps: seq<Packet>, q: int32): seq<Packet> {
    if ps == [] then [] else (if ps[0].req == q then [ps[0]] else []) + Filter(ps[1..], q)
  }

  lemma {:induction false} FilterAppend(a: seq<Packet>, b: seq<Packet>, q: int32)
    ensures Filter(a + b, q) == Filter(a, q) + Filter(b, q)
  {
    if a == [] {
      assert a + b == b;
    } else {
      var first := if a[0].req == q then [a[0]] else [];
      assert (a + b)[0] == a[0] && (a + b)[1..] == a[1..] + b;
      FilterAppend(a[1..], b, q);
      assert Filter(a + b, q) == first + Filter(a[1..] + b, q);
      assert first + (Filter(a[1..], q) + Filter(b, q)) == (first + Filter(a[1..], q)) + Filter(b, q);
    }
  }

  lemma {:induction false} FilterAll(a: seq<Packet>, q: int32)
    requires forall p | p in a :: p.req == q
    ensures Filter(a, q) == a
  {
    if a != [] {
      FilterAll(a[1..], q);
      assert a == [a[0]] + a[1..];
    }
  }

  lemma {:induction false} FilterNone(a: seq<Packet>, q: int32)
    requires forall p | p in a :: p.req != q
    ensures Filter(a, q) == []
  {
    if a != [] {
      FilterNone(a[1..], q);
    }
  }

  // ---- Terminate, packet by packet ----

  lemma {:induction false} FarewellsOf(cfg: Config, ep: Endpoint, order: seq<int32>, taken: set<int32>, k: int32)
    requires Inv(ep) && DistinctIds(order) && Ids(order) <= ep.reqs.Keys && k in ep.reqs
    ensures Filter(Farewells(cfg, ep, order, taken), k) == if k in order then TerminateOf(cfg, ep, k, taken).1 else []
    decreases |order|
  {
    hide Inv, StreamInv, TerminateOf, K.IsEnd;
    if order != [] {
      var i := order[|order| - 1];
      var front := order[..|order| - 1];
      assert order == front + [i] && i in Ids(order);
      assert Ids(front) <= Ids(order);
      FarewellsOf(cfg, ep, front, taken, k);
      var out := TerminateOf(cfg, ep, i, taken).1;
      FilterAppend(Farewells(cfg, ep, front, taken), out, k);
      TerminateReqs(cfg, ep, i, taken);
      if i == k {
        FilterAll(out, k);
        assert k !in front;
        assert [] + out == out;
      } else {
        FilterNone(out, k);
        assert k in order <==> k in front;
      }
    }
  }

  lemma TerminateReqs(cfg: Config, ep: Endpoint, k: int32, taken: set<int32>)
    requires Inv(ep) && k in ep.reqs
    ensures forall p | p in TerminateOf(cfg, ep, k, taken).1 :: p.req == k
  {
    hide Inv, StreamInv, TerminateParts, K.IsEnd;
    IdOf(ep, k);
    TerminatePartsFacts(cfg.(goes := k in taken), ep.reqs[k]);
  }

  /** Terminate closes every active stream with its own error, and the end packets that it writes are those
      of these streams. The contexts that hang on the session end. */
  lemma TerminateTells(cfg: Config, ep: Endpoint, order: seq<int32>, taken: set<int32>)
    requires Inv(ep) && DistinctIds(order) && Ids(order) == ep.reqs.Keys
    ensures var ep' := Terminated(cfg, ep, ep.reqs.Keys, taken);
            && ep' == ep.(reqs := map[], closed := ep.closed + ep.reqs.Keys, retired := ep'.retired)
            && ep'.retired.Keys == ep.retired.Keys + ep.reqs.Keys
            && (forall k | k in ep.retired :: ep'.retired[k] == ep.retired[k])
            && (forall k | k in ep.reqs ::
                  Closes(cfg.(goes := k in taken), ep.reqs[k], Some(SessionTerminated), k < 0 || !ep.reqs[k].abortable,
                         ep'.retired[k], Filter(Farewells(cfg, ep, order, taken), k)))
  {
    hide Inv, StreamInv, CloseWith, Closes, Farewells;
    var ep' := Terminated(cfg, ep, ep.reqs.Keys, taken);
    assert ep'.reqs == map[] by { assert ep'.reqs.Keys == {}; }
    forall k | k in ep.reqs
      ensures Closes(cfg.(goes := k in taken), ep.reqs[k], Some(SessionTerminated), k < 0 || !ep.reqs[k].abortable,
                     ep'.retired[k], Filter(Farewells(cfg, ep, order, taken), k))
    {
      IdOf(ep, k);
      assert k in order by { assert k in Ids(order); }
      FarewellsOf(cfg, ep, order, taken, k);
      CloseWithExactly(cfg.(goes := k in taken), ep.reqs[k], Some(SessionTerminated), k < 0 || !ep.reqs[k].abortable);
    }
    forall k | k in ep.retired
      ensures ep'.retired[k] == ep.retired[k]
    {
      RetiredNotActive(ep, k);
    }
  }

  lemma RetiredNotActive(ep: Endpoint, k: int32)
    requires Inv(ep) && k in ep.retired
    ensures k !in ep.reqs
  {
    hide StreamInv;
  }

  // ---- nobody leaves without a word ----

  /** The sink of the stream is closed, or has sent an end packet. */
  predicate Told(st: Stream) { st.snk.closed.Some? || st.said.Some? }

  ghost predicate AllTold(ep: Endpoint) { forall k | k in ep.retired :: Told(ep.retired[k]) }

  /** A user who takes a stream out of the table has closed its sink before. */
  predicate TellsFirst(ep: Endpoint, ev: Event) {
    ev.Do? && ev.act.Forget? && ev.act.k in ep.reqs && ev.act.k !in ep.pending ==> Told(ep.reqs[ev.act.k])
  }

  predicate TellFirst(cfg: Config, ep: Endpoint, evs: seq<Event>)
    decreases |evs|
  {
    evs == [] || (TellsFirst(ep, evs[0]) && TellFirst(cfg, Step(cfg, ep, evs[0]).0, evs[1..]))
  }

  lemma ClosedIsTold(cfg: Config, st: Stream, err: Option<Error>, abort: bool, st': Stream, out: seq<Packet>)
    requires Closes(cfg, st, err, abort, st', out)
    ensures Told(st')
  {
    hide K.Text;
  }

  lemma ReceiveTells(cfg: Config, ep: Endpoint, p: Packet)
    requires Inv(ep) && C.Fits(p) && AllTold(ep)
    ensures AllTold(Receive(cfg, ep, p).ep)
  {
    hide Inv, Receive, EndBit, Closes, CallPacket, S.Holding, K.Text, NewStream, IsStream, K.EndErr, Told;
    var i := Neg32(p.req);
    var fx := Receive(cfg, ep, p);
    if i in ep.reqs {
      var st := ep.reqs[i];
      if EndBit(p) {
        EndAnswers(cfg, ep, p);
        var e := cfg.json.decErr(p.body);
        if p.body == [116, 114, 117, 101] {
          ClosedIsTold(cfg, st, None, st.abortable, fx.ep.retired[i], fx.out);
        } else if e.Some? {
          ClosedIsTold(cfg, st, Some(CallError(e.value.0, e.value.1)), st.abortable, fx.ep.retired[i], fx.out);
        }
      } else if st.src.failed.Some? {
        FailedDataAnswers(cfg, ep, p);
        ClosedIsTold(cfg, st, Some(SourceCanceled(st.src.failed.value)), st.abortable, fx.ep.retired[i], fx.out);
      } else {
        DataAccepted(cfg, ep, p);
      }
    } else {
      OtherPackets(cfg, ep, p);
      var call := cfg.json.decCall(p.body);
      if i !in ep.closed && !EndBit(p) && call.Some? && CallPacket(cfg, p, call.value) {
        ReceiveOpening(cfg, ep, p, call.value);
      }
    }
  }

  lemma ActTells(cfg: Config, ep: Endpoint, act: Act)
    requires Inv(ep) && AllTold(ep) && TellsFirst(ep, Do(act))
    ensures AllTold(ActStep(cfg, ep, act).0)
  {
    hide StreamInv, UserStep, ClientFlag, ClientType, Opening, NewStream;
    if act.User? && act.k in ep.retired {
      UserTells(cfg, ep.retired[act.k], act.op);
    }
  }

  lemma UserTells(cfg: Config, st: Stream, op: UserOp)
    requires StreamInv(st) && Told(st)
    ensures Told(UserStep(cfg, st, op).0)
  {
    hide StreamInv, UserStep, K.IsEnd, K.Decodable, K.Faithful, C.Sendable, DataBodies, FirstEnd, HasEnd;
    UserStepFacts(cfg, st, op);
    UserSilent(cfg, st, op);
  }

  lemma StepTells(cfg: Config, ep: Endpoint, ev: Event)
    requires Inv(ep) && AllTold(ep) && TellsFirst(ep, ev)
    ensures AllTold(Step(cfg, ep, ev).0)
  {
    hide Inv, Receive, ActStep, Terminated, Farewells, Closes, Told, Filter;
    match ev {
      case In(p) =>
        if ep.serving && C.Fits(p) {
          ReceiveTells(cfg, ep, p);
        }
      case Do(act) => ActTells(cfg, ep, act);
      case Quit(order, taken) =>
        if Ids(order) == ep.reqs.Keys && DistinctIds(order) {
          TerminateTells(cfg, ep, order, taken);
          var ep' := Terminated(cfg, ep, ep.reqs.Keys, taken);
          forall k | k in ep.reqs
            ensures Told(ep'.retired[k])
          {
            ClosedIsTold(cfg.(goes := k in taken), ep.reqs[k], Some(SessionTerminated), k < 0 || !ep.reqs[k].abortable,
                         ep'.retired[k], Filter(Farewells(cfg, ep, order, taken), k));
          }
        }
    }
  }

  /** Over every session with any peer: no stream leaves the table without a word. Whatever made the serve
      loop, Terminate or a user who closes first put it away, its sink has sent an end packet or is
      closed. */
  lemma {:induction false} NobodyLeavesSilently(cfg: Config, ep: Endpoint, evs: seq<Event>)
    requires Inv(ep) && AllTold(ep) && TellFirst(cfg, ep, evs)
    ensures AllTold(Run(cfg, ep, evs).0)
    decreases |evs|
  {
    hide Step, Inv, AllTold, TellsFirst;
    if evs != [] {
      StepInv(cfg, ep, evs[0]);
      StepTells(cfg, ep, evs[0]);
      NobodyLeavesSilently(cfg, Step(cfg, ep, evs[0]).0, evs[1..]);
    }
  }

  // ---- what calls and answers look like on the wire ----

  function EncodingNumber(re: K.Encoding): byte {
    match re case TypeBinary => 0 case TypeString => 1 case TypeJSON => 2
  }

  /** A call of each type: the opening packet is JSON (2), with the stream bit (8) for all but async calls;
      the bodies that the caller writes have the encoding that it asked for, and the stream bit if the
      caller is meant to write a stream. */
  lemma CallOnTheWire(cfg: Config, ep: Endpoint, call: K.Call, re: K.Encoding, abortable: bool, b: Bytes)
    requires Inv(ep) && ep.highest < MAX_INT32 && call.typ in {"async", "source", "sink", "duplex"} && cfg.goes
    requires |cfg.json.encCall(call)| <= 0xFFFF_FFFF && |b| <= 0xFFFF_FFFF
    ensures var k := ep.highest + 1;
            var (ep1, out1) := ActStep(cfg, ep, Allocate(call, re, abortable));
            var (ep2, out2) := ActStep(cfg, ep1, Open(k));
            var (ep3, out3) := ActStep(cfg, ep2, User(k, Write(b)));
            && out1 == [] && k !in Known(ep) && k in ep2.reqs && k !in ep2.pending
            && out2 == [C.Packet(if call.typ == "async" then 2 else 10, k, cfg.json.encCall(call))]
            && out3 == [C.Packet(EncodingNumber(re) + if call.typ in {"sink", "duplex"} then 8 else 0, k, b)]
            && k in ep3.reqs && ep3.reqs[k].sent == [b] && ep3.reqs[k].abortable == abortable
            && ep3.reqs[k].src == S.FRESH && ep3.reqs[k].ctx == None && ep3.reqs[k].said == None
  {
    hide StreamInv, Inv, UserStep, NewStream, C.ToByte, OpeningFlag, ClientFlag;
    var k := ep.highest + 1;
    ClientBytes(call.typ, re);
    NextIdIsNew(ep);
    EncodingNotEnd(call.typ, re);
    ClientWrite(cfg, k, ClientFlag(call.typ, re), abortable, b);
  }

  lemma NextIdIsNew(ep: Endpoint)
    requires Inv(ep)
    ensures ep.highest >= 0 && ep.highest + 1 !in ep.reqs && ep.highest + 1 !in ep.closed
  {
    hide StreamInv;
  }

  lemma ClientWrite(cfg: Config, k: int32, flag: C.Flag, abortable: bool, b: Bytes)
    requires k != 0 && |b| <= 0xFFFF_FFFF && cfg.goes
    ensures var (st, out) := UserStep(cfg, NewStream(k, flag, abortable), Write(b));
            && out == [C.Packet(C.ToByte(flag), k, b)] && st.sent == [b] && st.id == k && st.abortable == abortable
            && st.src == S.FRESH && st.ctx == None && (!flag.endErr ==> st.said == None)
  {
    hide C.ToByte, C.FromByte;
    C.FlagRoundTrip(flag);
    var p := C.Packet(C.ToByte(flag), k, b);
    assert [p][1..] == [] && FirstEnd([]) == None;
    assert K.IsEnd(p) <==> flag.endErr;
  }

  /** An opening packet that does not go out leaves the call as it was. */
  lemma OpenFails(cfg: Config, ep: Endpoint, k: int32)
    requires k in ep.pending && (!cfg.goes || |cfg.json.encCall(ep.pending[k])| > 0xFFFF_FFFF)
    ensures ActStep(cfg, ep, Open(k)).0 == ep && ActStep(cfg, ep, Open(k)).1 == []
  {
    hide C.ToByte, OpeningFlag;
    assert Opening(cfg.json, k, ep.pending[k]).body == cfg.json.encCall(ep.pending[k]);
  }

  /** A write to any stream that users hold, active or not: it goes out under the stream's id with the flags
      of its sink; or the sink is closed, by the end of the context, by the size or by the connection. */
  lemma UserWrites(cfg: Config, ep: Endpoint, k: int32, b: Bytes)
    requires Inv(ep) && k !in ep.pending && (k in ep.reqs || k in ep.retired)
    ensures var st := if k in ep.reqs then ep.reqs[k] else ep.retired[k];
            var (ep', out) := ActStep(cfg, ep, User(k, Write(b)));
            var goes := st.snk.closed.None? && st.ctx.None? && |b| <= 0xFFFF_FFFF && cfg.goes;
            var closed := if st.snk.closed.Some? then st.snk.closed else if st.ctx.Some? then st.ctx
                          else if |b| > 0xFFFF_FFFF then Some(TooLarge) else Some(WriteFailed);
            var st' := if goes then st.(sent := st.sent + [b]) else st.(snk := st.snk.(closed := closed));
            && ep' == (if k in ep.reqs then ep.(reqs := ep.reqs[k := st']) else ep.(retired := ep.retired[k := st']))
            && (if goes then |out| == 1 && out[0].req == k && out[0].body == b && C.FromByte(out[0].flag) == st.snk.flag
                else out == [])
  {
    hide StreamInv, C.ToByte, C.FromByte, UserStep;
    var st := if k in ep.reqs then ep.reqs[k] else ep.retired[k];
    assert StreamInv(st) && st.id == k;
    StreamWrites(cfg, st, b);
  }

  lemma StreamWrites(cfg: Config, st: Stream, b: Bytes)
    requires StreamInv(st)
    ensures var (st', out) := UserStep(cfg, st, Write(b));
            var closed := if st.snk.closed.Some? then st.snk.closed else if st.ctx.Some? then st.ctx
                          else if |b| > 0xFFFF_FFFF then Some(TooLarge) else Some(WriteFailed);
            if st.snk.closed.None? && st.ctx.None? && |b| <= 0xFFFF_FFFF && cfg.goes then
              && st' == st.(sent := st.sent + [b])
              && |out| == 1 && out[0].req == st.id && out[0].body == b && C.FromByte(out[0].flag) == st.snk.flag
            else st' == st.(snk := st.snk.(closed := closed)) && out == []
  {
    hide StreamInv, C.ToByte, C.FromByte, K.Write;
    SaneId(st);
    K.WriteExactly(st.snk, st.ctx, b, cfg.goes);
    var p := K.Write(st.snk, st.ctx, b, cfg.goes).2;
    if p.Some? {
      assert [p.value][1..] == [] && !K.IsEnd(p.value);
      assert FirstEnd([p.value]) == None;
    } else {
      assert FirstEnd([]) == None;
    }
  }

  lemma SaneId(st: Stream)
    requires StreamInv(st)
    ensures st.snk.req == st.id != 0 && !st.snk.flag.endErr && K.SaneSink(st.snk)
  {
    hide S.Holding;
  }

  /** The context of a stream ends once, with this error, and the next write finds it. */
  lemma ContextEnds(cfg: Config, st: Stream, e: Error, b: Bytes)
    requires st.ctx.None? && st.snk.closed.None?
    ensures var (st1, out1) := UserStep(cfg, st, ContextDone(e));
            var (st2, out2) := UserStep(cfg, st1, Write(b));
            && out1 == [] && out2 == [] && st1 == st.(ctx := Some(e)) && st2.snk == st.snk.(closed := Some(e))
            && forall again :: UserStep(cfg, st1, ContextDone(again)) == (st1, [])
  {
  }

  lemma ClientBytes(typ: string, re: K.Encoding)
    requires typ in {"async", "source", "sink", "duplex"}
    ensures C.ToByte(OpeningFlag(typ)) == if typ == "async" then 2 else 10
    ensures C.ToByte(ClientFlag(typ, re)) == EncodingNumber(re) + if typ in {"sink", "duplex"} then 8 else 0
  {
  }

  /** The answer to a call that was accepted: SetEncoding and Write send the body with that encoding, and
      with the stream bit if the call had it. */
  lemma AnswerOnTheWire(cfg: Config, i: int32, stream: bool, re: K.Encoding, b: Bytes)
    requires i != 0 && |b| <= 0xFFFF_FFFF && cfg.goes
    ensures var st := NewStream(i, if stream then C.FLAG_STREAM else C.NO_FLAGS, true);
            var (st1, out1) := UserStep(cfg, st, SetEncoding(re));
            var (st2, out2) := UserStep(cfg, st1, Write(b));
            && out1 == [] && out2 == [C.Packet(EncodingNumber(re) + if stream then 8 else 0, i, b)]
            && st2.sent == [b] && st2.said == None
  {
    hide C.ToByte, C.FromByte;
    var st := NewStream(i, if stream then C.FLAG_STREAM else C.NO_FLAGS, true);
    K.EncodedWrite(st.snk, re, b);
    var p := C.Packet(EncodingNumber(re) + if stream then 8 else 0, i, b);
    EndBitExactly(p);
    assert [p][1..] == [];
  }

  // ---- rejected calls ----

  /** `i` is an id that the endpoint closed without ever giving it a stream. */
  ghost predicate Dead(ep: Endpoint, i: int32) {
    i in ep.closed && i !in ep.retired && i !in ep.calls && i < 0
  }

  /** A packet that reads as a call: a client's opening packet, or anything else that parseNewRequest
      accepts. */
  predicate CallPacket(cfg: Config, p: Packet, call: K.Call) {
    var flag := C.FromByte(p.flag);
    && Neg32(p.req) < 0 && !K.IsEnd(p) && C.Get(flag, C.FLAG_JSON)
    && cfg.json.decCall(p.body) == Some(call)
    && call.typ in (if C.Get(flag, C.FLAG_STREAM) then {"duplex", "source", "sink"} else {"", "async"})
  }

  predicate IsStream(p: Packet) { C.Get(C.FromByte(p.flag), C.FLAG_STREAM) }

  /** What a client sends to open a call is read as that call at the other end. */
  lemma OpeningIsCall(cfg: Config, k: int32, call: K.Call)
    requires Faithful(cfg) && k > 0 && ClientType(call.typ)
    ensures var p := Opening(cfg.json, k, call);
            p.req == k && !K.IsEnd(p) && CallPacket(cfg, p, call) && (IsStream(p) <==> StreamType(call.typ))
  {
    hide C.ToByte, C.FromByte;
    C.FlagRoundTrip(OpeningFlag(call.typ));
  }

  /** A call under an unknown id: the stream is opened and the handler started, or the call is rejected
      and its id closed, or the rejection is too large to send and the serve loop ends. */
  lemma ReceiveOpening(cfg: Config, ep: Endpoint, p: Packet, call: K.Call)
    requires Neg32(p.req) !in Known(ep) && CallPacket(cfg, p, call)
    ensures var i := Neg32(p.req);
            Receive(cfg, ep, p) ==
               if cfg.handles(call.path)
               then
                 var st := NewStream(i, if IsStream(p) then C.FLAG_STREAM else C.NO_FLAGS, true);
                 Effect(ep.(reqs := ep.reqs[i := st], calls := ep.calls + [i]), [], true, None)
               else if K.Answerable(cfg.json, call.path) && cfg.goes
               then Effect(ep.(closed := ep.closed + {i}),
                           [K.EndErr(cfg.json, i, IsStream(p), NoSuchMethod(call.path))], true, None)
               else Fatal(ep, if K.Answerable(cfg.json, call.path) then WriteFailed else TooLarge, true)
  {
    hide C.ToByte, C.FromByte, K.Text, NewStream;
  }

  /** A packet under an unknown id is no error if and only if it is a call that is handled or can be
      rejected, or an end packet. */
  lemma UnknownIdExactly(cfg: Config, ep: Endpoint, p: Packet)
    requires Neg32(p.req) !in Known(ep)
    ensures Receive(cfg, ep, p).fatal.None? <==>
              || K.IsEnd(p)
              || exists call ::
                   && CallPacket(cfg, p, call)
                   && (cfg.handles(call.path) || (K.Answerable(cfg.json, call.path) && cfg.goes))
  {
    hide C.FromByte, K.Text, NewStream, K.Answerable, K.EndErr;
    var call := cfg.json.decCall(p.body);
    if call.Some? && CallPacket(cfg, p, call.value) {
      ReceiveOpening(cfg, ep, p, call.value);
    }
  }

  /** An unhandled call is answered by exactly one end packet, and the id is dead; if and only if the
      error text does not fit into a packet, the serve loop ends instead. */
  lemma UnhandledCallIsRejected(cfg: Config, ep: Endpoint, p: Packet, call: K.Call)
    requires Inv(ep) && Faithful(cfg) && Neg32(p.req) !in Known(ep)
    requires CallPacket(cfg, p, call) && !cfg.handles(call.path)
    ensures var i := Neg32(p.req);
            var fx := Receive(cfg, ep, p);
            && (fx.fatal.None? <==> K.Answerable(cfg.json, call.path) && cfg.goes)
            && fx.drained && fx.ep.reqs == ep.reqs && fx.ep.calls == ep.calls
            && (fx.fatal.None? ==>
                  && Dead(fx.ep, i) && |fx.out| == 1 && fx.out[0].req == i && K.IsErrorEnd(fx.out[0])
                  && cfg.json.decErr(fx.out[0].body) == Some(("Error", "muxrpc: no such command: " + Join(call.path))))
  {
    hide StreamInv, Receive, K.EndOkay, K.IsEnd, C.ToByte, C.FromByte;
    ReceiveOpening(cfg, ep, p, call);
    K.EndsAreEnds(cfg.json, Neg32(p.req), IsStream(p), NoSuchMethod(call.path));
  }

  ghost predicate Faithful(cfg: Config) { K.Faithful(cfg.json) }

  lemma DeadStep(cfg: Config, ep: Endpoint, ev: Event, i: int32)
    requires Inv(ep) && Dead(ep, i)
    ensures var (ep', out) := Step(cfg, ep, ev);
            && Dead(ep', i) && (forall p | p in out :: p.req != i)
            && (ev.In? && Neg32(ev.p.req) == i ==> ep' == ep && out == [])
  {
    hide StreamInv, ReceiveEnd, ReceiveData, ReceiveCall, K.IsEnd, ActStep, TerminateParts, Farewells;
    match ev {
      case In(p) =>
        if ep.serving && C.Fits(p) {
          ReceiveInv(cfg, ep, p);
          if Neg32(p.req) == i {
            DeadReceive(cfg, ep, p, i);
          }
        }
      case Do(act) =>
        ActInv(cfg, ep, act);
      case Quit(order, taken) =>
        if Ids(order) == ep.reqs.Keys {
          FarewellsReqs(cfg, ep, order, taken);
        }
    }
  }

  lemma {:induction false} FarewellsReqs(cfg: Config, ep: Endpoint, order: seq<int32>, taken: set<int32>)
    requires Inv(ep) && Ids(order) <= ep.reqs.Keys
    ensures forall p | p in Farewells(cfg, ep, order, taken) :: p.req in ep.reqs
    decreases |order|
  {
    hide StreamInv, TerminateParts;
    if order != [] {
      var k := order[|order| - 1];
      assert k in Ids(order);
      assert Ids(order[..|order| - 1]) <= Ids(order);
      FarewellsReqs(cfg, ep, order[..|order| - 1], taken);
      IdOf(ep, k);
      TerminatePartsFacts(cfg.(goes := k in taken), ep.reqs[k]);
    }
  }

  lemma DeadReceive(cfg: Config, ep: Endpoint, p: Packet, i: int32)
    requires Inv(ep) && Dead(ep, i) && Neg32(p.req) == i
    ensures Receive(cfg, ep, p) == Effect(ep, [], true, None)
  {
    hide StreamInv, K.IsEnd, ReceiveData, ReceiveCall;
  }

  /** Over the rest of every session nothing happens with a dead id: packets that still arrive for it
      are dropped without a reply, no packet is ever sent for it, no handler is started, no entry made. */
  lemma {:induction false} RejectedStaysRejected(cfg: Config, ep: Endpoint, evs: seq<Event>, i: int32)
    requires Inv(ep) && Dead(ep, i)
    ensures var (ep', out) := Run(cfg, ep, evs);
            && Dead(ep', i) && i !in ep'.reqs && (forall p | p in out :: p.req != i)
    decreases |evs|
  {
    hide Step, StreamInv;
    if evs != [] {
      StepInv(cfg, ep, evs[0]);
      DeadStep(cfg, ep, evs[0], i);
      RejectedStaysRejected(cfg, Step(cfg, ep, evs[0]).0, evs[1..], i);
    }
  }

  // ---- closed without a word ----

  /** The stream `k` is known and opened, and its sink, if it has one, is closed. */
  ghost predicate Silent(ep: Endpoint, k: int32) {
    && k in Known(ep) && k !in ep.pending
    && (k in ep.reqs ==> ep.reqs[k].snk.closed.Some?)
    && (k in ep.retired ==> ep.retired[k].snk.closed.Some?)
  }

  lemma CloseSilent(cfg: Config, st: Stream, err: Option<Error>, abort: bool)
    requires st.snk.closed.Some?
    ensures CloseWith(cfg, st, err, abort).0.snk == st.snk && CloseWith(cfg, st, err, abort).1 == []
  {
    hide S.Cancel;
  }

  /** A step on the stream `st` that keeps its sink closed, if it is closed, and then sends nothing. */
  ghost predicate StaysSilent(st: Stream, st': Stream, out: seq<Packet>) {
    && st'.id == st.id && (forall p | p in out :: p.req == st.id)
    && (st.snk.closed.Some? ==> st'.snk.closed.Some? && out == [])
  }

  lemma CloseWithSilent(cfg: Config, st: Stream, err: Option<Error>, abort: bool)
    requires StreamInv(st)
    ensures var (st', out) := CloseWith(cfg, st, err, abort); StaysSilent(st, st', out)
  {
    hide StreamInv, CloseWith, K.IsEnd, K.Decodable, K.Faithful, C.Sendable;
    CloseWithFacts(cfg, st, err, abort);
    if st.snk.closed.Some? {
      CloseSilent(cfg, st, err, abort);
    }
  }

  lemma RetireSilent(ep: Endpoint, st: Stream, st': Stream, out: seq<Packet>, k: int32)
    requires Inv(ep) && Silent(ep, k) && st.id in ep.reqs && ep.reqs[st.id].snk == st.snk && StaysSilent(st, st', out)
    ensures Silent(Retire(ep, st'), k) && forall p | p in out :: p.req != k
  {
    hide StreamInv;
  }

  lemma CloseStreamSilent(cfg: Config, ep: Endpoint, st: Stream, err: Option<Error>, drained: bool, k: int32)
    requires Inv(ep) && Silent(ep, k) && st.id in ep.reqs && ep.reqs[st.id].snk == st.snk && StreamInv(st)
    ensures var fx := CloseStream(cfg, ep, st, err, drained);
            Silent(fx.ep, k) && forall p | p in fx.out :: p.req != k
  {
    hide StreamInv, Inv, Silent, StaysSilent, CloseWith, Retire;
    CloseWithSilent(cfg, st, err, st.abortable);
    var (st', out) := CloseParts(cfg, st, err);
    RetireSilent(ep, st, st', out, k);
  }

  lemma SilentReceive(cfg: Config, ep: Endpoint, p: Packet, k: int32)
    requires Inv(ep) && C.Fits(p) && Silent(ep, k)
    ensures var fx := Receive(cfg, ep, p);
            Silent(fx.ep, k) && forall o | o in fx.out :: o.req != k
  {
    hide Inv, Silent, K.IsEnd, ReceiveEnd, ReceiveData, ReceiveCall, C.FromByte;
    var i := Neg32(p.req);
    if K.IsEnd(p) {
      SilentEnd(cfg, ep, i, p.body, k);
    } else if i in ep.reqs {
      if i !in ep.closed {
        SilentData(cfg, ep, i, p.flag, p.body, k);
      }
    } else if i !in ep.closed {
      SilentCall(cfg, ep, i, C.FromByte(p.flag), p.body, k);
    }
  }

  lemma SilentEnd(cfg: Config, ep: Endpoint, i: int32, body: Bytes, k: int32)
    requires Inv(ep) && Silent(ep, k)
    ensures var fx := ReceiveEnd(cfg, ep, i, body);
            Silent(fx.ep, k) && forall o | o in fx.out :: o.req != k
  {
    hide Inv, StreamInv, CloseStream;
    if i in ep.reqs {
      IdOf(ep, i);
      CloseStreamSilent(cfg, ep, ep.reqs[i], None, true, k);
      var e := cfg.json.decErr(body);
      if e.Some? {
        CloseStreamSilent(cfg, ep, ep.reqs[i], Some(CallError(e.value.0, e.value.1)), true, k);
      }
    }
  }

  lemma SilentData(cfg: Config, ep: Endpoint, i: int32, flag: byte, body: Bytes, k: int32)
    requires Inv(ep) && Silent(ep, k) && i in ep.reqs && |body| <= C.MAX_BUFFER_SIZE
    ensures var fx := ReceiveData(cfg, ep, ep.reqs[i], flag, Wrap32(|body|), body);
            Silent(fx.ep, k) && forall o | o in fx.out :: o.req != k
  {
    hide Inv, StreamInv, CloseStream, S.Consume;
    IdOf(ep, i);
    var st := ep.reqs[i];
    ConsumeFacts(st, flag, body);
    var (src, err) := S.Consume(st.src, Wrap32(|body|), flag, F.Body(body, false));
    if err.Some? {
      assert st.(src := src) == st;
      CloseStreamSilent(cfg, ep, st, err, st.src.failed.None?, k);
    }
  }

  lemma SilentCall(cfg: Config, ep: Endpoint, i: int32, flag: C.Flag, body: Bytes, k: int32)
    requires Silent(ep, k) && i !in Known(ep)
    ensures var fx := ReceiveCall(cfg, ep, i, flag, body);
            Silent(fx.ep, k) && forall o | o in fx.out :: o.req != k
  {
    hide K.Text, C.ToByte, WellTyped, NewStream;
  }

  lemma SilentAct(cfg: Config, ep: Endpoint, act: Act, k: int32)
    requires Inv(ep) && Silent(ep, k)
    ensures var (ep', out) := ActStep(cfg, ep, act);
            Silent(ep', k) && forall p | p in out :: p.req != k
  {
    hide StreamInv, UserStep, ClientFlag, Opening, ClientType, NewStream;
    match act {
      case Allocate(call, re, abortable) =>
      case Open(i) =>
        if i in ep.pending {
          OpeningReq(cfg.json, i, ep.pending[i]);
        }
      case User(i, op) =>
        if i in ep.reqs {
          UserSilent(cfg, ep.reqs[i], op);
        } else if i in ep.retired {
          UserSilent(cfg, ep.retired[i], op);
        }
      case Forget(i) =>
    }
  }

  lemma UserSilent(cfg: Config, st: Stream, op: UserOp)
    requires StreamInv(st)
    ensures var (st', out) := UserStep(cfg, st, op); StaysSilent(st, st', out)
  {
    hide StreamInv, S.Step, K.Step, K.Decodable, K.Faithful, C.Sendable;
    UserStepFacts(cfg, st, op);
    if op.Write? || op.CloseSink? || op.SetEncoding? {
      SaneId(st);
      K.StepFacts(cfg.json, st.snk, SinkOp(cfg, st, op));
    }
  }

  lemma {:induction false} SilentFarewells(cfg: Config, ep: Endpoint, order: seq<int32>, taken: set<int32>, k: int32)
    requires Inv(ep) && Silent(ep, k) && Ids(order) <= ep.reqs.Keys
    ensures forall p | p in Farewells(cfg, ep, order, taken) :: p.req != k
    decreases |order|
  {
    hide Inv, StreamInv, CloseWith;
    if order != [] {
      var i := order[|order| - 1];
      assert i in Ids(order);
      assert Ids(order[..|order| - 1]) <= Ids(order);
      SilentFarewells(cfg, ep, order[..|order| - 1], taken, k);
      IdOf(ep, i);
      CloseWithSilent(cfg.(goes := i in taken), ep.reqs[i], Some(SessionTerminated), i < 0 || !ep.reqs[i].abortable);
    }
  }

  lemma SilentTerminated(cfg: Config, ep: Endpoint, taken: set<int32>, k: int32)
    requires Inv(ep) && Silent(ep, k)
    ensures Silent(Terminated(cfg, ep, ep.reqs.Keys, taken), k)
  {
    hide StreamInv, CloseWith;
    if k in ep.reqs {
      CloseWithSilent(cfg.(goes := k in taken), ep.reqs[k], Some(SessionTerminated), k < 0 || !ep.reqs[k].abortable);
    }
  }

  lemma SilentStep(cfg: Config, ep: Endpoint, ev: Event, k: int32)
    requires Inv(ep) && Silent(ep, k)
    ensures var (ep', out) := Step(cfg, ep, ev);
            Silent(ep', k) && forall p | p in out :: p.req != k
  {
    hide Inv, Receive, ActStep, TerminateOf, Terminated;
    match ev {
      case In(p) =>
        if ep.serving && C.Fits(p) {
          SilentReceive(cfg, ep, p, k);
        }
      case Do(act) => SilentAct(cfg, ep, act, k);
      case Quit(order, taken) =>
        SilentTerminated(cfg, ep, taken, k);
        if Ids(order) == ep.reqs.Keys {
          SilentFarewells(cfg, ep, order, taken, k);
        }
    }
  }

  /** Once the sink of an opened stream is closed, no packet is sent under its id again: over the rest of
      every session, with any peer, closing the stream and Terminate included. If no end packet went out
      before (see ClosesSilentlyExactly for when), the peer is never told. */
  lemma {:induction false} ClosedStreamIsSilent(cfg: Config, ep: Endpoint, evs: seq<Event>, k: int32)
    requires Inv(ep) && Silent(ep, k)
    ensures var (ep', out) := Run(cfg, ep, evs);
            Silent(ep', k) && forall p | p in out :: p.req != k
    decreases |evs|
  {
    hide Step, Inv, Silent;
    if evs != [] {
      StepInv(cfg, ep, evs[0]);
      SilentStep(cfg, ep, evs[0], k);
      ClosedStreamIsSilent(cfg, Step(cfg, ep, evs[0]).0, evs[1..], k);
    }
  }

  // ---- how a close travels ----

  lemma ClosePacketReads(j: K.Json, snk: K.Sink, err: Option<Error>)
    requires K.Faithful(j)
    ensures var p := K.ClosePacket(j, snk, err);
            && K.IsEnd(p) && p.req == snk.req
            && (K.CleanClose(err) <==> p.body == K.TRUE)
            && (!K.CleanClose(err) ==> j.decErr(p.body) == Some(("Error", K.Text(err.value))))
  {
    hide K.Text, C.ToByte, C.FromByte;
    C.FlagRoundTrip(K.EndFlag(C.Get(snk.flag, C.FLAG_STREAM)));
  }

  /** What an end packet with the meaning `seen` does to an active stream. */
  lemma EndOfStream(cfg: Config, ep: Endpoint, i: int32, body: Bytes, seen: Option<Error>)
    requires Inv(ep) && i in ep.reqs && ep.reqs[i].src.failed.None? && seen != Some(EOF)
    requires if seen.None? then body == K.TRUE
             else body != K.TRUE && seen.value.CallError?
                  && cfg.json.decErr(body) == Some((seen.value.name, seen.value.message))
    ensures var fx := ReceiveEnd(cfg, ep, i, body);
            && fx.fatal.None? && i !in fx.ep.reqs && i in fx.ep.retired
            && S.ErrOf(fx.ep.retired[i].src) == seen
            && fx.ep.retired[i].src.failed == (if seen.None? then Some(EOF) else seen)
            && fx.ep.retired[i].got == ep.reqs[i].got
            && fx.out == (var reply := K.ClosePacket(cfg.json, ep.reqs[i].snk, seen);
                          if ep.reqs[i].snk.closed.None? && C.Fits(reply) && cfg.goes then [reply] else [])
  {
    hide Inv, StreamInv, K.ClosePacket;
    IdOf(ep, i);
    S.ErrAfterCancel(ep.reqs[i].src, seen);
  }

  /** The end packet of a sink that is closed with `err` ends the stream at the other side: its reader
      gets a regular end, or the error's text as a CallError, and the answer is an end packet of the
      same kind, unless the sink there is closed already. */
  lemma CloseReachesReader(cfg: Config, ep: Endpoint, snk: K.Sink, err: Option<Error>)
    requires Inv(ep) && Faithful(cfg)
    requires Neg32(snk.req) in ep.reqs && ep.reqs[Neg32(snk.req)].src.failed.None?
    ensures var i := Neg32(snk.req);
            var seen := if K.CleanClose(err) then None else Some(CallError("Error", K.Text(err.value)));
            var fx := Receive(cfg, ep, K.ClosePacket(cfg.json, snk, err));
            && fx.fatal.None? && i !in fx.ep.reqs && i in fx.ep.retired
            && S.ErrOf(fx.ep.retired[i].src) == seen
            && fx.ep.retired[i].src.failed == (if seen.None? then Some(EOF) else seen)
            && fx.ep.retired[i].got == ep.reqs[i].got
            && fx.out == (var reply := K.ClosePacket(cfg.json, ep.reqs[i].snk, seen);
                          if ep.reqs[i].snk.closed.None? && C.Fits(reply) && cfg.goes then [reply] else [])
  {
    hide Inv, K.Text, K.IsEnd, K.ClosePacket, ReceiveEnd, K.Faithful;
    ClosePacketReads(cfg.json, snk, err);
    var seen := if K.CleanClose(err) then None else Some(CallError("Error", K.Text(err.value)));
    EndOfStream(cfg, ep, Neg32(snk.req), K.ClosePacket(cfg.json, snk, err).body, seen);
  }

  /** A regular end for Request.CloseWithError: no error, io.EOF or luigi.EOS, or one that wraps these. */
  ghost predicate RegularEnd(cerr: Option<Error>) {
    cerr.None? || Wraps(cerr.value, EOF) || Wraps(cerr.value, Eos)
  }

  lemma RegularExactly(cerr: Option<Error>)
    ensures Regular(cerr) <==> RegularEnd(cerr)
    ensures cerr == None || cerr == Some(EOF) ==> Regular(cerr)
  {
    if cerr.Some? {
      IsErrorExactly(cerr.value, EOF);
      IsErrorExactly(cerr.value, Eos);
    }
  }

  /** Closing a request closes it twice: first without ending its context, as a regular end if the error is
      one, and then with the error itself. This holds for any state of the sink and any connection. */
  lemma CloseRequestExactly(cfg: Config, st: Stream, cerr: Option<Error>, goes: bool)
    returns (mid: Stream, out1: seq<Packet>, out2: seq<Packet>)
    ensures var (st', out) := CloseRequest(cfg, st, cerr, goes);
            && out == out1 + out2
            && Closes(cfg, st, if RegularEnd(cerr) then None else cerr, false, mid, out1)
            && Closes(cfg.(goes := goes), mid, cerr, st.abortable, st', out2)
  {
    hide S.Cancel, CloseSinkOf, CloseWith, K.Text, Closes;
    RegularExactly(cerr);
    var first, how := if Regular(cerr) then None else cerr, if Regular(cerr) then Some(EOF) else cerr;
    var st1 := CloseSinkOf(cfg, st, how).0;
    out1 := CloseSinkOf(cfg, st, how).1;
    mid := st1.(src := S.Cancel(st.src, first));
    CloseAfterCancel(cfg, st, how, first);
    CloseSinkExactly(cfg, st, how);
    assert Closes(cfg, st, first, false, mid, out1) by { EofIsRegular(cfg, st, how, first, st1, out1); }
    CloseWithExactly(cfg.(goes := goes), mid, cerr, st.abortable);
    out2 := CloseParts(cfg.(goes := goes), mid, cerr).1;
  }

  lemma EofIsRegular(cfg: Config, st: Stream, how: Option<Error>, first: Option<Error>, st1: Stream, out: seq<Packet>)
    requires Closes(cfg, st, how, false, st1.(src := S.Cancel(st.src, how)), out)
    requires how == first || (how == Some(EOF) && first == None)
    ensures Closes(cfg, st, first, false, st1.(src := S.Cancel(st.src, first)), out)
  {
    hide K.Text;
  }

  /** The end packets that closing a request sends on an open sink: one for an error; two for a regular
      end, because the first leaves no trace in the sink; and both kinds for an error that is the end of the
      old streams or wraps an end. */
  lemma CloseRequestSends(cfg: Config, st: Stream, cerr: Option<Error>)
    requires st.snk.closed.None? && cfg.goes
    requires cerr.Some? ==> |cfg.json.encErr(K.Text(cerr.value))| <= 0xFFFF_FFFF
    ensures var (st', out) := CloseRequest(cfg, st, cerr, true);
            var flag := if st.snk.flag.stream then 14 else 6;
            var okay := C.Packet(flag, st.snk.req, [116, 114, 117, 101]);
            && (cerr == None || cerr == Some(EOF) ==> out == [okay, okay] && st'.snk == st.snk)
            && (cerr.Some? && cerr != Some(EOF) ==>
                  var bad := C.Packet(flag, st.snk.req, cfg.json.encErr(K.Text(cerr.value)));
                  out == (if RegularEnd(cerr) then [okay, bad] else [bad]) && st'.snk.closed == cerr)
            && (st.src.failed.None? ==> st'.src.failed == if RegularEnd(cerr) then Some(EOF) else cerr)
  {
    hide K.Text, Closes, CloseRequest, RegularEnd;
    var mid, out1, out2 := CloseRequestExactly(cfg, st, cerr, true);
    RegularExactly(cerr);
    assert cfg.(goes := true) == cfg;
    OpenCloses(cfg, st, if RegularEnd(cerr) then None else cerr, false, mid, out1);
    OpenCloses(cfg, mid, cerr, st.abortable, CloseRequest(cfg, st, cerr, true).0, out2);
  }

  /** What Closes says if nothing is in the way of the packet. */
  lemma OpenCloses(cfg: Config, st: Stream, err: Option<Error>, abort: bool, st': Stream, out: seq<Packet>)
    requires Closes(cfg, st, err, abort, st', out) && cfg.goes
    requires err.Some? ==> |cfg.json.encErr(K.Text(err.value))| <= 0xFFFF_FFFF
    ensures var clean := err == None || err == Some(EOF);
            var body := if clean then [116, 114, 117, 101] else cfg.json.encErr(K.Text(err.value));
            && (st.snk.closed.None? ==>
                  && out == [C.Packet(if st.snk.flag.stream then 14 else 6, st.snk.req, body)]
                  && st'.snk == st.snk.(closed := if clean then None else err))
            && (st.snk.closed.Some? ==> out == [] && st'.snk == st.snk)
            && st'.src.failed == (if st.src.failed.Some? then st.src.failed else if clean then Some(EOF) else err)
  {
    hide K.Text;
  }

  /** What the reader at the other side sees of it: a regular end, or the text of the error as a CallError.
      The second end packet finds the stream closed. */
  lemma CloseRequestIsSeen(cfg: Config, st: Stream, cerr: Option<Error>, peer: Config, ep: Endpoint)
    requires st.snk.closed.None? && cfg.goes && peer.json == cfg.json && K.Faithful(cfg.json)
    requires cerr.Some? ==> |cfg.json.encErr(K.Text(cerr.value))| <= 0xFFFF_FFFF
    requires Inv(ep) && Neg32(st.snk.req) in ep.reqs && ep.reqs[Neg32(st.snk.req)].src.failed.None?
    ensures var i, ep' := Neg32(st.snk.req), ReceiveAll(peer, ep, CloseRequest(cfg, st, cerr, true).1);
            && i in ep'.retired && i !in ep'.reqs && ep'.retired[i].got == ep.reqs[i].got
            && S.ErrOf(ep'.retired[i].src) ==
               (if RegularEnd(cerr) then None else Some(CallError("Error", K.Text(cerr.value))))
  {
    hide K.Text, Inv, Receive, EndBit, RegularEnd, CloseRequest, ReceiveAll;
    CloseRequestSends(cfg, st, cerr);
    RegularExactly(cerr);
    var i := Neg32(st.snk.req);
    var out := CloseRequest(cfg, st, cerr, true).1;
    forall p | p in out
      ensures EndBit(p) && C.Fits(p) && Neg32(p.req) == i
    {
      FlagEnds(p);
    }
    EndSeen(peer, ep, out[0]);
    ClosedIgnores(peer, Receive(peer, ep, out[0]).ep, out[1..], i);
    ReceiveAllFirst(peer, ep, out);
  }

  lemma FlagEnds(p: Packet)
    requires p.flag == 6 || p.flag == 14
    ensures EndBit(p)
  {
  }

  lemma EndSeen(cfg: Config, ep: Endpoint, p: Packet)
    requires Inv(ep) && EndBit(p) && C.Fits(p) && Neg32(p.req) in ep.reqs && ep.reqs[Neg32(p.req)].src.failed.None?
    requires p.body == K.TRUE || cfg.json.decErr(p.body).Some?
    ensures var i, ep' := Neg32(p.req), Receive(cfg, ep, p).ep;
            && Inv(ep') && i in ep'.retired && i in ep'.closed && i !in ep'.reqs
            && ep'.retired[i].got == ep.reqs[i].got
            && S.ErrOf(ep'.retired[i].src) ==
               if p.body == K.TRUE then None
               else Some(CallError(cfg.json.decErr(p.body).value.0, cfg.json.decErr(p.body).value.1))
  {
    hide Inv, EndBit, K.Text, Receive;
    EndAnswers(cfg, ep, p);
    ReceiveInv(cfg, ep, p);
  }

  function ReceiveAll(cfg: Config, ep: Endpoint, ps: seq<Packet>): Endpoint
    decreases |ps|
  {
    if ps == [] then ep else ReceiveAll(cfg, Receive(cfg, ep, ps[0]).ep, ps[1..])
  }

  lemma ReceiveAllFirst(cfg: Config, ep: Endpoint, ps: seq<Packet>)
    requires ps != []
    ensures ReceiveAll(cfg, ep, ps) == ReceiveAll(cfg, Receive(cfg, ep, ps[0]).ep, ps[1..])
  {
    hide Receive;
  }

  lemma {:induction false} ClosedIgnores(cfg: Config, ep: Endpoint, ps: seq<Packet>, i: int32)
    requires Inv(ep) && i in ep.closed && i !in ep.reqs && forall p | p in ps :: Neg32(p.req) == i
    ensures ReceiveAll(cfg, ep, ps) == ep
    decreases |ps|
  {
    hide Inv, Receive, EndBit, CallPacket;
    if ps != [] {
      assert ps[0] in ps;
      OtherPackets(cfg, ep, ps[0]);
      ClosedIgnores(cfg, ep, ps[1..], i);
    }
  }

  /** The texts that travel: of the errors that users make, and of those of the session. */
  lemma UserTexts(name: string, text: string)
    ensures K.Text(Other(text)) == text
    ensures K.Text(CallError(name, text)) == "muxrpc CallError: " + name + " - " + text
    ensures forall e :: K.Text(SourceCanceled(e)) == "muxrpc: byte source canceled: " + K.Text(e)
    ensures K.Text(ShortBody) == "frameBuffer: failed to consume whole body"
    ensures K.Text(EOF) == "EOF" && K.Text(Canceled) == "context canceled"
    ensures K.Text(SessionTerminated) == "muxrpc: session terminated"
  {
  }

  lemma CloseRequestInv(cfg: Config, ep: Endpoint, k: int32, cerr: Option<Error>, goes: bool)
    requires Inv(ep) && k in ep.reqs
    ensures var st' := CloseRequest(cfg, ep.reqs[k], cerr, goes).0;
            st'.id == k && StreamInv(st') && Inv(Retire(ep, st'))
  {
    hide Inv, S.Cancel, CloseParts, CloseSinkOf, StreamInv, K.IsEnd, K.Decodable, K.Faithful, Retire;
    IdOf(ep, k);
    var st := ep.reqs[k];
    CloseSinkFacts(cfg, st, if Regular(cerr) then Some(EOF) else cerr);
    var st1 := CloseSinkOf(cfg, st, if Regular(cerr) then Some(EOF) else cerr).0;
    var st2 := st1.(src := S.Cancel(st.src, if Regular(cerr) then None else cerr));
    assert StreamInv(st2) by { CancelKeeps(st1, if Regular(cerr) then None else cerr); }
    ClosePartsFacts(cfg.(goes := goes), st2, cerr);
    RetireInv(ep, CloseParts(cfg.(goes := goes), st2, cerr).0);
  }

  lemma CancelKeeps(st: Stream, err: Option<Error>)
    requires StreamInv(st)
    ensures StreamInv(st.(src := S.Cancel(st.src, err)))
  {
    hide S.Holding, S.Cancel;
    S.CancelHolding(st.src, st.got, st.taken, err);
  }

  /** The user actions that make up a Cancel, a Close, an abort and the removal from the tables. */
  function CloseStreamActs(k: int32, err: Option<Error>, abort: bool): seq<Act> {
    [User(k, OnSource(S.Cancellation(err))), User(k, CloseSink(err))]
    + (if abort then [User(k, ContextDone(Canceled))] else []) + [Forget(k)]
  }

  /** The user actions that closing a request consists of. */
  function CloseActs(st: Stream, cerr: Option<Error>): seq<Act> {
    [User(st.id, OnSource(S.Cancellation(if Regular(cerr) then None else cerr))),
     User(st.id, CloseSink(if Regular(cerr) then Some(EOF) else cerr))]
    + CloseStreamActs(st.id, cerr, st.abortable)
  }

  function ActAll(cfg: Config, ep: Endpoint, acts: seq<Act>): (Endpoint, seq<Packet>)
    decreases |acts|
  {
    if acts == [] then (ep, [])
    else
      var (ep1, out) := ActStep(cfg, ep, acts[0]);
      var (ep2, more) := ActAll(cfg, ep1, acts[1..]);
      (ep2, out + more)
  }

  /** `ep` with the state of the active stream replaced. */
  function With(ep: Endpoint, st: Stream): Endpoint { ep.(reqs := ep.reqs[st.id := st]) }

  lemma ActFirst(cfg: Config, ep: Endpoint, st: Stream, op: UserOp, rest: seq<Act>)
    requires st.id !in ep.pending
    ensures UserStep(cfg, st, op).0.id == st.id
    ensures var (st', out) := UserStep(cfg, st, op);
            var (ep', more) := ActAll(cfg, With(ep, st'), rest);
            ActAll(cfg, With(ep, st), [User(st.id, op)] + rest) == (ep', out + more)
  {
    hide UserStep;
    UserStepId(cfg, st, op);
    var st' := UserStep(cfg, st, op).0;
    assert ep.reqs[st.id := st][st.id := st'] == ep.reqs[st.id := st'];
    assert ([User(st.id, op)] + rest)[1..] == rest;
  }

  lemma UserStepId(cfg: Config, st: Stream, op: UserOp)
    ensures UserStep(cfg, st, op).0.id == st.id
  {
    hide S.Step, K.Step;
  }

  lemma CancelUser(cfg: Config, st: Stream, e: Option<Error>)
    requires |st.src.buf.lenBuf| == 4
    ensures UserStep(cfg, st, OnSource(S.Cancellation(e))) == (st.(src := S.Cancel(st.src, e)), [])
    ensures |S.Cancel(st.src, e).buf.lenBuf| == 4
  {
  }

  lemma CloseUser(cfg: Config, st: Stream, e: Option<Error>)
    ensures UserStep(cfg, st, CloseSink(e)) == CloseSinkOf(cfg, st, e)
  {
    hide K.Close;
  }

  lemma ContextUser(cfg: Config, st: Stream)
    ensures UserStep(cfg, st, ContextDone(Canceled)) ==
            (st.(ctx := if st.ctx.None? then Some(Canceled) else st.ctx), [])
  {
  }

  lemma Forgets(cfg: Config, ep: Endpoint, st: Stream)
    requires st.id !in ep.pending
    ensures ActAll(cfg, With(ep, st), [Forget(st.id)]) == (Retire(ep, st), [])
  {
    hide Retire;
    var ep1 := With(ep, st);
    var acts := [Forget(st.id)];
    assert Retire(ep1, st) == Retire(ep, st) by { RetireWith(ep, st); }
    assert acts[1..] == [];
    var none: seq<Packet> := [];
    assert ActStep(cfg, ep1, acts[0]) == (Retire(ep, st), none);
    assert ActAll(cfg, Retire(ep, st), acts[1..]) == (Retire(ep, st), none);
    assert none + none == none;
  }

  lemma RetireWith(ep: Endpoint, st: Stream)
    ensures Retire(With(ep, st), st) == Retire(ep, st)
  {
    assert With(ep, st).reqs - {st.id} == ep.reqs - {st.id};
  }

  /** Cancelling before closing or after makes no difference to the sink. */
  lemma CloseAfterCancel(cfg: Config, st: Stream, err: Option<Error>, e: Option<Error>)
    ensures CloseSinkOf(cfg, st.(src := S.Cancel(st.src, e)), err) ==
            (CloseSinkOf(cfg, st, err).0.(src := S.Cancel(st.src, e)), CloseSinkOf(cfg, st, err).1)
    ensures CloseSinkOf(cfg, st, err).0.id == st.id && CloseSinkOf(cfg, st, err).0.src == st.src
    ensures CloseSinkOf(cfg, st, err).0.ctx == st.ctx && CloseSinkOf(cfg, st, err).0.abortable == st.abortable
  {
    hide K.Close, S.Cancel;
  }

  lemma CloseStreamIsActs(cfg: Config, ep: Endpoint, st: Stream, err: Option<Error>, abort: bool)
    requires Inv(ep) && st.id in ep.reqs && st.id !in ep.pending && |st.src.buf.lenBuf| == 4
    ensures var (st', out) := CloseWith(cfg, st, err, abort);
            ActAll(cfg, With(ep, st), CloseStreamActs(st.id, err, abort)) == (Retire(ep, st'), out)
  {
    hide Inv, ActAll, UserStep, Retire, CloseSinkOf, S.Cancel;
    var k := st.id;
    var st1 := st.(src := S.Cancel(st.src, err));
    var st2, out := CloseSinkOf(cfg, st1, err).0, CloseSinkOf(cfg, st1, err).1;
    var st3 := CloseWith(cfg, st, err, abort).0;
    var last := (if abort then [User(k, ContextDone(Canceled))] else []) + [Forget(k)];
    CloseAfterCancel(cfg, st, err, err);
    CancelUser(cfg, st, err);
    CloseUser(cfg, st1, err);
    ActFirst(cfg, ep, st, OnSource(S.Cancellation(err)), [User(k, CloseSink(err))] + last);
    ActFirst(cfg, ep, st1, CloseSink(err), last);
    Forgets(cfg, ep, st3);
    var none: seq<Packet> := [];
    assert none + none == none && out + none == out && none + out == out;
    if abort {
      ContextUser(cfg, st2);
      ActFirst(cfg, ep, st2, ContextDone(Canceled), [Forget(k)]);
    } else {
      assert last == [Forget(k)];
    }
    assert ActAll(cfg, With(ep, st2), last) == (Retire(ep, st3), none);
    assert CloseStreamActs(k, err, abort)
        == [User(k, OnSource(S.Cancellation(err)))] + ([User(k, CloseSink(err))] + last);
  }

  /** Closing a request is these user actions, one after the other, so the network's runs cover it. */
  lemma CloseRequestIsActs(cfg: Config, ep: Endpoint, k: int32, cerr: Option<Error>)
    requires Inv(ep) && k in ep.reqs && k !in ep.pending
    ensures var (st', out) := CloseRequest(cfg, ep.reqs[k], cerr, cfg.goes);
            ActAll(cfg, ep, CloseActs(ep.reqs[k], cerr)) == (Retire(ep, st'), out)
  {
    hide Inv, ActAll, UserStep, Retire, CloseSinkOf, S.Cancel, CloseWith, CloseStreamActs;
    IdOf(ep, k);
    var st := ep.reqs[k];
    StreamLenBuf(st);
    assert With(ep, st) == ep;
    assert cfg.(goes := cfg.goes) == cfg;
    var first, how := if Regular(cerr) then None else cerr, if Regular(cerr) then Some(EOF) else cerr;
    var st1 := st.(src := S.Cancel(st.src, first));
    var st2 := CloseSinkOf(cfg, st1, how).0;
    var rest := CloseStreamActs(k, cerr, st.abortable);
    CancelUser(cfg, st, first);
    CloseUser(cfg, st1, how);
    CloseAfterCancel(cfg, st, how, first);
    ActFirst(cfg, ep, st, OnSource(S.Cancellation(first)), [User(k, CloseSink(how))] + rest);
    ActFirst(cfg, ep, st1, CloseSink(how), rest);
    CloseStreamIsActs(cfg, ep, st2, cerr, st.abortable);
    var none: seq<Packet> := [];
    assert forall ps: seq<Packet> :: none + ps == ps;
    assert CloseActs(st, cerr) == [User(k, OnSource(S.Cancellation(first)))] + ([User(k, CloseSink(how))] + rest);
  }

  // ---- Terminate keeps what was delivered ----

  lemma TerminatePartsFacts(cfg: Config, st: Stream)
    requires StreamInv(st)
    ensures var (st', out) := TerminateParts(cfg, st);
            && StreamInv(st') && st'.id == st.id && st'.got == st.got && st'.taken == st.taken
            && st'.src.failed == (if st.src.failed.Some? then st.src.failed else Some(SessionTerminated))
            && st'.snk.closed.Some?
            && (forall p | p in out :: p.req == st.id && K.IsEnd(p))
  {
    hide StreamInv, CloseWith, K.IsEnd, K.Decodable, K.Faithful;
    CloseWithFacts(cfg, st, Some(SessionTerminated), st.id < 0 || !st.abortable);
  }

  /** After Terminate no request is active, no id was forgotten, the tables are in order, and every
      formerly active stream is closed for writing and failed for reading, with all frames that it had
      accepted still to be read: a reader gets exactly those, then the end. */
  lemma TerminateInv(cfg: Config, ep: Endpoint, taken: set<int32>)
    requires Inv(ep)
    ensures var ep' := Terminated(cfg, ep, ep.reqs.Keys, taken);
            && ep'.reqs == map[] && Known(ep') == Known(ep) && Inv(ep')
            && (forall k | k in ep.reqs ::
                  k in ep'.retired && ep'.retired[k].snk.closed.Some? && ep'.retired[k].src.failed.Some?
                  && ep'.retired[k].got == ep.reqs[k].got && ep'.retired[k].taken == ep.reqs[k].taken)
  {
    hide StreamInv, TerminateOf, Inv;
    forall k | k in ep.reqs
      ensures var st := TerminateOf(cfg, ep, k, taken).0;
              && StreamInv(st) && st.id == k && st.snk.closed.Some? && st.src.failed.Some?
              && st.got == ep.reqs[k].got && st.taken == ep.reqs[k].taken
    {
      TerminateOfFacts(cfg, ep, k, taken);
    }
    var ep' := Terminated(cfg, ep, ep.reqs.Keys, taken);
    assert ep'.reqs.Keys == {};
    TerminatedInv(cfg, ep, taken);
  }

  lemma TerminatedInv(cfg: Config, ep: Endpoint, taken: set<int32>)
    requires Inv(ep)
    requires forall k | k in ep.reqs ::
               TerminateOf(cfg, ep, k, taken).0.id == k && StreamInv(TerminateOf(cfg, ep, k, taken).0)
    ensures Inv(Terminated(cfg, ep, ep.reqs.Keys, taken))
  {
    hide StreamInv, TerminateOf;
    assert Known(Terminated(cfg, ep, ep.reqs.Keys, taken)) == Known(ep);
  }

  lemma TerminateOfFacts(cfg: Config, ep: Endpoint, k: int32, taken: set<int32>)
    requires Inv(ep) && k in ep.reqs
    ensures var st := TerminateOf(cfg, ep, k, taken).0;
            && StreamInv(st) && st.id == k && st.snk.closed.Some? && st.src.failed.Some?
            && st.got == ep.reqs[k].got && st.taken == ep.reqs[k].taken
  {
    hide Inv, StreamInv, TerminateParts, K.IsEnd;
    IdOf(ep, k);
    TerminatePartsFacts(cfg.(goes := k in taken), ep.reqs[k]);
  }

  /** What is left to read on a stream after Terminate. */
  lemma TerminatedStreamDrains(cfg: Config, ep: Endpoint, k: int32)
    requires Inv(ep) && k in ep.reqs && |ep.reqs[k].got| - ep.reqs[k].taken < 0x1_0000_0000
    ensures var src := TerminateParts(cfg, ep.reqs[k]).0.src;
            && |src.buf.lenBuf| == 4 && ep.reqs[k].taken <= |ep.reqs[k].got|
            && S.Drain(src).1 == ep.reqs[k].got[ep.reqs[k].taken..] && S.PollNow(S.Drain(src).0) == S.Over
  {
    hide TerminateParts, S.Holding, S.Drain;
    TerminatePartsFacts(cfg, ep.reqs[k]);
    var st := TerminateParts(cfg, ep.reqs[k]).0;
    S.HoldingBounds(st.src, st.got, st.taken);
    S.FailedSourceDrains(st.src, st.got, st.taken);
  }

  // ---- Terminate, one request after the other ----

  /** No request terminated yet. */
  lemma TerminatedNone(cfg: Config, ep: Endpoint, taken: set<int32>)
    ensures Terminated(cfg, ep, {}, taken) == ep && ep.reqs.Keys - ep.reqs.Keys == {}
  {
    hide TerminateOf;
    assert ep.reqs - {} == ep.reqs && ep.closed + {} == ep.closed;
  }

  lemma TerminatedEntry(cfg: Config, ep: Endpoint, ks: set<int32>, k: int32, taken: set<int32>)
    requires ks <= ep.reqs.Keys && k in ep.reqs && k !in ks
    ensures k in Terminated(cfg, ep, ks, taken).reqs && Terminated(cfg, ep, ks, taken).reqs[k] == ep.reqs[k]
  {
    hide TerminateOf;
  }

  lemma TerminatedMaps(cfg: Config, ep: Endpoint, ks: set<int32>, k: int32, taken: set<int32>)
    requires ks <= ep.reqs.Keys && k in ep.reqs && k !in ks
    ensures ep.reqs - ks - {k} == ep.reqs - (ks + {k})
    ensures Terminated(cfg, ep, ks, taken).retired[k := TerminateOf(cfg, ep, k, taken).0]
         == Terminated(cfg, ep, ks + {k}, taken).retired
  {
    hide TerminateOf;
  }

  lemma TerminatedStep(cfg: Config, ep: Endpoint, ks: set<int32>, k: int32, taken: set<int32>)
    requires ks <= ep.reqs.Keys && k in ep.reqs && k !in ks && ep.reqs[k].id == k
    ensures Retire(Terminated(cfg, ep, ks, taken), TerminateOf(cfg, ep, k, taken).0)
         == Terminated(cfg, ep, ks + {k}, taken)
  {
    hide TerminateOf;
    TerminatePartsId(cfg.(goes := k in taken), ep.reqs[k]);
    assert TerminateOf(cfg, ep, k, taken).0.id == k by { TerminateOfId(cfg, ep, k, taken); }
    TerminatedMaps(cfg, ep, ks, k, taken);
    assert ep.closed + ks + {k} == ep.closed + (ks + {k});
  }

  lemma TerminatePartsId(cfg: Config, st: Stream)
    ensures TerminateParts(cfg, st).0.id == st.id
  {
    hide K.Close;
  }

  lemma TerminateOfId(cfg: Config, ep: Endpoint, k: int32, taken: set<int32>)
    requires k in ep.reqs
    ensures TerminateOf(cfg, ep, k, taken).0.id == ep.reqs[k].id
  {
    hide TerminateParts;
    TerminatePartsId(cfg.(goes := k in taken), ep.reqs[k]);
  }

  lemma IdsSnoc(order: seq<int32>, k: int32)
    ensures Ids(order + [k]) == Ids(order) + {k}
  {
  }

  /** The user actions that Terminate consists of. */
  function TerminateActs(ep: Endpoint, order: seq<int32>): seq<Act>
    requires Ids(order) <= ep.reqs.Keys
  {
    if order == [] then []
    else
      var k := order[|order| - 1];
      assert k in Ids(order) && Ids(order[..|order| - 1]) <= Ids(order);
      TerminateActs(ep, order[..|order| - 1])
      + CloseStreamActs(k, Some(SessionTerminated), ep.reqs[k].id < 0 || !ep.reqs[k].abortable)
  }

  lemma {:induction false} ActAllAppend(cfg: Config, ep: Endpoint, a: seq<Act>, b: seq<Act>)
    ensures var (ep1, out1) := ActAll(cfg, ep, a);
            var (ep2, out2) := ActAll(cfg, ep1, b);
            ActAll(cfg, ep, a + b) == (ep2, out1 + out2)
    decreases |a|
  {
    hide ActStep;
    if a == [] {
      assert a + b == b;
      var none: seq<Packet> := [];
      assert forall ps: seq<Packet> :: none + ps == ps;
    } else {
      assert (a + b)[1..] == a[1..] + b;
      var (ep1, out) := ActStep(cfg, ep, a[0]);
      ActAllAppend(cfg, ep1, a[1..], b);
      var (ep2, x) := ActAll(cfg, ep1, a[1..]);
      var y := ActAll(cfg, ep2, b).1;
      assert out + (x + y) == (out + x) + y;
    }
  }

  /** Terminate is these user actions, if every call has been opened. With the loop stopped afterwards,
      the runs that users' actions are part of cover it. */
  lemma {:induction false} TerminateIsActs(cfg: Config, ep: Endpoint, order: seq<int32>)
    requires Inv(ep) && DistinctIds(order) && Ids(order) <= ep.reqs.Keys
    requires forall k | k in order :: k !in ep.pending
    ensures var taken := if cfg.goes then ep.reqs.Keys else {};
            ActAll(cfg, ep, TerminateActs(ep, order))
            == (Terminated(cfg, ep, Ids(order), taken), Farewells(cfg, ep, order, taken))
    decreases |order|
  {
    hide Inv, StreamInv, ActAll, CloseStreamActs, CloseWith, TerminateOf, Terminated, Retire;
    var taken := if cfg.goes then ep.reqs.Keys else {};
    if order == [] {
      TerminatedNone(cfg, ep, taken);
      assert Ids(order) == {};
      assert ActAll(cfg, ep, []) == (ep, []) by { ActAllNone(cfg, ep); }
    } else {
      var k := order[|order| - 1];
      var front := order[..|order| - 1];
      assert order == front + [k];
      IdsSnoc(front, k);
      assert k !in Ids(front);
      TerminateIsActs(cfg, ep, front);
      TerminateOne(cfg, ep, Ids(front), k, taken);
      var acts := CloseStreamActs(k, Some(SessionTerminated), ep.reqs[k].id < 0 || !ep.reqs[k].abortable);
      ActAllAppend(cfg, ep, TerminateActs(ep, front), acts);
    }
  }

  lemma ActAllNone(cfg: Config, ep: Endpoint)
    ensures ActAll(cfg, ep, []) == (ep, [])
  {
  }

  lemma TerminateOne(cfg: Config, ep: Endpoint, ks: set<int32>, k: int32, taken: set<int32>)
    requires Inv(ep) && ks <= ep.reqs.Keys && k in ep.reqs && k !in ks && k !in ep.pending && cfg.goes == (k in taken)
    ensures var ep1 := Terminated(cfg, ep, ks, taken);
            var acts := CloseStreamActs(k, Some(SessionTerminated), ep.reqs[k].id < 0 || !ep.reqs[k].abortable);
            ActAll(cfg, ep1, acts) == (Terminated(cfg, ep, ks + {k}, taken), TerminateOf(cfg, ep, k, taken).1)
  {
    hide Inv, StreamInv, ActAll, CloseStreamActs, CloseWith, Retire;
    IdOf(ep, k);
    StreamLenBuf(ep.reqs[k]);
    TerminatedEntry(cfg, ep, ks, k, taken);
    TerminatedStep(cfg, ep, ks, k, taken);
    var ep1 := Terminated(cfg, ep, ks, taken);
    assert Inv(ep1) by { TerminatedSomeInv(cfg, ep, ks, taken); }
    assert With(ep1, ep.reqs[k]) == ep1;
    assert cfg.(goes := k in taken) == cfg;
    CloseStreamIsActs(cfg, ep1, ep.reqs[k], Some(SessionTerminated), ep.reqs[k].id < 0 || !ep.reqs[k].abortable);
  }

  lemma TerminatedSomeInv(cfg: Config, ep: Endpoint, ks: set<int32>, taken: set<int32>)
    requires Inv(ep) && ks <= ep.reqs.Keys
    ensures Inv(Terminated(cfg, ep, ks, taken))
  {
    hide StreamInv, TerminateOf;
    forall k | k in ks
      ensures StreamInv(TerminateOf(cfg, ep, k, taken).0) && TerminateOf(cfg, ep, k, taken).0.id == k
    {
      TerminateOfFacts(cfg, ep, k, taken);
    }
  }
}
