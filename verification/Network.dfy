/** Two endpoints joined by two FIFO channels: what they guarantee together. */
module Network {
  import opened Base
  import C = Codec
  import K = Sink
  import S = Source
  import F = FrameBuffer
  import opened Session

  // ---- state and steps ----

  /** Packets in flight in one direction. `inStep` turns false when the receiver leaves a body unread:
      from then on its next header is made of body bytes, and the model receives nothing more. */
  datatype Wire = Wire(pkts: seq<Packet>, inStep: bool)

  datatype Net = Net(a: Endpoint, b: Endpoint, ab: Wire, ba: Wire)

  function EndOf(net: Net, atA: bool): Endpoint { if atA then net.a else net.b }

  const START_NET: Net := Net(START, START, Wire([], true), Wire([], true))

  /** Both ends use the same JSON library and each has its own root handler. */
  datatype Setup = Setup(json: K.Json, handlesA: seq<string> -> bool, handlesB: seq<string> -> bool) {
    function A(): Config { Config(json, handlesA, true) }
    function B(): Config { Config(json, handlesB, true) }
  }

  /** What can happen at one end: its serve loop takes the next packet, or a user does something. */
  datatype Move = Deliver | Do(act: Act)

  predicate Deliverable(me: Endpoint, inw: Wire) { inw.pkts != [] && inw.inStep && me.serving }

  /** The end `me`, the wire towards it and the wire from it after a move. */
  function Local(cfg: Config, me: Endpoint, inw: Wire, outw: Wire, mv: Move): (Endpoint, Wire, Wire) {
    match mv
    case Deliver =>
      if !Deliverable(me, inw) then (me, inw, outw)
      else
        var fx := Receive(cfg, me, inw.pkts[0]);
        (fx.ep, Wire(inw.pkts[1..], fx.drained || inw.pkts[0].body == []), outw.(pkts := outw.pkts + fx.out))
    case Do(act) =>
      var (me', out) := ActStep(cfg, me, act);
      (me', inw, outw.(pkts := outw.pkts + out))
  }

  datatype NetEvent = AtA(mv: Move) | AtB(mv: Move)

  function NetStep(su: Setup, net: Net, ev: NetEvent): Net {
    match ev
    case AtA(mv) => var (a, ba, ab) := Local(su.A(), net.a, net.ba, net.ab, mv); Net(a, net.b, ab, ba)
    case AtB(mv) => var (b, ab, ba) := Local(su.B(), net.b, net.ab, net.ba, mv); Net(net.a, b, ab, ba)
  }

  /** Any list of events is a run; events that are not possible change nothing. */
  function NetRun(su: Setup, net: Net, evs: seq<NetEvent>): Net
    decreases |evs|
  {
    if evs == [] then net else NetRun(su, NetStep(su, net, evs[0]), evs[1..])
  }

  /** The JSON library is faithful and the connection takes what is written. */
  ghost predicate Works(cfg: Config) { K.Faithful(cfg.json) && cfg.goes }

  // ---- one stream, seen from its sender and its receiver ----

  /** Ids whose negation is another id. */
  predicate Id(q: int32) { q != 0 && q != -0x8000_0000 }

  /** `ended`: an end packet was sent. */
  datatype SendView = SendView(known: bool, pending: bool, sent: seq<Bytes>, ended: bool)

  /** `Taking`: in the table with a source that has not failed. `Shut`: accepts nothing more, and is
      still in the table if `active`. */
  datatype RecvView = Unknown | Taking(got: seq<Bytes>) | Shut(got: seq<Bytes>, active: bool)

  function SenderOf(ep: Endpoint, q: int32): SendView {
    SendView(q in Known(ep), q in ep.pending,
             if q in ep.reqs then ep.reqs[q].sent else if q in ep.retired then ep.retired[q].sent else [],
             if q in ep.reqs then ep.reqs[q].ended
             else if q in ep.retired then ep.retired[q].ended
             else q in ep.closed)   // a rejected call
  }

  function ReceiverOf(ep: Endpoint, i: int32): RecvView {
    if i in ep.reqs then
      if ep.reqs[i].src.failed.None? then Taking(ep.reqs[i].got) else Shut(ep.reqs[i].got, true)
    else if i in ep.retired then Shut(ep.retired[i].got, false)
    else if i in ep.closed then Shut([], false)
    else Unknown
  }

  function Got(rv: RecvView): seq<Bytes> { if rv.Unknown? then [] else rv.got }

  ghost predicate IsOpening(j: K.Json, p: Packet) {
    exists call: K.Call :: ClientType(call.typ) && p == Opening(j, p.req, call)
  }

  /** The protocol of one stream in one direction: sender's id `q`, whether the receiver is serving,
      what the sender and the receiver know, and the packets of the stream in flight between them. Own
      calls have positive ids. */
  ghost predicate InStep(j: K.Json, q: int32, live: bool, sv: SendView, rv: RecvView, pk: seq<Packet>) {
    if !sv.known then pk == [] && (q > 0 ==> rv.Unknown?) && Got(rv) == []
    else if sv.pending then pk == [] && rv.Unknown? && sv.sent == [] && !sv.ended
    else if live && sv.ended && !HasEnd(pk) && !(rv.Shut? && !rv.active) then false
    else if rv.Unknown? then live ==> q > 0 && pk != [] && IsOpening(j, pk[0]) && DataBodies(pk[1..]) == sv.sent
    else (rv.Taking? ==> rv.got + DataBodies(pk) == sv.sent) && rv.got <= sv.sent
  }

  ghost predicate StreamAt(j: K.Json, s: Endpoint, r: Endpoint, wire: seq<Packet>, q: int32) {
    InStep(j, q, r.serving, SenderOf(s, q), ReceiverOf(r, Neg32(q)), Filter(wire, q))
  }

  ghost predicate GoodPacket(j: K.Json, p: Packet) { C.Sendable(p) && Id(p.req) && K.Decodable(j, p) }

  ghost predicate GoodWire(j: K.Json, ps: seq<Packet>) { forall p | p in ps :: GoodPacket(j, p) }

  ghost predicate GoodEndpoint(ep: Endpoint) { Inv(ep) && (forall k | k in Known(ep) :: Id(k)) }

  ghost predicate Linked(j: K.Json, me: Endpoint, peer: Endpoint, inw: seq<Packet>, outw: seq<Packet>) {
    && GoodEndpoint(me) && GoodEndpoint(peer) && GoodWire(j, inw) && GoodWire(j, outw)
    && (forall q | Id(q) :: StreamAt(j, me, peer, outw, q))
    && (forall q | Id(q) :: StreamAt(j, peer, me, inw, q))
  }

  ghost predicate NetInv(j: K.Json, net: Net) { Linked(j, net.a, net.b, net.ba.pkts, net.ab.pkts) }

  // ---- one stream, step by step ----

  /** What the sender has sent after these packets. */
  function Sent(sv: SendView, out: seq<Packet>): SendView {
    sv.(sent := sv.sent + DataBodies(out), ended := sv.ended || HasEnd(out))
  }

  /** The sender puts packets of the stream on the wire and records what was data. */
  lemma SendKeeps(j: K.Json, q: int32, live: bool, sv: SendView, rv: RecvView, pk: seq<Packet>, out: seq<Packet>)
    requires InStep(j, q, live, sv, rv, pk) && sv.known && !sv.pending
    ensures InStep(j, q, live, Sent(sv, out), rv, pk + out)
  {
    hide IsOpening, K.IsEnd, DataBodies;
    DataBodiesAppend(pk, out);
    assert HasEnd(pk) || HasEnd(out) ==> HasEnd(pk + out) by { EndAppend(pk, out); }
    if rv.Unknown? && live {
      assert (pk + out)[1..] == pk[1..] + out;
      DataBodiesAppend(pk[1..], out);
    } else if rv.Taking? {
      assert rv.got + (DataBodies(pk) + DataBodies(out)) == sv.sent + DataBodies(out);
    }
  }

  lemma EndAppend(a: seq<Packet>, b: seq<Packet>)
    ensures HasEnd(a + b) <==> HasEnd(a) || HasEnd(b)
  {
    hide K.IsEnd;
    if HasEnd(a) {
      var p :| p in a && K.IsEnd(p);
      assert p in a + b;
    }
    if HasEnd(b) {
      var p :| p in b && K.IsEnd(p);
      assert p in a + b;
    }
  }

  lemma EndFirst(p: Packet, rest: seq<Packet>)
    ensures HasEnd([p] + rest) <==> K.IsEnd(p) || HasEnd(rest)
  {
    hide K.IsEnd;
    EndAppend([p], rest);
    assert p in [p];
  }

  /** The receiver stops accepting, and may leave the table: what it has is a prefix of what was sent. */
  lemma ShutKeeps(j: K.Json, q: int32, live: bool, sv: SendView, rv: RecvView, pk: seq<Packet>, active: bool)
    requires InStep(j, q, live, sv, rv, pk) && !rv.Unknown? && (rv.Shut? && !rv.active ==> !active)
    ensures InStep(j, q, live, sv, Shut(rv.got, active), pk)
  {
    hide IsOpening, HasEnd;
  }

  /** What the receiver makes of the next packet of a stream it knows. Data for a source that has failed
      closes the stream, like an end packet. */
  function Next(rv: RecvView, p: Packet): RecvView {
    match rv
    case Unknown => Unknown
    case Taking(got) => if K.IsEnd(p) then Shut(got, false) else Taking(got + [p.body])
    case Shut(got, _) => Shut(got, false)
  }

  lemma ReceiveKeeps(j: K.Json, q: int32, live: bool, sv: SendView, rv: RecvView, p: Packet, rest: seq<Packet>)
    requires InStep(j, q, live, sv, rv, [p] + rest) && !rv.Unknown?
    ensures InStep(j, q, live, sv, Next(rv, p), rest)
  {
    hide IsOpening, K.IsEnd, HasEnd, DataBodies;
    EndFirst(p, rest);
    DataFirst(p, rest);
    if rv.Taking? {
      if K.IsEnd(p) {
        assert [] + DataBodies(rest) == DataBodies(rest);
      } else {
        assert rv.got + ([p.body] + DataBodies(rest)) == rv.got + [p.body] + DataBodies(rest);
        assert rv.got + [p.body] <= sv.sent;
      }
    }
  }

  lemma DataFirst(p: Packet, rest: seq<Packet>)
    ensures DataBodies([p] + rest) == (if K.IsEnd(p) then [] else [p.body]) + DataBodies(rest)
  {
    hide K.IsEnd;
    assert ([p] + rest)[1..] == rest;
  }

  /** The opening packet arrives; the receiver opens the stream or rejects it. */
  lemma OpeningKeeps(j: K.Json, q: int32, sv: SendView, p: Packet, rest: seq<Packet>, rv': RecvView)
    requires InStep(j, q, true, sv, Unknown, [p] + rest) && rv' in {Taking([]), Shut([], false)} && !K.IsEnd(p)
    ensures q > 0 && IsOpening(j, p) && InStep(j, q, true, sv, rv', rest)
  {
    hide IsOpening, K.IsEnd, HasEnd;
    EndFirst(p, rest);
    assert ([p] + rest)[1..] == rest;
    assert [] + DataBodies(rest) == DataBodies(rest);
  }

  // ---- what a move does to the views ----

  /** Only the stream `i` may have changed. */
  ghost predicate SameElsewhere(ep: Endpoint, ep': Endpoint, i: int32) {
    forall q | q != i :: SenderOf(ep', q) == SenderOf(ep, q) && ReceiverOf(ep', q) == ReceiverOf(ep, q)
  }

  lemma RetireViews(ep: Endpoint, st: Stream)
    requires Inv(ep) && st.id in ep.reqs
    ensures SameElsewhere(ep, Retire(ep, st), st.id)
    ensures ReceiverOf(Retire(ep, st), st.id) == Shut(st.got, false)
    ensures SenderOf(Retire(ep, st), st.id) == SendView(true, st.id in ep.pending, st.sent, st.ended)
  {
    hide StreamInv;
  }

  lemma CloseStreamViews(cfg: Config, ep: Endpoint, st: Stream, err: Option<Error>, drained: bool)
    requires Inv(ep) && st.id in ep.reqs && StreamInv(st)
    ensures var fx := CloseStream(cfg, ep, st, err, drained);
            && SameElsewhere(ep, fx.ep, st.id)
            && ReceiverOf(fx.ep, st.id) == Shut(st.got, false)
            && SenderOf(fx.ep, st.id) == SendView(true, st.id in ep.pending, st.sent, st.ended || HasEnd(fx.out))
            && fx.ep.serving == ep.serving
            && (K.Faithful(cfg.json) ==> forall p | p in fx.out :: K.Decodable(cfg.json, p))
  {
    hide StreamInv, CloseParts, K.Decodable, K.Faithful, K.IsEnd;
    ClosePartsFacts(cfg, st, err);
    EndsOnly(CloseParts(cfg, st, err).1);
    RetireViews(ep, CloseParts(cfg, st, err).0);
  }

  lemma EndsOnly(out: seq<Packet>)
    requires forall p | p in out :: K.IsEnd(p)
    ensures HasEnd(out) <==> out != []
  {
    hide K.IsEnd;
    if out != [] {
      assert out[0] in out;
    }
  }

  /** Receiving a packet of a known stream. */
  ghost predicate KnownEffect(cfg: Config, ep: Endpoint, i: int32, p: Packet, fx: Effect) {
    && SameElsewhere(ep, fx.ep, i)
    && ReceiverOf(fx.ep, i) == Next(ReceiverOf(ep, i), p)
    && SenderOf(fx.ep, i) == SenderOf(ep, i).(ended := SenderOf(ep, i).ended || HasEnd(fx.out))
    && fx.fatal.None? && fx.ep.serving == ep.serving
    && (fx.drained || (!K.IsEnd(p) && i in ep.reqs && ep.reqs[i].src.failed.Some?))
    && (forall o | o in fx.out :: o.req == i && K.IsEnd(o) && C.Sendable(o) && K.Decodable(cfg.json, o))
  }

  lemma EndOfKnown(cfg: Config, ep: Endpoint, p: Packet)
    requires GoodEndpoint(ep) && GoodPacket(cfg.json, p) && Works(cfg)
    requires Neg32(p.req) in Known(ep) && K.IsEnd(p)
    ensures KnownEffect(cfg, ep, Neg32(p.req), p, Receive(cfg, ep, p))
  {
    hide StreamInv, CloseStream, K.IsEnd, K.Faithful, C.Sendable, ReceiveData, ReceiveCall, KnownEffect;
    var i := Neg32(p.req);
    if i in ep.reqs {
      if p.body == K.TRUE {
        ClosingEffect(cfg, ep, i, p, None, true);
      } else {
        var e := cfg.json.decErr(p.body);
        assert e.Some?;
        ClosingEffect(cfg, ep, i, p, Some(CallError(e.value.0, e.value.1)), true);
      }
    } else {
      IgnoredEffect(cfg, ep, i, p);
    }
  }

  lemma ClosingEffect(cfg: Config, ep: Endpoint, i: int32, p: Packet, err: Option<Error>, drained: bool)
    requires GoodEndpoint(ep) && Works(cfg) && i in ep.reqs
    requires if K.IsEnd(p) then drained else ep.reqs[i].src.failed.Some?
    ensures KnownEffect(cfg, ep, i, p, CloseStream(cfg, ep, ep.reqs[i], err, drained))
  {
    hide StreamInv, CloseStream, K.IsEnd, K.Faithful, K.Decodable, C.Sendable, Inv, HasEnd;
    IdOf(ep, i);
    ActiveViews(ep, i);
    CloseStreamFacts(cfg, ep, ep.reqs[i], err, drained);
    CloseStreamViews(cfg, ep, ep.reqs[i], err, drained);
  }

  /** A packet for a stream that is closed already. */
  lemma IgnoredEffect(cfg: Config, ep: Endpoint, i: int32, p: Packet)
    requires Inv(ep) && i in ep.closed
    ensures KnownEffect(cfg, ep, i, p, Effect(ep, [], true, None))
  {
    hide StreamInv, K.IsEnd;
  }

  lemma DataOfKnown(cfg: Config, ep: Endpoint, p: Packet)
    requires GoodEndpoint(ep) && GoodPacket(cfg.json, p) && Works(cfg)
    requires Neg32(p.req) in Known(ep) && !K.IsEnd(p)
    ensures KnownEffect(cfg, ep, Neg32(p.req), p, Receive(cfg, ep, p))
  {
    hide StreamInv, K.IsEnd, K.Faithful, K.Decodable, ReceiveEnd, ReceiveData, ReceiveCall, KnownEffect;
    var i := Neg32(p.req);
    if i in ep.reqs {
      DataOfActive(cfg, ep, i, p);
    } else {
      IgnoredEffect(cfg, ep, i, p);
    }
  }

  lemma DataOfActive(cfg: Config, ep: Endpoint, i: int32, p: Packet)
    requires GoodEndpoint(ep) && GoodPacket(cfg.json, p) && Works(cfg) && i in ep.reqs && !K.IsEnd(p)
    ensures KnownEffect(cfg, ep, i, p, ReceiveData(cfg, ep, ep.reqs[i], p.flag, Wrap32(|p.body|), p.body))
  {
    hide StreamInv, CloseStream, K.IsEnd, K.Faithful, K.Decodable, S.Consume, KnownEffect, Inv;
    IdOf(ep, i);
    var st := ep.reqs[i];
    ConsumeFacts(st, p.flag, p.body);
    var (src, err) := S.Consume(st.src, Wrap32(|p.body|), p.flag, F.Body(p.body, false));
    if err.Some? {
      assert st.(src := src) == st;
      ClosingEffect(cfg, ep, i, p, err, false);
    } else {
      AcceptedEffect(cfg, ep, st.(src := src, got := st.got + [p.body]), p);
    }
  }

  lemma AcceptedEffect(cfg: Config, ep: Endpoint, st: Stream, p: Packet)
    requires Inv(ep) && st.id in ep.reqs && ep.reqs[st.id].src.failed.None? && !K.IsEnd(p)
    requires st == ep.reqs[st.id].(src := st.src, got := ep.reqs[st.id].got + [p.body]) && st.src.failed.None?
    ensures KnownEffect(cfg, ep, st.id, p, Effect(ep.(reqs := ep.reqs[st.id := st]), [], true, None))
  {
    hide StreamInv, K.IsEnd;
  }

  lemma AcceptViews(ep: Endpoint, st: Stream, calls: seq<int32>)
    requires Inv(ep) && st.id !in Known(ep) && st.src.failed.None? && st.got == st.sent == []
    ensures var ep' := ep.(reqs := ep.reqs[st.id := st], calls := calls);
            && SameElsewhere(ep, ep', st.id) && ReceiverOf(ep', st.id) == Taking([])
            && SenderOf(ep', st.id) == SendView(true, false, [], st.ended)
  {
    hide StreamInv;
  }

  lemma RejectViews(ep: Endpoint, i: int32)
    requires Inv(ep) && i !in Known(ep)
    ensures var ep' := ep.(closed := ep.closed + {i});
            && SameElsewhere(ep, ep', i) && ReceiverOf(ep', i) == Shut([], false)
            && SenderOf(ep', i) == SendView(true, false, [], true)
  {
    hide StreamInv;
  }

  /** Receiving the opening packet of an unknown stream: it is opened or rejected. */
  ghost predicate OpeningEffect(cfg: Config, ep: Endpoint, i: int32, fx: Effect) {
    && SameElsewhere(ep, fx.ep, i)
    && (ReceiverOf(fx.ep, i) == Taking([]) || ReceiverOf(fx.ep, i) == Shut([], false))
    && SenderOf(fx.ep, i) == SendView(true, false, [], HasEnd(fx.out))
    && fx.fatal.None? && fx.ep.serving == ep.serving && fx.drained
    && (forall o | o in fx.out :: o.req == i && K.IsEnd(o) && C.Sendable(o) && K.Decodable(cfg.json, o))
  }

  /** The packet opens a call that must be rejected but whose rejection is too large to send. */
  ghost predicate Unanswerable(cfg: Config, p: Packet) {
    exists call: K.Call ::
      ClientType(call.typ) && p == Opening(cfg.json, p.req, call)
      && !cfg.handles(call.path) && !K.Answerable(cfg.json, call.path)
  }

  lemma OpeningOfUnknown(cfg: Config, ep: Endpoint, p: Packet)
    requires GoodEndpoint(ep) && Works(cfg) && Id(p.req)
    requires Neg32(p.req) !in Known(ep) && p.req > 0 && IsOpening(cfg.json, p)
    ensures var fx := Receive(cfg, ep, p);
            if Unanswerable(cfg, p) then fx == Fatal(ep, TooLarge, true)
            else OpeningEffect(cfg, ep, Neg32(p.req), fx)
    ensures !K.IsEnd(p)
  {
    hide StreamInv, K.EndErr, K.EndOkay, K.Decodable, K.IsEnd, C.Sendable, Receive, Opening, Inv,
         SenderOf, ReceiverOf, SameElsewhere, K.Faithful, K.Answerable, CallPacket, IsStream;
    var i := Neg32(p.req);
    var call: K.Call :| ClientType(call.typ) && p == Opening(cfg.json, p.req, call)
                        && (Unanswerable(cfg, p) ==> !cfg.handles(call.path) && !K.Answerable(cfg.json, call.path));
    var stream := StreamType(call.typ);
    OpeningIsCall(cfg, p.req, call);
    ReceiveOpening(cfg, ep, p, call);
    if cfg.handles(call.path) {
      AcceptViews(ep, NewStream(i, if stream then C.FLAG_STREAM else C.NO_FLAGS, true), ep.calls + [i]);
    } else if K.Answerable(cfg.json, call.path) {
      RejectViews(ep, i);
      K.EndsAreEnds(cfg.json, i, stream, NoSuchMethod(call.path));
      K.EndFields(cfg.json, i, stream, NoSuchMethod(call.path));
      RejectedSendable(cfg.json, i, stream, call.path);
    }
  }

  lemma RejectedSendable(j: K.Json, i: int32, stream: bool, path: seq<string>)
    requires K.Answerable(j, path)
    ensures C.Sendable(K.EndErr(j, i, stream, NoSuchMethod(path)))
  {
    hide K.EndOkay, K.Text, C.ToByte;
    K.EndsAreEnds(j, i, stream, NoSuchMethod(path));
  }

  lemma UserViews(cfg: Config, ep: Endpoint, k: int32, op: UserOp)
    requires Inv(ep) && k !in ep.pending && k in ep.reqs.Keys + ep.retired.Keys
    ensures var (ep', out) := ActStep(cfg, ep, User(k, op));
            && SameElsewhere(ep, ep', k)
            && (forall o | o in out :: o.req == k && C.Sendable(o))
            && (K.Faithful(cfg.json) ==> forall o | o in out :: K.Decodable(cfg.json, o))
            && SenderOf(ep', k) == Sent(SenderOf(ep, k), out)
            && SenderOf(ep, k).known && !SenderOf(ep, k).pending && !ReceiverOf(ep, k).Unknown?
            && (ReceiverOf(ep', k) == ReceiverOf(ep, k)
                || (ReceiverOf(ep, k).Taking? && ReceiverOf(ep', k) == Shut(ReceiverOf(ep, k).got, true)))
  {
    hide StreamInv, UserStep, K.Decodable, C.Sendable, K.Faithful, DataBodies, HasEnd, FirstEnd, Or;
    if k in ep.reqs {
      UserStepFacts(cfg, ep.reqs[k], op);
    } else {
      UserStepFacts(cfg, ep.retired[k], op);
    }
  }

  lemma AllocateViews(cfg: Config, ep: Endpoint, call: K.Call, re: K.Encoding, abortable: bool)
    requires Inv(ep) && 0 <= ep.highest < MAX_INT32 && ClientType(call.typ)
    ensures var k := ep.highest + 1;
            var (ep', out) := ActStep(cfg, ep, Allocate(call, re, abortable));
            && SameElsewhere(ep, ep', k) && out == []
            && !SenderOf(ep, k).known && SenderOf(ep', k) == SendView(true, true, [], false)
            && ReceiverOf(ep', k) == Taking([])
            && k !in Known(ep) && Known(ep') == Known(ep) + {k}
  {
    hide StreamInv, ClientFlag;
  }

  lemma OpenViews(cfg: Config, ep: Endpoint, k: int32)
    requires Inv(ep) && cfg.goes && k in ep.pending && C.Fits(Opening(cfg.json, k, ep.pending[k]))
    ensures var (ep', out) := ActStep(cfg, ep, Session.Open(k));
            && SameElsewhere(ep, ep', k) && out == [Opening(cfg.json, k, ep.pending[k])]
            && SenderOf(ep, k).known && SenderOf(ep, k).pending
            && SenderOf(ep', k) == SenderOf(ep, k).(pending := false)
            && ReceiverOf(ep', k) == ReceiverOf(ep, k) && Known(ep') == Known(ep)
  {
    hide StreamInv, Opening;
  }

  // ---- every move keeps every stream in step ----

  /** A move that touches one stream keeps the others; `i` is its id at `me`. */
  lemma OthersKept(j: K.Json, me: Endpoint, me': Endpoint, peer: Endpoint,
                   inw: seq<Packet>, inw': seq<Packet>, outw: seq<Packet>, out: seq<Packet>, i: int32)
    requires Linked(j, me, peer, inw, outw) && Id(i)
    requires SameElsewhere(me, me', i) && GoodEndpoint(me') && me'.serving == me.serving
    requires inw' == inw || (inw != [] && inw' == inw[1..] && inw[0].req == Neg32(i))
    requires forall o | o in out :: o.req == i && C.Sendable(o) && K.Decodable(j, o)
    requires StreamAt(j, me', peer, outw + out, i) && StreamAt(j, peer, me', inw', Neg32(i))
    ensures Linked(j, me', peer, inw', outw + out)
  {
    hide InStep, C.Sendable, K.Decodable, Inv, SenderOf, ReceiverOf;
    forall q | Id(q)
      ensures StreamAt(j, me', peer, outw + out, q)
    {
      if q != i {
        FilterAppend(outw, out, q);
        FilterNone(out, q);
        assert Filter(outw + out, q) == Filter(outw, q);
        assert StreamAt(j, me, peer, outw, q);
      }
    }
    forall q | Id(q)
      ensures StreamAt(j, peer, me', inw', q)
    {
      if q != Neg32(i) {
        assert StreamAt(j, peer, me, inw, q);
        assert Neg32(q) != i;
        if inw' != inw {
          assert inw[0].req != q;
          assert Filter(inw, q) == [] + Filter(inw[1..], q) == Filter(inw', q);
        }
      }
    }
  }

  lemma GoodIds(ep: Endpoint, ep': Endpoint, i: int32)
    requires GoodEndpoint(ep) && Inv(ep') && Known(ep') <= Known(ep) + {i} && Id(i)
    ensures GoodEndpoint(ep')
  {
    hide Inv;
  }

  /** A packet of a stream that `me` knows. */
  lemma DeliverKnown(cfg: Config, me: Endpoint, peer: Endpoint, inw: seq<Packet>, outw: seq<Packet>)
    requires Linked(cfg.json, me, peer, inw, outw) && Works(cfg) && inw != []
    requires Neg32(inw[0].req) in Known(me)
    ensures var fx := Receive(cfg, me, inw[0]);
            && KnownEffect(cfg, me, Neg32(inw[0].req), inw[0], fx)
            && Linked(cfg.json, fx.ep, peer, inw[1..], outw + fx.out)
  {
    hide InStep, C.Sendable, K.Decodable, K.IsEnd, Inv, Receive, K.Faithful, SenderOf, ReceiverOf, DataBodies,
         SameElsewhere;
    var p := inw[0];
    var i := Neg32(p.req);
    assert GoodPacket(cfg.json, p);
    assert C.Fits(p) by { SendableFits(p); }
    ReceiveInv(cfg, me, p);
    if K.IsEnd(p) {
      EndOfKnown(cfg, me, p);
    } else {
      DataOfKnown(cfg, me, p);
    }
    var fx := Receive(cfg, me, p);
    GoodIds(me, fx.ep, i);
    assert inw == [p] + inw[1..];
    assert StreamAt(cfg.json, peer, me, inw, p.req);
    KnownMeansReceiver(me, i);
    ReceiveKeeps(cfg.json, p.req, fx.ep.serving, SenderOf(peer, p.req), ReceiverOf(me, i), p, Filter(inw[1..], p.req));
    assert StreamAt(cfg.json, me, peer, outw, i);
    FilterAppend(outw, fx.out, i);
    FilterAll(fx.out, i);
    NoData(fx.out);
    SenderIsOpen(cfg.json, me, peer, inw, outw, i);
    SendKeeps(cfg.json, i, peer.serving, SenderOf(me, i), ReceiverOf(peer, p.req), Filter(outw, i), fx.out);
    assert SenderOf(me, i).sent + [] == SenderOf(me, i).sent;
    OthersKept(cfg.json, me, fx.ep, peer, inw, inw[1..], outw, fx.out, i);
  }

  lemma SendableFits(p: Packet)
    requires C.Sendable(p)
    ensures C.Fits(p)
  {
  }

  lemma KnownMeansReceiver(ep: Endpoint, i: int32)
    ensures i in Known(ep) ==> !ReceiverOf(ep, i).Unknown?
    ensures Inv(ep) && i !in Known(ep) ==> ReceiverOf(ep, i).Unknown?
  {
    hide StreamInv;
  }

  /** If a packet for `i` is in flight to `me`, then `i` is not a call that `me` has yet to open. */
  lemma SenderIsOpen(j: K.Json, me: Endpoint, peer: Endpoint, inw: seq<Packet>, outw: seq<Packet>, i: int32)
    requires Linked(j, me, peer, inw, outw) && Id(i) && Filter(inw, Neg32(i)) != []
    requires i in Known(me)
    ensures SenderOf(me, i).known && !SenderOf(me, i).pending
  {
    hide C.Sendable, K.Decodable, K.IsEnd, StreamInv, Inv, IsOpening, DataBodies;
    assert StreamAt(j, me, peer, outw, i);
    assert StreamAt(j, peer, me, inw, Neg32(i));
    KnownMeansReceiver(peer, Neg32(i));
  }

  /** A packet of a stream that `me` does not know is the opening packet of a call of the peer. */
  lemma UnknownIsOpening(j: K.Json, me: Endpoint, peer: Endpoint, inw: seq<Packet>, outw: seq<Packet>)
    requires Linked(j, me, peer, inw, outw) && inw != [] && me.serving
    requires Neg32(inw[0].req) !in Known(me)
    ensures inw[0].req > 0 && IsOpening(j, inw[0])
  {
    hide C.Sendable, K.Decodable, K.IsEnd, StreamInv, IsOpening, DataBodies, Inv;
    var p := inw[0];
    var i := Neg32(p.req);
    assert GoodPacket(j, p);
    assert StreamAt(j, peer, me, inw, p.req);
    KnownMeansReceiver(me, i);
    assert Filter(inw, p.req)[0] == p;
  }

  lemma DeliverOpening(cfg: Config, me: Endpoint, peer: Endpoint, inw: seq<Packet>, outw: seq<Packet>)
    requires Linked(cfg.json, me, peer, inw, outw) && Works(cfg) && inw != [] && me.serving
    requires Neg32(inw[0].req) !in Known(me) && !Unanswerable(cfg, inw[0])
    ensures var fx := Receive(cfg, me, inw[0]);
            && OpeningEffect(cfg, me, Neg32(inw[0].req), fx) && !K.IsEnd(inw[0])
            && Linked(cfg.json, fx.ep, peer, inw[1..], outw + fx.out)
  {
    hide C.Sendable, K.Decodable, K.IsEnd, Inv, Receive, K.Faithful, IsOpening, StreamInv, Unanswerable, DataBodies,
         InStep, SenderOf, ReceiverOf;
    var p := inw[0];
    var i := Neg32(p.req);
    assert GoodPacket(cfg.json, p);
    assert C.Fits(p) by { SendableFits(p); }
    UnknownIsOpening(cfg.json, me, peer, inw, outw);
    OpeningOfUnknown(cfg, me, p);
    ReceiveInv(cfg, me, p);
    var fx := Receive(cfg, me, p);
    GoodIds(me, fx.ep, i);
    assert inw == [p] + inw[1..];
    assert StreamAt(cfg.json, peer, me, inw, p.req);
    KnownMeansReceiver(me, i);
    OpeningKeeps(cfg.json, p.req, SenderOf(peer, p.req), p, Filter(inw[1..], p.req), ReceiverOf(fx.ep, i));
    assert StreamAt(cfg.json, me, peer, outw, i);
    FilterAppend(outw, fx.out, i);
    FilterAll(fx.out, i);
    NoData(fx.out);
    AnswerStarts(cfg.json, me, peer, inw, outw, i, fx.out);
    OthersKept(cfg.json, me, fx.ep, peer, inw, inw[1..], outw, fx.out, i);
  }

  /** The serve loop ends on a call that it cannot reject. Nothing reaches the end any more. */
  lemma DeliverUnanswerable(cfg: Config, me: Endpoint, peer: Endpoint, inw: seq<Packet>, outw: seq<Packet>)
    requires Linked(cfg.json, me, peer, inw, outw) && Works(cfg) && inw != [] && me.serving
    requires Neg32(inw[0].req) !in Known(me) && Unanswerable(cfg, inw[0])
    ensures var fx := Receive(cfg, me, inw[0]);
            && fx == Fatal(me, TooLarge, true) && !K.IsEnd(inw[0]) && IsOpening(cfg.json, inw[0]) && inw[0].req > 0
            && Linked(cfg.json, fx.ep, peer, inw[1..], outw + fx.out)
  {
    hide C.Sendable, K.Decodable, K.IsEnd, Inv, Receive, K.Faithful, IsOpening, StreamInv, Unanswerable;
    var p := inw[0];
    assert GoodPacket(cfg.json, p);
    UnknownIsOpening(cfg.json, me, peer, inw, outw);
    OpeningOfUnknown(cfg, me, p);
    StoppedKeeps(cfg.json, me, peer, inw, outw);
  }

  lemma StoppedKeeps(j: K.Json, me: Endpoint, peer: Endpoint, inw: seq<Packet>, outw: seq<Packet>)
    requires Linked(j, me, peer, inw, outw) && inw != []
    requires Neg32(inw[0].req) !in Known(me)
    ensures Linked(j, me.(serving := false), peer, inw[1..], outw + [])
  {
    hide InStep, GoodPacket, StreamInv, Inv, Filter, SenderOf, ReceiverOf;
    var me' := me.(serving := false);
    assert GoodEndpoint(me') by { NotServingInv(me); }
    assert outw + [] == outw;
    forall q | Id(q)
      ensures StreamAt(j, me', peer, outw, q)
    {
      assert StreamAt(j, me, peer, outw, q) && SenderOf(me', q) == SenderOf(me, q) by { hide InStep; SameViews(me, q); }
    }
    forall q | Id(q)
      ensures StreamAt(j, peer, me', inw[1..], q)
    {
      assert StreamAt(j, peer, me, inw, q);
      SameViews(me, Neg32(q));
      assert ReceiverOf(me, Neg32(inw[0].req)) == Unknown by { KnownMeansReceiver(me, Neg32(inw[0].req)); }
      StoppedStream(j, q, me.serving, SenderOf(peer, q), ReceiverOf(me, Neg32(q)), inw);
    }
  }

  lemma SameViews(ep: Endpoint, i: int32)
    ensures SenderOf(ep.(serving := false), i) == SenderOf(ep, i)
    ensures ReceiverOf(ep.(serving := false), i) == ReceiverOf(ep, i)
  {
  }

  /** Without the packet that the loop stopped on, a stream is in step with a receiver that is not
      serving any more. */
  lemma StoppedStream(j: K.Json, q: int32, live: bool, sv: SendView, rv: RecvView, inw: seq<Packet>)
    requires inw != [] && InStep(j, q, live, sv, rv, Filter(inw, q))
    requires q == inw[0].req ==> rv.Unknown?
    ensures InStep(j, q, false, sv, rv, Filter(inw[1..], q))
  {
    hide IsOpening, DataBodies;
    if q != inw[0].req {
      assert Filter(inw, q) == Filter(inw[1..], q);
    }
  }

  /** The other direction of a stream that was just opened or rejected: nothing was sent yet. */
  lemma AnswerStarts(j: K.Json, me: Endpoint, peer: Endpoint, inw: seq<Packet>, outw: seq<Packet>, i: int32,
                     out: seq<Packet>)
    requires Linked(j, me, peer, inw, outw) && Id(i) && i < 0 && i !in Known(me)
    requires Filter(inw, Neg32(i)) != [] && DataBodies(out) == []
    ensures InStep(j, i, peer.serving, SendView(true, false, [], HasEnd(out)), ReceiverOf(peer, Neg32(i)),
                   Filter(outw, i) + out)
  {
    hide C.Sendable, K.Decodable, K.IsEnd, StreamInv, IsOpening, DataBodies, Inv;
    assert StreamAt(j, me, peer, outw, i);
    assert StreamAt(j, peer, me, inw, Neg32(i));
    KnownMeansReceiver(peer, Neg32(i));
    assert [] + out == out;
  }

  lemma ActUser(cfg: Config, me: Endpoint, peer: Endpoint, inw: seq<Packet>, outw: seq<Packet>, k: int32, op: UserOp)
    requires Linked(cfg.json, me, peer, inw, outw) && Works(cfg)
    ensures var (me', out) := ActStep(cfg, me, User(k, op));
            Linked(cfg.json, me', peer, inw, outw + out)
  {
    hide InStep, C.Sendable, K.Decodable, K.IsEnd, StreamInv, IsOpening, DataBodies, K.Faithful, UserStep, Sent,
         SameElsewhere, Inv;
    if k !in me.pending && k in me.reqs.Keys + me.retired.Keys {
      UserViews(cfg, me, k, op);
      ActInv(cfg, me, User(k, op));
      ActServing(cfg, me, User(k, op));
      var (me', out) := ActStep(cfg, me, User(k, op));
      assert Id(k) by { assert k in Known(me); }
      assert Known(me') == Known(me);
      assert StreamAt(cfg.json, me, peer, outw, k) && StreamAt(cfg.json, peer, me, inw, Neg32(k));
      FilterAppend(outw, out, k);
      FilterAll(out, k);
      SendKeeps(cfg.json, k, peer.serving, SenderOf(me, k), ReceiverOf(peer, Neg32(k)), Filter(outw, k), out);
      if ReceiverOf(me', k) != ReceiverOf(me, k) {
        ShutKeeps(cfg.json, Neg32(k), me.serving, SenderOf(peer, Neg32(k)), ReceiverOf(me, k),
                  Filter(inw, Neg32(k)), true);
      }
      OthersKept(cfg.json, me, me', peer, inw, inw, outw, out, k);
    } else {
      assert outw + [] == outw;
    }
  }

  lemma ActiveViews(ep: Endpoint, k: int32)
    requires k in ep.reqs
    ensures SenderOf(ep, k) == SendView(true, k in ep.pending, ep.reqs[k].sent, ep.reqs[k].ended)
    ensures ReceiverOf(ep, k) != Unknown && ReceiverOf(ep, k).got == ep.reqs[k].got
  {
  }

  lemma ActForget(cfg: Config, me: Endpoint, peer: Endpoint, inw: seq<Packet>, outw: seq<Packet>, k: int32)
    requires Linked(cfg.json, me, peer, inw, outw) && k in me.reqs && k !in me.pending
    ensures Linked(cfg.json, Retire(me, me.reqs[k]), peer, inw, outw + [])
  {
    hide InStep, C.Sendable, K.Decodable, K.IsEnd, StreamInv, IsOpening, DataBodies, SenderOf, ReceiverOf, Filter,
         SameElsewhere, Inv;
    IdOf(me, k);
    KnownMeansReceiver(me, k);
    ActiveViews(me, k);
    var me' := Retire(me, me.reqs[k]);
    RetireInv(me, me.reqs[k]);
    RetireViews(me, me.reqs[k]);
    assert Id(k) by { assert k in Known(me); }
    assert StreamAt(cfg.json, me, peer, outw, k) && StreamAt(cfg.json, peer, me, inw, Neg32(k));
    ShutKeeps(cfg.json, Neg32(k), me.serving, SenderOf(peer, Neg32(k)), ReceiverOf(me, k),
                Filter(inw, Neg32(k)), false);
    assert outw + [] == outw;
    OthersKept(cfg.json, me, me', peer, inw, inw, outw, [], k);
  }

  lemma ActAllocate(cfg: Config, me: Endpoint, peer: Endpoint, inw: seq<Packet>, outw: seq<Packet>,
                    call: K.Call, re: K.Encoding, abortable: bool)
    requires Linked(cfg.json, me, peer, inw, outw) && 0 <= me.highest < MAX_INT32 && ClientType(call.typ)
    ensures var (me', out) := ActStep(cfg, me, Allocate(call, re, abortable));
            Linked(cfg.json, me', peer, inw, outw + out)
  {
    hide C.Sendable, K.Decodable, K.IsEnd, StreamInv, IsOpening, DataBodies, ActStep, Inv, SenderOf,
         ReceiverOf, Filter, SameElsewhere;
    var k := me.highest + 1;
    AllocateViews(cfg, me, call, re, abortable);
    ActInv(cfg, me, Allocate(call, re, abortable));
    ActServing(cfg, me, Allocate(call, re, abortable));
    var (me', out) := ActStep(cfg, me, Allocate(call, re, abortable));
    GoodIds(me, me', k);
    assert StreamAt(cfg.json, me, peer, outw, k) && StreamAt(cfg.json, peer, me, inw, Neg32(k));
    KnownMeansReceiver(peer, Neg32(k));
    KnownMeansReceiver(me, k);
    AnswersNotPending(peer, Neg32(k));
    assert outw + [] == outw;
    OthersKept(cfg.json, me, me', peer, inw, inw, outw, [], k);
  }

  lemma AnswersNotPending(ep: Endpoint, i: int32)
    requires Inv(ep) && i <= 0
    ensures !SenderOf(ep, i).pending && (SenderOf(ep, i).known <==> i in Known(ep))
  {
    hide StreamInv;
  }

  lemma ActOpen(cfg: Config, me: Endpoint, peer: Endpoint, inw: seq<Packet>, outw: seq<Packet>, k: int32)
    requires Linked(cfg.json, me, peer, inw, outw) && Works(cfg)
    requires k in me.pending && C.Fits(Opening(cfg.json, k, me.pending[k]))
    ensures var (me', out) := ActStep(cfg, me, Session.Open(k));
            Linked(cfg.json, me', peer, inw, outw + out)
  {
    hide C.Sendable, K.Decodable, K.IsEnd, StreamInv, ActStep, Inv, K.Faithful, Opening, SenderOf,
         ReceiverOf, SameElsewhere;
    OpenViews(cfg, me, k);
    ActInv(cfg, me, Session.Open(k));
    ActServing(cfg, me, Session.Open(k));
    var (me', out) := ActStep(cfg, me, Session.Open(k));
    var p := Opening(cfg.json, k, me.pending[k]);
    PendingKnown(me, k);
    OpeningIsGood(cfg.json, k, me.pending[k]);
    assert Id(k);
    GoodIds(me, me', k);
    assert StreamAt(cfg.json, me, peer, outw, k) && StreamAt(cfg.json, peer, me, inw, Neg32(k));
    FilterAppend(outw, out, k);
    FilterAll(out, k);
    assert [] + [p] == [p] && [p][1..] == [];
    assert DataBodies([]) == [];
    assert p == Opening(cfg.json, p.req, me.pending[k]);
    OthersKept(cfg.json, me, me', peer, inw, inw, outw, [p], k);
  }

  lemma PendingKnown(ep: Endpoint, k: int32)
    requires Inv(ep) && k in ep.pending
    ensures k in Known(ep) && k > 0 && ClientType(ep.pending[k].typ)
  {
    hide StreamInv;
  }

  lemma OpeningIsGood(j: K.Json, k: int32, call: K.Call)
    requires k > 0
    ensures var p := Opening(j, k, call);
            p.req == k && !K.IsEnd(p) && K.Decodable(j, p) && (C.Fits(p) ==> C.Sendable(p))
  {
    hide C.ToByte, C.FromByte;
    C.FlagRoundTrip(OpeningFlag(call.typ));
  }

  // ---- whole runs ----

  lemma LocalKeeps(cfg: Config, me: Endpoint, peer: Endpoint, inw: Wire, outw: Wire, mv: Move)
    requires Linked(cfg.json, me, peer, inw.pkts, outw.pkts) && Works(cfg)
    ensures var (me', inw', outw') := Local(cfg, me, inw, outw, mv);
            Linked(cfg.json, me', peer, inw'.pkts, outw'.pkts)
  {
    hide Receive, Works, Linked, KnownEffect, OpeningEffect, ActKeeps, Known, Opening;
    match mv {
      case Deliver =>
        if Deliverable(me, inw) {
          OneEffect(cfg, me, peer, inw.pkts, outw.pkts);
        }
      case Do(act) => LocalAct(cfg, me, peer, inw.pkts, outw.pkts, act);
    }
  }

  lemma OneEffect(cfg: Config, me: Endpoint, peer: Endpoint, inw: seq<Packet>, outw: seq<Packet>)
    requires Linked(cfg.json, me, peer, inw, outw) && Works(cfg) && inw != [] && me.serving
    ensures var fx := Receive(cfg, me, inw[0]);
            Linked(cfg.json, fx.ep, peer, inw[1..], outw + fx.out)
  {
    hide Receive, Works, Linked, SameElsewhere, C.Sendable, K.Decodable, K.IsEnd, Unanswerable;
    if Neg32(inw[0].req) in Known(me) {
      DeliverKnown(cfg, me, peer, inw, outw);
    } else if Unanswerable(cfg, inw[0]) {
      DeliverUnanswerable(cfg, me, peer, inw, outw);
    } else {
      DeliverOpening(cfg, me, peer, inw, outw);
    }
  }

  lemma LocalAct(cfg: Config, me: Endpoint, peer: Endpoint, inw: seq<Packet>, outw: seq<Packet>, act: Act)
    requires Linked(cfg.json, me, peer, inw, outw) && Works(cfg)
    ensures var (me', out) := ActStep(cfg, me, act);
            Linked(cfg.json, me', peer, inw, outw + out)
  {
    hide GoodWire, StreamAt, Inv, UserStep, Opening, NewStream, K.Faithful, Retire;
    assert outw + [] == outw;
    assert me.highest >= 0 by { HighestNat(me); }
    match act {
      case Allocate(call, re, abortable) =>
        if me.highest < MAX_INT32 && ClientType(call.typ) {
          ActAllocate(cfg, me, peer, inw, outw, call, re, abortable);
        }
      case Open(k) =>
        if k in me.pending && C.Fits(Opening(cfg.json, k, me.pending[k])) {
          ActOpen(cfg, me, peer, inw, outw, k);
        }
      case User(k, op) => ActUser(cfg, me, peer, inw, outw, k, op);
      case Forget(k) =>
        if k in me.reqs && k !in me.pending {
          ActForget(cfg, me, peer, inw, outw, k);
        }
    }
  }

  lemma HighestNat(ep: Endpoint)
    requires Inv(ep)
    ensures ep.highest >= 0
  {
  }

  lemma ActServing(cfg: Config, ep: Endpoint, act: Act)
    ensures ActStep(cfg, ep, act).0.serving == ep.serving
  {
    hide UserStep, Opening;
  }

  lemma Swap(j: K.Json, me: Endpoint, peer: Endpoint, inw: seq<Packet>, outw: seq<Packet>)
    requires Linked(j, me, peer, inw, outw)
    ensures Linked(j, peer, me, outw, inw)
  {
    hide StreamAt, GoodEndpoint, GoodWire;
  }

  lemma StepKeeps(su: Setup, net: Net, ev: NetEvent)
    requires NetInv(su.json, net) && K.Faithful(su.json)
    ensures NetInv(su.json, NetStep(su, net, ev))
  {
    hide Local, Linked, K.Faithful;
    match ev {
      case AtA(mv) => LocalKeeps(su.A(), net.a, net.b, net.ba, net.ab, mv);
      case AtB(mv) =>
        Swap(su.json, net.a, net.b, net.ba.pkts, net.ab.pkts);
        LocalKeeps(su.B(), net.b, net.a, net.ab, net.ba, mv);
        var (b, ab, ba) := Local(su.B(), net.b, net.ab, net.ba, mv);
        Swap(su.json, b, net.a, ab.pkts, ba.pkts);
    }
  }

  lemma {:induction false} RunKeeps(su: Setup, net: Net, evs: seq<NetEvent>)
    requires NetInv(su.json, net) && K.Faithful(su.json)
    ensures NetInv(su.json, NetRun(su, net, evs))
    decreases |evs|
  {
    hide NetStep, NetInv, K.Faithful;
    if evs != [] {
      StepKeeps(su, net, evs[0]);
      RunKeeps(su, NetStep(su, net, evs[0]), evs[1..]);
    }
  }

  lemma {:induction false} RunAppend(su: Setup, net: Net, a: seq<NetEvent>, b: seq<NetEvent>)
    ensures NetRun(su, net, a + b) == NetRun(su, NetRun(su, net, a), b)
    decreases |a|
  {
    hide NetStep;
    if a == [] {
      assert a + b == b;
    } else {
      assert (a + b)[1..] == a[1..] + b;
      RunAppend(su, NetStep(su, net, a[0]), a[1..], b);
    }
  }

  lemma RunOne(su: Setup, net: Net, ev: NetEvent)
    ensures NetRun(su, net, [ev]) == NetStep(su, net, ev)
  {
    hide NetStep;
    assert [ev][1..] == [];
  }

  lemma StartConnected(su: Setup)
    ensures NetInv(su.json, START_NET)
  {
    StartInv();
    forall q | Id(q)
      ensures StreamAt(su.json, START, START, [], q)
    {
    }
  }

  /** What a serve loop can meet. Its answer to a packet ends it only if the packet is a call that it
      cannot reject, and leaves the body unread only if its own side has failed the source. */
  ghost predicate Orderly(cfg: Config, me: Endpoint, inw: Wire) {
    inw.pkts != [] && me.serving ==>
      var p := inw.pkts[0];
      var i := Neg32(p.req);
      var fx := Receive(cfg, me, p);
      && !C.Goodbye(p)
      && (i in Known(me) || (i < 0 && IsOpening(cfg.json, p)))
      && (fx.fatal.Some? <==> i !in Known(me) && Unanswerable(cfg, p))
      && (fx.ep.calls != me.calls ==> i !in Known(me) && IsOpening(cfg.json, p))
      && (!fx.drained <==> i in me.reqs && me.reqs[i].src.failed.Some? && !K.IsEnd(p))
  }

  lemma OrderlyEnd(cfg: Config, me: Endpoint, peer: Endpoint, inw: Wire, outw: Wire)
    requires Linked(cfg.json, me, peer, inw.pkts, outw.pkts) && Works(cfg)
    ensures Orderly(cfg, me, inw)
  {
    hide Receive, K.Faithful, SameElsewhere, K.Decodable, K.IsEnd, IsOpening, InStep, Inv, Unanswerable, StreamAt;
    if inw.pkts != [] && me.serving {
      var p := inw.pkts[0];
      assert GoodPacket(cfg.json, p);
      ReceiveInv(cfg, me, p);
      if Neg32(p.req) in Known(me) {
        DeliverKnown(cfg, me, peer, inw.pkts, outw.pkts);
        if !K.IsEnd(p) && Neg32(p.req) in me.reqs {
          FailedIsUndrained(cfg, me, p);
        }
      } else {
        UnknownIsOpening(cfg.json, me, peer, inw.pkts, outw.pkts);
        if Unanswerable(cfg, p) {
          DeliverUnanswerable(cfg, me, peer, inw.pkts, outw.pkts);
        } else {
          DeliverOpening(cfg, me, peer, inw.pkts, outw.pkts);
        }
      }
    }
  }

  lemma FailedIsUndrained(cfg: Config, ep: Endpoint, p: Packet)
    requires Inv(ep) && C.Fits(p) && !K.IsEnd(p) && Neg32(p.req) in ep.reqs
    ensures ep.reqs[Neg32(p.req)].src.failed.Some? ==> !Receive(cfg, ep, p).drained
  {
    hide StreamInv, CloseParts, K.IsEnd;
  }

  /** Known ids: in every run of two endpoints, whatever their users do, every packet that a serve loop
      reads belongs to a stream in its tables or is the opening packet of a call of the peer. So no
      packet is malformed or unhandled, no data is mistaken for a call, and the loop reads packet after
      packet, with the two exceptions of Orderly. */
  lemma KnownIds(su: Setup, evs: seq<NetEvent>)
    requires K.Faithful(su.json)
    ensures var net := NetRun(su, START_NET, evs);
            Orderly(su.A(), net.a, net.ba) && Orderly(su.B(), net.b, net.ab)
  {
    hide Orderly, Linked, NetRun, K.Faithful;
    StartConnected(su);
    RunKeeps(su, START_NET, evs);
    var net := NetRun(su, START_NET, evs);
    OrderlyEnd(su.A(), net.a, net.b, net.ba, net.ab);
    Swap(su.json, net.a, net.b, net.ba.pkts, net.ab.pkts);
    OrderlyEnd(su.B(), net.b, net.a, net.ab, net.ba);
  }

  /** Delivery on one stream: what the receiver's source accepted is a prefix of what the peer's sink
      wrote, and while the source accepts, the rest is exactly what is in flight. */
  ghost predicate Delivers(s: Endpoint, r: Endpoint, wire: Wire, i: int32) {
    var rv := ReceiverOf(r, i);
    var sent := SenderOf(s, Neg32(i)).sent;
    && Got(rv) <= sent
    && (rv.Taking? ==> rv.got + DataBodies(Filter(wire.pkts, Neg32(i))) == sent)
  }

  lemma DeliversEnd(j: K.Json, me: Endpoint, peer: Endpoint, inw: Wire, outw: Wire, i: int32)
    requires Linked(j, me, peer, inw.pkts, outw.pkts) && Id(i)
    ensures Delivers(peer, me, inw, i)
  {
    hide StreamInv, IsOpening, C.Sendable, K.Decodable, K.IsEnd;
    assert StreamAt(j, peer, me, inw.pkts, Neg32(i));
    KnownMeansReceiver(me, i);
  }

  /** Per-stream delivery, in every run and for every stream in both directions, whatever happens on
      other streams: data arrives complete, in order and unchanged, up to where the receiver stopped. */
  lemma StreamsDeliver(su: Setup, evs: seq<NetEvent>, i: int32)
    requires K.Faithful(su.json) && Id(i)
    ensures var net := NetRun(su, START_NET, evs);
            Delivers(net.b, net.a, net.ba, i) && Delivers(net.a, net.b, net.ab, i)
  {
    hide Delivers, Linked, NetRun, K.Faithful;
    StartConnected(su);
    RunKeeps(su, START_NET, evs);
    var net := NetRun(su, START_NET, evs);
    DeliversEnd(su.json, net.a, net.b, net.ba, net.ab, i);
    Swap(su.json, net.a, net.b, net.ba.pkts, net.ab.pkts);
    DeliversEnd(su.json, net.b, net.a, net.ab, net.ba, i);
  }

  /** A close comes after the data: when a serve loop takes an end packet of a stream that still accepts,
      everything the peer wrote is accepted, except what it wrote after that close. */
  ghost predicate ClosesAfterData(me: Endpoint, peer: Endpoint, inw: Wire) {
    inw.pkts != [] && K.IsEnd(inw.pkts[0]) ==>
      var p := inw.pkts[0];
      var rv := ReceiverOf(me, Neg32(p.req));
      rv.Taking? ==> SenderOf(peer, p.req).sent == rv.got + DataBodies(Filter(inw.pkts[1..], p.req))
  }

  lemma ClosesEnd(j: K.Json, me: Endpoint, peer: Endpoint, inw: Wire, outw: Wire)
    requires Linked(j, me, peer, inw.pkts, outw.pkts)
    ensures ClosesAfterData(me, peer, inw)
  {
    hide StreamInv, IsOpening, C.Sendable, K.Decodable, K.IsEnd, SenderOf, ReceiverOf, Inv;
    if inw.pkts != [] && K.IsEnd(inw.pkts[0]) {
      var p := inw.pkts[0];
      assert GoodPacket(j, p);
      assert StreamAt(j, peer, me, inw.pkts, p.req);
      var rest := Filter(inw.pkts[1..], p.req);
      assert Filter(inw.pkts, p.req) == [p] + rest && ([p] + rest)[1..] == rest;
      assert DataBodies([p] + rest) == [] + DataBodies(rest) == DataBodies(rest);
      KnownMeansReceiver(me, Neg32(p.req));
    }
  }

  /** In every run, at both ends. */
  lemma ClosesComeLast(su: Setup, evs: seq<NetEvent>)
    requires K.Faithful(su.json)
    ensures var net := NetRun(su, START_NET, evs);
            ClosesAfterData(net.a, net.b, net.ba) && ClosesAfterData(net.b, net.a, net.ab)
  {
    hide ClosesAfterData, Linked, NetRun, K.Faithful;
    StartConnected(su);
    RunKeeps(su, START_NET, evs);
    var net := NetRun(su, START_NET, evs);
    ClosesEnd(su.json, net.a, net.b, net.ba, net.ab);
    Swap(su.json, net.a, net.b, net.ba.pkts, net.ab.pkts);
    ClosesEnd(su.json, net.b, net.a, net.ab, net.ba);
  }

  /** A close arrives: after an end packet was sent, one is in flight, or the receiver has taken the stream
      out of its table. */
  ghost predicate CloseArrives(s: Endpoint, r: Endpoint, wire: Wire, q: int32) {
    SenderOf(s, q).ended && r.serving ==>
      HasEnd(Filter(wire.pkts, q)) || (Neg32(q) in Known(r) && Neg32(q) !in r.reqs)
  }

  lemma CloseArrivesEnd(j: K.Json, me: Endpoint, peer: Endpoint, inw: Wire, outw: Wire, q: int32)
    requires Linked(j, me, peer, inw.pkts, outw.pkts) && Id(q)
    ensures CloseArrives(me, peer, outw, q)
  {
    hide StreamInv, IsOpening, C.Sendable, K.Decodable, K.IsEnd, HasEnd, DataBodies;
    assert StreamAt(j, me, peer, outw.pkts, q);
    KnownMeansReceiver(peer, Neg32(q));
  }

  /** The closing handshake over runs: in every run, for every stream and both directions. */
  lemma ClosesArrive(su: Setup, evs: seq<NetEvent>, q: int32)
    requires K.Faithful(su.json) && Id(q)
    ensures var net := NetRun(su, START_NET, evs);
            CloseArrives(net.a, net.b, net.ab, q) && CloseArrives(net.b, net.a, net.ba, q)
  {
    hide CloseArrives, Linked, NetRun, K.Faithful;
    StartConnected(su);
    RunKeeps(su, START_NET, evs);
    var net := NetRun(su, START_NET, evs);
    CloseArrivesEnd(su.json, net.a, net.b, net.ba, net.ab, q);
    Swap(su.json, net.a, net.b, net.ba.pkts, net.ab.pkts);
    CloseArrivesEnd(su.json, net.b, net.a, net.ab, net.ba, q);
  }

  function StreamOf(ep: Endpoint, i: int32): Option<Stream> {
    if i in ep.reqs then Some(ep.reqs[i]) else if i in ep.retired then Some(ep.retired[i]) else None
  }

  /** What a reader of a stream gets: a successful Next is followed by the next body the peer wrote, and
      a failed source still hands out the rest of what it accepted, then ends. */
  ghost predicate ReadsWhatWasSent(st: Stream, sent: seq<Bytes>) {
    && |st.src.buf.lenBuf| == 4
    && (st.src.buf.frames > 0 ==> st.taken < |sent| && S.TakeBytes(st.src).1 == Some(sent[st.taken]))
    && (st.src.failed.Some? && |st.got| - st.taken < 0x1_0000_0000 ==>
          st.taken <= |st.got| && S.Drain(st.src).1 == st.got[st.taken..] && st.got <= sent
          && S.PollNow(S.Drain(st.src).0) == S.Over)
  }

  lemma ReaderEnd(j: K.Json, me: Endpoint, peer: Endpoint, inw: Wire, outw: Wire, i: int32)
    requires Linked(j, me, peer, inw.pkts, outw.pkts) && Id(i) && StreamOf(me, i).Some?
    ensures ReadsWhatWasSent(StreamOf(me, i).value, SenderOf(peer, Neg32(i)).sent)
  {
    hide Linked, S.Holding, S.TakeBytes, S.Drain, K.SaneSink;
    DeliversEnd(j, me, peer, inw, outw, i);
    var st := StreamOf(me, i).value;
    StreamOfInv(me, i) by { assert Inv(me) by { LinkedInv(j, me, peer, inw.pkts, outw.pkts); } }
    S.HoldingLenBuf(st.src, st.got, st.taken);
    S.HoldingBounds(st.src, st.got, st.taken);
    if st.src.buf.frames > 0 {
      S.TakeHolding(st.src, st.got, st.taken, 0);
    }
    if st.src.failed.Some? && |st.got| - st.taken < 0x1_0000_0000 {
      S.FailedSourceDrains(st.src, st.got, st.taken);
    }
  }

  lemma LinkedInv(j: K.Json, me: Endpoint, peer: Endpoint, inw: seq<Packet>, outw: seq<Packet>)
    requires Linked(j, me, peer, inw, outw)
    ensures Inv(me) && Inv(peer)
  {
    hide Inv;
  }

  lemma StreamOfInv(ep: Endpoint, i: int32)
    requires Inv(ep) && StreamOf(ep, i).Some?
    ensures StreamInv(StreamOf(ep, i).value) && StreamOf(ep, i).value.got == Got(ReceiverOf(ep, i))
  {
    hide StreamInv;
  }

  /** End to end: in every run, for every stream at either end, readers get the bodies that the peer
      wrote to the stream, in order. */
  lemma ReadersGetWhatWritersSent(su: Setup, evs: seq<NetEvent>, i: int32)
    requires K.Faithful(su.json) && Id(i)
    ensures var net := NetRun(su, START_NET, evs);
            && (StreamOf(net.a, i).Some? ==> ReadsWhatWasSent(StreamOf(net.a, i).value, SenderOf(net.b, Neg32(i)).sent))
            && (StreamOf(net.b, i).Some? ==> ReadsWhatWasSent(StreamOf(net.b, i).value, SenderOf(net.a, Neg32(i)).sent))
  {
    hide ReadsWhatWasSent, Linked, NetRun, K.Faithful, StreamOf;
    StartConnected(su);
    RunKeeps(su, START_NET, evs);
    var net := NetRun(su, START_NET, evs);
    if StreamOf(net.a, i).Some? {
      ReaderEnd(su.json, net.a, net.b, net.ba, net.ab, i);
    }
    if StreamOf(net.b, i).Some? {
      Swap(su.json, net.a, net.b, net.ba.pkts, net.ab.pkts);
      ReaderEnd(su.json, net.b, net.a, net.ab, net.ba, i);
    }
  }
}
