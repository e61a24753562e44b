/** The end of a stream at one side is the end that the other side sent, with its error. */
module Ends {
  import opened Base
  import C = Codec
  import K = Sink
  import S = Source
  import opened Session
  import N = Network
  import W = Wires

  // ---- what a step says and hears ----

  lemma {:induction false} FirstEndAppend(a: seq<Packet>, b: seq<Packet>)
    ensures FirstEnd(a + b) == Or(FirstEnd(a), FirstEnd(b))
  {
    hide K.IsEnd;
    if a == [] {
      assert a + b == b;
    } else {
      assert (a + b)[0] == a[0] && (a + b)[1..] == a[1..] + b;
      FirstEndAppend(a[1..], b);
    }
  }

  /** From `st` to `st'` these packets were sent, and the first end packet is on record. */
  predicate Says(st: Option<Stream>, st': Option<Stream>, out: seq<Packet>) {
    st.Some? ==> st'.Some? && st'.value.said == Or(st.value.said, FirstEnd(out))
  }

  lemma ClosesSays(cfg: Config, st: Stream, err: Option<Error>, abort: bool, st': Stream, out: seq<Packet>)
    requires Closes(cfg, st, err, abort, st', out)
    ensures Says(Some(st), Some(st'), out) && forall p | p in out :: p.req == st.snk.req
  {
    hide K.Text, K.IsEnd;
    if out != [] {
      FlagEnds(out[0]);
      EndBitExactly(out[0]);
      assert out[1..] == [];
    }
  }

  /** How the entries look after a packet for `i`. */
  ghost predicate Touches(ep: Endpoint, i: int32, ep': Endpoint) {
    forall q | q != i ::
      && N.StreamOf(ep', q) == N.StreamOf(ep, q)
      && (q in Known(ep') <==> q in Known(ep)) && (q in ep'.reqs <==> q in ep.reqs)
  }

  lemma RetiresTouches(ep: Endpoint, i: int32, st: Stream, ep': Endpoint)
    requires Inv(ep) && i in ep.reqs && Retires(ep, i, st, ep')
    ensures Touches(ep, i, ep') && N.StreamOf(ep', i) == Some(st) && i in Known(ep') && i !in ep'.reqs
  {
    hide StreamInv;
  }

  /** A packet for an active stream. */
  lemma ActiveHears(cfg: Config, ep: Endpoint, p: Packet)
    requires Inv(ep) && C.Fits(p) && Neg32(p.req) in ep.reqs && K.Decodable(cfg.json, p)
    ensures var i, fx := Neg32(p.req), Receive(cfg, ep, p);
            var st, st' := N.StreamOf(ep, i), N.StreamOf(fx.ep, i);
            && Touches(ep, i, fx.ep) && i in Known(fx.ep)
            && Says(st, st', fx.out) && (forall o | o in fx.out :: o.req == i)
            && st.Some? && st'.Some?
            && st'.value.src.failed == (if st.value.src.failed.Some? then st.value.src.failed
                                        else if EndBit(p) then Some(Heard(cfg.json, p.body)) else None)
            && (i in fx.ep.reqs <==> st'.value.src.failed.None?)
  {
    hide Inv, Receive, EndBit, Closes, Retires, Touches, K.Text, S.Holding, Says, K.IsEnd;
    var i, fx := Neg32(p.req), Receive(cfg, ep, p);
    var st := ep.reqs[i];
    IdOf(ep, i);
    SaneId(st);
    EndBitExactly(p);
    if EndBit(p) {
      EndAnswers(cfg, ep, p);
      var e := cfg.json.decErr(p.body);
      var err := if p.body == [116, 114, 117, 101] then None else Some(CallError(e.value.0, e.value.1));
      ClosesHeard(cfg, st, err, st.abortable, fx.ep.retired[i], fx.out);
      ClosesSays(cfg, st, err, st.abortable, fx.ep.retired[i], fx.out);
      RetiresTouches(ep, i, fx.ep.retired[i], fx.ep);
    } else if st.src.failed.Some? {
      FailedDataAnswers(cfg, ep, p);
      var err := Some(SourceCanceled(st.src.failed.value));
      ClosesHeard(cfg, st, err, st.abortable, fx.ep.retired[i], fx.out);
      ClosesSays(cfg, st, err, st.abortable, fx.ep.retired[i], fx.out);
      RetiresTouches(ep, i, fx.ep.retired[i], fx.ep);
    } else {
      DataAccepted(cfg, ep, p);
      AcceptTouches(ep, fx.ep.reqs[i]);
      SaysNothing(N.StreamOf(ep, i), N.StreamOf(fx.ep, i));
    }
  }

  lemma SaysNothing(st: Option<Stream>, st': Option<Stream>)
    requires st.Some? ==> st'.Some? && st'.value.said == st.value.said
    ensures Says(st, st', [])
  {
  }

  lemma AcceptTouches(ep: Endpoint, st: Stream)
    requires Inv(ep) && st.id in ep.reqs
    ensures var ep' := ep.(reqs := ep.reqs[st.id := st]);
            Touches(ep, st.id, ep') && N.StreamOf(ep', st.id) == Some(st) && st.id in Known(ep')
  {
    hide StreamInv;
  }

  /** The failure that an end packet with this body leaves. */
  function Heard(j: K.Json, body: Bytes): Error {
    if body == [116, 114, 117, 101] then EOF
    else if j.decErr(body).Some? then CallError(j.decErr(body).value.0, j.decErr(body).value.1)
    else BadRequest
  }

  lemma ClosesHeard(cfg: Config, st: Stream, err: Option<Error>, abort: bool, st': Stream, out: seq<Packet>)
    requires Closes(cfg, st, err, abort, st', out) && err != Some(EOF)
    ensures st'.src.failed == if st.src.failed.Some? then st.src.failed else if err.None? then Some(EOF) else err
  {
    hide K.Text;
  }

  /** What a packet for an id without an active stream leaves. */
  ghost predicate Passes(ep: Endpoint, i: int32, fx: Effect) {
    && Touches(ep, i, fx.ep) && (N.StreamOf(ep, i).Some? ==> N.StreamOf(fx.ep, i) == N.StreamOf(ep, i))
    && (forall o | o in fx.out :: o.req == i && i !in Known(ep))
    && (N.StreamOf(ep, i).None? && N.StreamOf(fx.ep, i).Some? ==>
          i in fx.ep.reqs && fx.out == []
          && N.StreamOf(fx.ep, i).value.said == None && N.StreamOf(fx.ep, i).value.src.failed == None)
    && (i in Known(ep) ==> fx.ep == ep && fx.out == [])
  }

  /** Any other packet. */
  lemma OthersHear(cfg: Config, ep: Endpoint, p: Packet)
    requires Inv(ep) && Neg32(p.req) !in ep.reqs
    ensures var i, fx := Neg32(p.req), Receive(cfg, ep, p);
            Passes(ep, i, fx) && (i in Known(fx.ep) && i !in Known(ep) ==> !EndBit(p))
  {
    hide Inv, Receive, EndBit, CallPacket, Passes;
    OtherPackets(cfg, ep, p);
    var i, call := Neg32(p.req), cfg.json.decCall(p.body);
    NothingPasses(ep, i);
    if i !in ep.closed && !EndBit(p) && call.Some? && CallPacket(cfg, p, call.value) {
      CallPasses(cfg, ep, p, call.value);
    }
  }

  lemma NothingPasses(ep: Endpoint, i: int32)
    requires i !in ep.reqs
    ensures forall d, e :: Passes(ep, i, Effect(ep, [], d, e))
    ensures i !in Known(ep) ==> forall d, e :: Passes(ep, i, Effect(ep.(serving := false), [], d, e))
  {
  }

  lemma CallPasses(cfg: Config, ep: Endpoint, p: Packet, call: K.Call)
    requires Inv(ep) && Neg32(p.req) !in Known(ep) && CallPacket(cfg, p, call)
    ensures Passes(ep, Neg32(p.req), Receive(cfg, ep, p))
  {
    hide StreamInv, Receive, CallPacket, K.EndErr, IsStream, K.Text;
    var i := Neg32(p.req);
    ReceiveOpening(cfg, ep, p, call);
    RejectionId(cfg.json, i, IsStream(p), NoSuchMethod(call.path));
  }

  lemma RejectionId(j: K.Json, i: int32, stream: bool, e: Error)
    ensures K.EndErr(j, i, stream, e).req == i
  {
    hide K.Text, C.ToByte;
  }

  /** A user action: what the touched stream says, and what becomes of its source. */
  lemma ActSays(cfg: Config, ep: Endpoint, act: Act, q: int32)
    requires Inv(ep)
    ensures var (ep', out) := ActStep(cfg, ep, act);
            var st, st' := N.StreamOf(ep, q), N.StreamOf(ep', q);
            && Says(st, st', Filter(out, q))
            && (st.None? && st'.Some? ==> q !in Known(ep) && st'.value.said == None && Filter(out, q) == []
                                          && st'.value.src.failed == None && q in ep'.reqs)
            && (st.Some? && st.value.src.failed.Some? ==> st'.value.src.failed == st.value.src.failed)
            && (st.Some? && st.value.src.failed.None? && !(act.User? && act.k == q) ==> st'.value.src.failed == None)
            && (q in Known(ep') && st'.None? ==> q in Known(ep) && st.None?)
            && (q in Known(ep) ==> q in Known(ep'))
            && (q in ep.reqs && !(act.Forget? && act.k == q) ==> q in ep'.reqs)
  {
    hide StreamInv, UserStep, ClientFlag, ClientType, Opening, K.IsEnd, FirstEnd, Filter;
    NoEnd();
    NothingOf(q);
    match act {
      case Allocate(call, re, abortable) => NextIdIsNew(ep);
      case Open(k) =>
        if k in ep.pending {
          OpeningSays(cfg.json, k, ep.pending[k], q);
        }
      case User(k, op) => UserActSays(cfg, ep, k, op, q);
      case Forget(k) =>
    }
  }

  lemma UserActSays(cfg: Config, ep: Endpoint, k: int32, op: UserOp, q: int32)
    requires Inv(ep)
    ensures var (ep', out) := ActStep(cfg, ep, User(k, op));
            var st, st' := N.StreamOf(ep, q), N.StreamOf(ep', q);
            && Says(st, st', Filter(out, q)) && (st.Some? <==> st'.Some?)
            && (st.Some? && st.value.src.failed.Some? ==> st'.value.src.failed == st.value.src.failed)
            && (st.Some? && st.value.src.failed.None? && k != q ==> st'.value.src.failed == None)
            && Known(ep') == Known(ep) && ep'.reqs.Keys == ep.reqs.Keys
  {
    hide StreamInv, UserStep, K.IsEnd, FirstEnd, Filter;
    NoEnd();
    NothingOf(q);
    if k in ep.reqs {
      IdOf(ep, k);
      UserSays(cfg, ep.reqs[k], op, q);
    } else if k in ep.retired {
      UserSays(cfg, ep.retired[k], op, q);
    }
  }

  lemma NothingOf(q: int32)
    ensures Filter([], q) == []
  {
  }

  lemma OpeningSays(j: K.Json, k: int32, call: K.Call, q: int32)
    requires ClientType(call.typ)
    ensures FirstEnd(Filter([Opening(j, k, call)], q)) == None
  {
    hide C.ToByte, C.FromByte;
    C.FlagRoundTrip(OpeningFlag(call.typ));
    var p := Opening(j, k, call);
    assert [p][1..] == [] && Filter([p][1..], q) == [];
    assert [p] + [] == [p];
  }

  lemma UserSays(cfg: Config, st: Stream, op: UserOp, q: int32)
    requires StreamInv(st)
    ensures var (st', out) := UserStep(cfg, st, op);
            && st'.id == st.id && (st.src.failed.Some? ==> st'.src.failed == st.src.failed)
            && (q == st.id ==> st'.said == Or(st.said, FirstEnd(Filter(out, q))))
            && (q != st.id ==> Filter(out, q) == [])
  {
    hide StreamInv, UserStep, K.IsEnd, K.Decodable, K.Faithful, C.Sendable, DataBodies, FirstEnd, HasEnd;
    UserStepFacts(cfg, st, op);
    var out := UserStep(cfg, st, op).1;
    if q == st.id {
      FilterAll(out, q);
    } else {
      FilterNone(out, q);
    }
    if st.src.failed.Some? {
      FailedStays(cfg, st, op);
    }
  }

  lemma FailedStays(cfg: Config, st: Stream, op: UserOp)
    requires StreamInv(st) && st.src.failed.Some?
    ensures UserStep(cfg, st, op).0.src.failed == st.src.failed
  {
    hide S.Holding, S.Step, K.Step;
    if op.OnSource? {
      S.StepHolding(st.src, st.got, st.taken, op.op);
    }
  }

  // ---- the invariant ----

  /** What the receiver has heard of the end of the stream `q`: while its source has not failed, the first
      end packet that was sent is the first in flight; when it has failed, that is the end that was sent. */
  ghost predicate EndInStep(j: K.Json, s: Endpoint, r: Endpoint, wire: seq<Packet>, q: int32) {
    var i := Neg32(q);
    var sst, rst := N.StreamOf(s, q), N.StreamOf(r, i);
    if q !in Known(s) then rst.Some? ==> rst.value.src.failed.None? && i in r.reqs
    else if sst.None? then true
    else if rst.None? then i !in Known(r) ==> sst.value.said == FirstEnd(Filter(wire, q))
    else if rst.value.src.failed.None? then i in r.reqs && sst.value.said == FirstEnd(Filter(wire, q))
    else sst.value.said.Some? && rst.value.src.failed == Some(Heard(j, sst.value.said.value))
  }

  /** The move does not fail the source of the stream `i`, nor put the stream away before it has failed. */
  predicate Spares(r: Endpoint, mv: N.Move, i: int32) {
    mv.Do? && (W.Fails(mv.act) || mv.act.Forget?) && mv.act.k == i ==>
      N.StreamOf(r, i).Some? && N.StreamOf(r, i).value.src.failed.Some?
  }

  lemma NothingSentYet(j: K.Json, s: Endpoint, r: Endpoint, inw: seq<Packet>, outw: seq<Packet>, q: int32)
    requires N.Linked(j, s, r, inw, outw) && N.Id(q) && q !in Known(s)
    ensures Filter(outw, q) == []
  {
    hide N.GoodEndpoint, N.GoodWire, N.IsOpening, N.ReceiverOf, HasEnd, DataBodies;
    assert N.StreamAt(j, s, r, outw, q);
  }

  lemma GoodInput(j: K.Json, me: Endpoint, peer: Endpoint, inw: seq<Packet>, outw: seq<Packet>)
    requires N.Linked(j, me, peer, inw, outw) && inw != []
    ensures Inv(me) && C.Fits(inw[0]) && K.Decodable(j, inw[0]) && N.Id(inw[0].req)
  {
    hide Inv, N.StreamAt, K.Decodable;
    assert N.GoodPacket(j, inw[0]);
  }

  /** An unknown id is opened by a call, which is no end packet. */
  lemma UnknownIsNoEnd(cfg: Config, me: Endpoint, peer: Endpoint, inw: seq<Packet>, outw: seq<Packet>)
    requires N.Linked(cfg.json, me, peer, inw, outw) && inw != [] && me.serving && Neg32(inw[0].req) !in Known(me)
    requires K.Faithful(cfg.json)
    ensures !EndBit(inw[0])
  {
    hide N.Linked, EndBit, K.IsEnd, Opening, CallPacket, K.Faithful, ClientType;
    N.UnknownIsOpening(cfg.json, me, peer, inw, outw);
    var call: K.Call :| ClientType(call.typ) && inw[0] == Opening(cfg.json, inw[0].req, call);
    OpeningIsCall(cfg, inw[0].req, call);
    EndBitExactly(inw[0]);
  }

  lemma HeadOf(p: Packet, rest: seq<Packet>, q: int32)
    ensures p.req != q ==> Filter([p] + rest, q) == Filter(rest, q)
    ensures p.req == q ==> Filter([p] + rest, q) == [p] + Filter(rest, q)
    ensures p.req == q ==>
              FirstEnd(Filter([p] + rest, q)) == if EndBit(p) then Some(p.body) else FirstEnd(Filter(rest, q))
  {
    hide EndBit, K.IsEnd;
    assert ([p] + rest)[1..] == rest;
    EndBitExactly(p);
    assert ([p] + Filter(rest, q))[1..] == Filter(rest, q);
  }

  /** The receiver takes a packet. */
  lemma ReceiverTakes(cfg: Config, me: Endpoint, peer: Endpoint, inw: seq<Packet>, outw: seq<Packet>, q: int32)
    requires N.Linked(cfg.json, me, peer, inw, outw) && inw != [] && me.serving && K.Faithful(cfg.json)
    requires N.Id(q) && EndInStep(cfg.json, peer, me, inw, q)
    ensures EndInStep(cfg.json, peer, Receive(cfg, me, inw[0]).ep, inw[1..], q)
  {
    hide N.Linked, Receive, EndBit, K.Decodable, K.Faithful, FirstEnd, Filter, Inv, Says, C.Fits;
    var p, i := inw[0], Neg32(q);
    GoodInput(cfg.json, me, peer, inw, outw);
    assert inw == [p] + inw[1..];
    HeadOf(p, inw[1..], q);
    if p.req == q && q !in Known(peer) {
      N.Swap(cfg.json, me, peer, inw, outw);
      NothingSentYet(cfg.json, peer, me, outw, inw, q);
      assert false;
    }
    if Neg32(p.req) in me.reqs {
      ActiveHears(cfg, me, p);
    } else {
      OthersHear(cfg, me, p);
      if Neg32(p.req) !in Known(me) {
        UnknownIsNoEnd(cfg, me, peer, inw, outw);
      }
    }
  }

  /** The sender takes a packet. */
  lemma SenderTakes(cfg: Config, me: Endpoint, peer: Endpoint, inw: seq<Packet>, outw: seq<Packet>, q: int32)
    requires N.Linked(cfg.json, me, peer, inw, outw) && inw != [] && me.serving
    requires N.Id(q) && EndInStep(cfg.json, me, peer, outw, q)
    ensures var fx := Receive(cfg, me, inw[0]); EndInStep(cfg.json, fx.ep, peer, outw + fx.out, q)
  {
    hide N.Linked, Receive, EndBit, K.Decodable, K.Faithful, FirstEnd, Filter, Inv, C.Fits;
    var p, i := inw[0], Neg32(inw[0].req);
    var fx := Receive(cfg, me, p);
    GoodInput(cfg.json, me, peer, inw, outw);
    FilterAppend(outw, fx.out, q);
    FirstEndAppend(Filter(outw, q), Filter(fx.out, q));
    if q !in Known(me) {
      NothingSentYet(cfg.json, me, peer, inw, outw, q);
    }
    if i in me.reqs {
      ActiveHears(cfg, me, p);
    } else {
      OthersHear(cfg, me, p);
    }
    NoEnd();
    if i == q {
      FilterAll(fx.out, q);
    } else {
      FilterNone(fx.out, q);
    }
    StreamIsKnown(me, q);
  }

  lemma StreamIsKnown(ep: Endpoint, q: int32)
    requires Inv(ep)
    ensures N.StreamOf(ep, q).Some? ==> q in Known(ep)
  {
    hide StreamInv;
  }

  lemma NoEnd()
    ensures FirstEnd([]) == None
    ensures forall ps: seq<Packet> :: [] + ps == ps && ps + [] == ps
  {
  }

  lemma SenderActs(cfg: Config, me: Endpoint, peer: Endpoint, inw: seq<Packet>, outw: seq<Packet>, act: Act, q: int32)
    requires N.Linked(cfg.json, me, peer, inw, outw) && N.Id(q) && EndInStep(cfg.json, me, peer, outw, q)
    ensures var (me', out) := ActStep(cfg, me, act); EndInStep(cfg.json, me', peer, outw + out, q)
  {
    hide N.Linked, ActStep, FirstEnd, Filter, Inv;
    N.LinkedInv(cfg.json, me, peer, inw, outw);
    var out := ActStep(cfg, me, act).1;
    ActSays(cfg, me, act, q);
    FilterAppend(outw, out, q);
    FirstEndAppend(Filter(outw, q), Filter(out, q));
    if q !in Known(me) {
      NothingSentYet(cfg.json, me, peer, inw, outw, q);
    }
    StreamIsKnown(me, q);
    NoEnd();
  }

  lemma ReceiverActs(cfg: Config, me: Endpoint, peer: Endpoint, inw: seq<Packet>, act: Act, q: int32)
    requires Inv(me) && EndInStep(cfg.json, peer, me, inw, q) && Spares(me, N.Do(act), Neg32(q))
    ensures EndInStep(cfg.json, peer, ActStep(cfg, me, act).0, inw, q)
  {
    hide ActStep, FirstEnd, Filter, Inv, W.Fails, Says;
    ActSays(cfg, me, act, Neg32(q));
    StreamIsKnown(me, Neg32(q));
    var st := N.StreamOf(me, Neg32(q));
    if st.Some? && st.value.src.failed.None? {
      SparedStays(cfg, me, act, Neg32(q));
    }
  }

  lemma SparedStays(cfg: Config, ep: Endpoint, act: Act, i: int32)
    requires Inv(ep) && Spares(ep, N.Do(act), i)
    requires N.StreamOf(ep, i).Some? && N.StreamOf(ep, i).value.src.failed.None?
    ensures var st' := N.StreamOf(ActStep(cfg, ep, act).0, i); st'.Some? && st'.value.src.failed.None?
  {
    hide StreamInv, UserStep, ClientFlag, ClientType, Opening, W.Fails;
    if act.User? && act.k == i {
      W.GentleUser(cfg, N.StreamOf(ep, i).value, act.op);
    }
  }

  // ---- runs ----

  /** The direction towards the stream `i` of one end. */
  ghost predicate NetEnds(j: K.Json, net: N.Net, atA: bool, i: int32) {
    if atA then EndInStep(j, net.b, net.a, net.ba.pkts, Neg32(i))
    else EndInStep(j, net.a, net.b, net.ab.pkts, Neg32(i))
  }

  predicate Spared(net: N.Net, ev: N.NetEvent, atA: bool, i: int32) {
    match ev
    case AtA(mv) => atA ==> Spares(net.a, mv, i)
    case AtB(mv) => !atA ==> Spares(net.b, mv, i)
  }

  /** In the whole run no user of that end fails the source of its stream `i`, or puts the stream away,
      before the source has failed. */
  predicate NeverFailed(su: N.Setup, net: N.Net, evs: seq<N.NetEvent>, atA: bool, i: int32)
    decreases |evs|
  {
    evs == [] || (Spared(net, evs[0], atA, i) && NeverFailed(su, N.NetStep(su, net, evs[0]), evs[1..], atA, i))
  }

  lemma ReceiverMoves(cfg: Config, me: Endpoint, peer: Endpoint, inw: N.Wire, outw: N.Wire, mv: N.Move, q: int32)
    requires N.Linked(cfg.json, me, peer, inw.pkts, outw.pkts) && K.Faithful(cfg.json) && N.Id(q)
    requires EndInStep(cfg.json, peer, me, inw.pkts, q) && Spares(me, mv, Neg32(q))
    ensures var (me', inw', _) := N.Local(cfg, me, inw, outw, mv); EndInStep(cfg.json, peer, me', inw'.pkts, q)
  {
    hide N.Linked, Receive, ActStep, EndInStep, K.Faithful, Spares;
    N.LinkedInv(cfg.json, me, peer, inw.pkts, outw.pkts);
    match mv {
      case Deliver =>
        if N.Deliverable(me, inw) {
          ReceiverTakes(cfg, me, peer, inw.pkts, outw.pkts, q);
        }
      case Do(act) => ReceiverActs(cfg, me, peer, inw.pkts, act, q);
    }
  }

  lemma SenderMoves(cfg: Config, me: Endpoint, peer: Endpoint, inw: N.Wire, outw: N.Wire, mv: N.Move, q: int32)
    requires N.Linked(cfg.json, me, peer, inw.pkts, outw.pkts) && N.Id(q)
    requires EndInStep(cfg.json, me, peer, outw.pkts, q)
    ensures var (me', _, outw') := N.Local(cfg, me, inw, outw, mv); EndInStep(cfg.json, me', peer, outw'.pkts, q)
  {
    hide N.Linked, Receive, ActStep, EndInStep;
    match mv {
      case Deliver =>
        if N.Deliverable(me, inw) {
          SenderTakes(cfg, me, peer, inw.pkts, outw.pkts, q);
        }
      case Do(act) => SenderActs(cfg, me, peer, inw.pkts, outw.pkts, act, q);
    }
  }

  lemma StepEnds(su: N.Setup, net: N.Net, ev: N.NetEvent, atA: bool, i: int32)
    requires N.NetInv(su.json, net) && K.Faithful(su.json) && N.Id(i)
    requires NetEnds(su.json, net, atA, i) && Spared(net, ev, atA, i)
    ensures NetEnds(su.json, N.NetStep(su, net, ev), atA, i)
  {
    hide N.Linked, N.Local, EndInStep, K.Faithful, Spares;
    assert N.Id(Neg32(i)) && Neg32(Neg32(i)) == i;
    match ev {
      case AtA(mv) =>
        if atA {
          ReceiverMoves(su.A(), net.a, net.b, net.ba, net.ab, mv, Neg32(i));
        } else {
          SenderMoves(su.A(), net.a, net.b, net.ba, net.ab, mv, Neg32(i));
        }
      case AtB(mv) =>
        N.Swap(su.json, net.a, net.b, net.ba.pkts, net.ab.pkts);
        if atA {
          SenderMoves(su.B(), net.b, net.a, net.ab, net.ba, mv, Neg32(i));
        } else {
          ReceiverMoves(su.B(), net.b, net.a, net.ab, net.ba, mv, Neg32(i));
        }
    }
  }

  lemma {:induction false} RunEnds(su: N.Setup, net: N.Net, evs: seq<N.NetEvent>, atA: bool, i: int32)
    requires N.NetInv(su.json, net) && K.Faithful(su.json) && N.Id(i)
    requires NetEnds(su.json, net, atA, i) && NeverFailed(su, net, evs, atA, i)
    ensures NetEnds(su.json, N.NetRun(su, net, evs), atA, i)
    decreases |evs|
  {
    hide N.NetStep, N.NetInv, NetEnds, Spared, K.Faithful;
    if evs != [] {
      StepEnds(su, net, evs[0], atA, i);
      N.StepKeeps(su, net, evs[0]);
      RunEnds(su, N.NetStep(su, net, evs[0]), evs[1..], atA, i);
    }
  }

  /** The end that arrives is the end that was sent: in every run in which the users of an end do not fail
      the source of a stream themselves, it fails only after the peer's sink has sent an end packet for
      that stream, and with what the first of these says. */
  lemma ErrorsArrive(su: N.Setup, evs: seq<N.NetEvent>, atA: bool, i: int32)
    requires K.Faithful(su.json) && N.Id(i) && NeverFailed(su, N.START_NET, evs, atA, i)
    ensures var net := N.NetRun(su, N.START_NET, evs);
            var mine, theirs := N.StreamOf(N.EndOf(net, atA), i), N.StreamOf(N.EndOf(net, !atA), Neg32(i));
            mine.Some? && mine.value.src.failed.Some? && theirs.Some? ==>
              && theirs.value.said.Some?
              && mine.value.src.failed == Some(Heard(su.json, theirs.value.said.value))
  {
    hide N.NetRun, N.Linked, NeverFailed, K.Faithful, Filter, FirstEnd, Heard;
    N.StartConnected(su);
    RunEnds(su, N.START_NET, evs, atA, i);
    var net := N.NetRun(su, N.START_NET, evs);
    N.RunKeeps(su, N.START_NET, evs);
    N.LinkedInv(su.json, net.a, net.b, net.ba.pkts, net.ab.pkts);
    StreamIsKnown(N.EndOf(net, !atA), Neg32(i));
  }

  /** What a close says and what is heard of it. */
  lemma HeardOf(cfg: Config, st: Stream, err: Option<Error>, abort: bool, st': Stream, out: seq<Packet>)
    requires K.Faithful(cfg.json) && Closes(cfg, st, err, abort, st', out) && st.said.None? && st'.said.Some?
    ensures Heard(cfg.json, st'.said.value) ==
            if err == None || err == Some(EOF) then EOF else CallError("Error", K.Text(err.value))
  {
    hide K.Text;
  }
}
