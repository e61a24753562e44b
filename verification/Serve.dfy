/** The serve loop on the bytes of the connection: where its cursor stands after each iteration. */
module Serve {
  import opened Base
  import C = Codec
  import K = Sink
  import S = Source
  import F = FrameBuffer
  import opened Session
  import N = Network

  /** The effect of one iteration and the bytes it leaves to be read. */
  datatype Served = Served(fx: Effect, rest: Bytes)

  /** One iteration on a connection that delivers `input` and then ends. */
  function ServeOnce(cfg: Config, ep: Endpoint, input: Bytes): Served {
    match C.HeaderAt(input)
    case NoHeader(e) =>
      Served(Effect(ep.(serving := false), [], true, Some(e)), input[Min(C.HEADER_SIZE, |input|)..])
    case GotHeader(h) =>
      var rest := input[C.HEADER_SIZE..];
      var n := Min(h.len, |rest|);
      var fx := OnHeader(cfg, ep, h, rest[..n]);
      Served(fx, if fx.drained then rest[n..] else rest)
  }

  /** The branches of the loop body; `body` may be shorter than announced if the connection ends. */
  function OnHeader(cfg: Config, ep: Endpoint, h: C.Header, body: Bytes): Effect {
    var i := Neg32(h.req);
    var flag := C.FromByte(h.flag);
    if C.Get(flag, C.FLAG_END_ERR) then
      if i in ep.reqs && |body| != h.len then Fatal(ep, ShortBody, true)
      else ReceiveEnd(cfg, ep, i, body)
    else if i in ep.closed then Effect(ep, [], true, None)
    else if i in ep.reqs then ReceiveData(cfg, ep, ep.reqs[i], h.flag, h.len, body)
    else ReceiveCall(cfg, ep, i, flag, body)
  }

  lemma OnWholePacket(cfg: Config, ep: Endpoint, p: Packet)
    requires C.Fits(p)
    ensures OnHeader(cfg, ep, C.HeaderOf(p), p.body) == Receive(cfg, ep, p)
  {
    hide ReceiveEnd, ReceiveData, ReceiveCall, C.FromByte;
  }

  /** On a whole packet the iteration does what Receive says, and the cursor advances over the header
      and, if the body was read, over the body. */
  lemma ServePrinted(cfg: Config, ep: Endpoint, p: Packet, t: Bytes)
    requires C.Sendable(p)
    ensures ServeOnce(cfg, ep, C.Print(p) + t) ==
            var fx := Receive(cfg, ep, p);
            Served(fx, if fx.drained then t else p.body + t)
  {
    hide C.PrintHeader, C.ScanHeader, C.Print, C.HeaderAt, OnHeader, Receive;
    C.PrintedHeader(p, t);
    OnWholePacket(cfg, ep, p);
    assert (p.body + t)[..|p.body|] == p.body && (p.body + t)[|p.body|..] == t;
  }

  /** The body of a packet is left unread exactly on two paths: an end packet for an id in neither
      table, and data for an active stream whose source has failed. */
  lemma UndrainedExactly(cfg: Config, ep: Endpoint, p: Packet)
    requires Inv(ep) && C.Fits(p) && Receive(cfg, ep, p).fatal.None?
    ensures var i := Neg32(p.req);
            !Receive(cfg, ep, p).drained <==>
              || (K.IsEnd(p) && i !in Known(ep))
              || (!K.IsEnd(p) && i in ep.reqs && ep.reqs[i].src.failed.Some?)
  {
    hide K.IsEnd, StreamInv, CloseParts, S.Consume, K.EndErr;
    var i := Neg32(p.req);
    if !K.IsEnd(p) && i in ep.reqs {
      ConsumeFacts(ep.reqs[i], p.flag, p.body);
    }
  }

  /** The cursor is back on the packet boundary exactly if the iteration read the body, or there was
      none to read. */
  lemma BoundaryExactly(cfg: Config, ep: Endpoint, p: Packet, t: Bytes)
    requires C.Sendable(p)
    ensures ServeOnce(cfg, ep, C.Print(p) + t).rest == t <==> Receive(cfg, ep, p).drained || p.body == []
  {
    hide C.Print, Receive, ServeOnce;
    ServePrinted(cfg, ep, p, t);
    if p.body != [] {
      assert |p.body + t| > |t|;
    } else {
      assert [] + t == t;
    }
  }

  /** A reader that cancels its source early puts the connection out of step: the body of the next
      data packet of the stream is not read, and the loop takes its bytes for a header. */
  lemma EarlyCancelLosesStep(cfg: Config, ep: Endpoint, i: int32, err: Option<Error>, p: Packet, t: Bytes)
    requires Inv(ep) && i in ep.reqs && i !in ep.pending
    requires Neg32(p.req) == i && C.Sendable(p) && !K.IsEnd(p) && p.body != []
    ensures var (ep', _) := ActStep(cfg, ep, User(i, OnSource(S.Cancellation(err))));
            ServeOnce(cfg, ep', C.Print(p) + t).rest == p.body + t != t
  {
    hide StreamInv, CloseParts, K.IsEnd, C.Print, ServeOnce;
    ActInv(cfg, ep, User(i, OnSource(S.Cancellation(err))));
    IdOf(ep, i);
    StreamLenBuf(ep.reqs[i]);
    var (ep', _) := ActStep(cfg, ep, User(i, OnSource(S.Cancellation(err))));
    assert i in ep'.reqs && ep'.reqs[i].src.failed.Some?;
    UndrainedExactly(cfg, ep', p);
    ServePrinted(cfg, ep', p, t);
    assert |p.body + t| > |t|;
  }

  /** A run in which that happens: A calls, B accepts and writes `b`, A cancels its source, and then
      the data arrives. */
  function EarlyCancel(call: K.Call, b: Bytes): seq<N.NetEvent> {
    [N.AtA(N.Do(Allocate(call, K.TypeJSON, true))), N.AtA(N.Do(Session.Open(1))), N.AtB(N.Deliver),
     N.AtB(N.Do(User(-1, Write(b)))), N.AtA(N.Do(User(1, OnSource(S.Cancellation(None))))), N.AtA(N.Deliver)]
  }

  lemma EarlyCancelHappens(su: N.Setup, call: K.Call, b: Bytes)
    requires K.Faithful(su.json) && ClientType(call.typ) && su.handlesB(call.path)
    requires C.Fits(Opening(su.json, 1, call)) && 0 < |b| <= C.MAX_BUFFER_SIZE
    ensures !N.NetRun(su, N.START_NET, EarlyCancel(call, b)).ba.inStep
  {
    hide N.NetStep, K.Faithful, ClientType, Opening;
    var evs := EarlyCancel(call, b);
    var n3 := CallArrives(su, call);
    var n6 := AnswerAfterCancel(su, n3, b);
    RunThree(su, N.START_NET, evs[0], evs[1], evs[2], evs[3..]);
    RunThree(su, n3, evs[3], evs[4], evs[5], []);
    assert evs == [evs[0], evs[1], evs[2]] + evs[3..] && evs[3..] == [evs[3], evs[4], evs[5]] + [];
  }

  lemma RunThree(su: N.Setup, n: N.Net, e1: N.NetEvent, e2: N.NetEvent, e3: N.NetEvent, rest: seq<N.NetEvent>)
    ensures N.NetRun(su, n, [e1, e2, e3] + rest) ==
            N.NetRun(su, N.NetStep(su, N.NetStep(su, N.NetStep(su, n, e1), e2), e3), rest)
  {
    hide N.NetStep;
    assert ([e1, e2, e3] + rest)[1..] == [e2, e3] + rest && ([e2, e3] + rest)[1..] == [e3] + rest;
    assert ([e3] + rest)[1..] == rest;
    var n1 := N.NetStep(su, n, e1);
    var n2 := N.NetStep(su, n1, e2);
    assert N.NetRun(su, n1, [e2, e3] + rest) == N.NetRun(su, n2, [e3] + rest);
    assert N.NetRun(su, n2, [e3] + rest) == N.NetRun(su, N.NetStep(su, n2, e3), rest);
  }

  /** The first three events. */
  lemma CallArrives(su: N.Setup, call: K.Call) returns (n3: N.Net)
    requires K.Faithful(su.json) && ClientType(call.typ) && su.handlesB(call.path)
    requires C.Fits(Opening(su.json, 1, call))
    ensures var n1 := N.NetStep(su, N.START_NET, N.AtA(N.Do(Allocate(call, K.TypeJSON, true))));
            var n2 := N.NetStep(su, n1, N.AtA(N.Do(Session.Open(1))));
            n3 == N.NetStep(su, n2, N.AtB(N.Deliver))
    ensures n3.a.reqs.Keys == {1} && n3.a.pending == map[] && n3.a.closed == {} && n3.a.serving
    ensures n3.a.reqs[1] == NewStream(1, ClientFlag(call.typ, K.TypeJSON), true)
    ensures n3.b.reqs.Keys == {-1} && -1 !in n3.b.pending && n3.ba == N.Wire([], true)
    ensures K.SaneSink(n3.b.reqs[-1].snk) && n3.b.reqs[-1].snk.closed.None? && n3.b.reqs[-1].ctx.None?
    ensures n3.b.reqs[-1].snk.req == -1
  {
    hide C.ToByte, C.FromByte, Opening, Receive, ClientFlag, K.Faithful, ClientType;
    var n1 := N.NetStep(su, N.START_NET, N.AtA(N.Do(Allocate(call, K.TypeJSON, true))));
    var n2 := N.NetStep(su, n1, N.AtA(N.Do(Session.Open(1))));
    n3 := N.NetStep(su, n2, N.AtB(N.Deliver));
    var p := Opening(su.json, 1, call);
    OpeningReq(su.json, 1, call);
    assert n2.ab.pkts == [p];
    OpeningIsCall(su.B(), 1, call);
    ReceiveOpening(su.B(), START, p, call);
  }

  /** The other three. */
  lemma AnswerAfterCancel(su: N.Setup, n3: N.Net, b: Bytes) returns (n6: N.Net)
    requires n3.a.reqs.Keys == {1} && n3.a.pending == map[] && n3.a.closed == {} && n3.a.serving
    requires |n3.a.reqs[1].src.buf.lenBuf| == 4 && n3.a.reqs[1].id == 1
    requires n3.b.reqs.Keys == {-1} && -1 !in n3.b.pending && n3.ba == N.Wire([], true)
    requires K.SaneSink(n3.b.reqs[-1].snk) && n3.b.reqs[-1].snk.closed.None? && n3.b.reqs[-1].ctx.None?
    requires 0 < |b| <= C.MAX_BUFFER_SIZE && n3.b.reqs[-1].snk.req == -1
    ensures var n4 := N.NetStep(su, n3, N.AtB(N.Do(User(-1, Write(b)))));
            var n5 := N.NetStep(su, n4, N.AtA(N.Do(User(1, OnSource(S.Cancellation(None))))));
            n6 == N.NetStep(su, n5, N.AtA(N.Deliver))
    ensures !n6.ba.inStep
  {
    hide C.ToByte, C.FromByte, CloseParts, K.IsEnd;
    var n4 := N.NetStep(su, n3, N.AtB(N.Do(User(-1, Write(b)))));
    var n5 := N.NetStep(su, n4, N.AtA(N.Do(User(1, OnSource(S.Cancellation(None))))));
    n6 := N.NetStep(su, n5, N.AtA(N.Deliver));
    var snk := n3.b.reqs[-1].snk;
    K.WriteFacts(snk, None, b, true);
    var p := K.DataPacket(snk, b);
    assert n4.ba.pkts == [p] && n4.a == n3.a;
    assert n5.ba.pkts == [p] && n5.a.reqs[1].src.failed.Some? && n5.a.closed == {};
    assert !Receive(su.A(), n5.a, p).drained;
  }

  // ---- whole runs ----

  /** Iterations on the bytes; `goes` says for each whether the connection takes what it writes. */
  function ServeMany(cfg: Config, ep: Endpoint, input: Bytes, goes: seq<bool>): (Endpoint, Bytes, seq<Packet>)
    decreases |goes|
  {
    if goes == [] then (ep, input, [])
    else
      var s := ServeOnce(cfg.(goes := goes[0]), ep, input);
      var (ep', rest, out) := ServeMany(cfg, s.fx.ep, s.rest, goes[1..]);
      (ep', rest, s.fx.out + out)
  }

  /** The packet network is what happens on the bytes: if the wire is in step and its bytes are the
      printed packets, then after a delivery the same holds again, as long as the model says so. */
  lemma DeliveryOnBytes(cfg: Config, me: Endpoint, inw: N.Wire, outw: N.Wire, more: Bytes)
    requires N.Deliverable(me, inw) && C.AllSendable(inw.pkts)
    ensures var (me', inw', outw') := N.Local(cfg, me, inw, outw, N.Deliver);
            var s := ServeOnce(cfg, me, C.PrintAll(inw.pkts) + more);
            && s.fx.ep == me' && outw'.pkts == outw.pkts + s.fx.out
            && (inw'.inStep <==> s.rest == C.PrintAll(inw'.pkts) + more)
  {
    hide ServeOnce, Receive, C.Print;
    var p := inw.pkts[0];
    assert p in inw.pkts;
    var tail := C.PrintAll(inw.pkts[1..]) + more;
    assert C.PrintAll(inw.pkts) + more == C.Print(p) + tail;
    ServePrinted(cfg, me, p, tail);
    BoundaryExactly(cfg, me, p, tail);
  }

  // ---- connections that end in the middle of a packet ----

  lemma CancelTwice(cfg: Config, st: Stream, err: Option<Error>)
    requires err.Some?
    ensures CloseParts(cfg, st, err) == CloseParts(cfg, st.(src := S.Cancel(st.src, err)), err)
  {
    hide K.Close;
  }

  /** A body that stops short fails the source and closes the stream; what was queued stays readable. */
  lemma ShortDataCloses(cfg: Config, ep: Endpoint, st: Stream, flag: byte, len: uint32, body: Bytes)
    requires Inv(ep) && st.id in ep.reqs && ep.reqs[st.id] == st && st.src.failed.None? && |body| < len
    ensures var fx := ReceiveData(cfg, ep, st, flag, len, body);
            && Inv(fx.ep) && fx.drained && fx.fatal.None?
            && st.id !in fx.ep.reqs && st.id in fx.ep.retired && fx.ep.retired[st.id].src.failed == Some(ShortBody)
            && fx.ep.retired[st.id].got == st.got && StreamInv(fx.ep.retired[st.id])
            && Retires(ep, st.id, fx.ep.retired[st.id], fx.ep)
            && var src := fx.ep.retired[st.id].src.(failed := None, closings := st.src.closings);
               Closes(cfg, st.(src := src), Some(ShortBody), st.abortable, fx.ep.retired[st.id], fx.out)
  {
    hide StreamInv, F.CopyBody, S.Cancel;
    var rd := F.Body(body, false);
    var (src, err) := S.Consume(st.src, len, flag, rd);
    assert StreamInv(st.(src := S.Cancel(src, err))) && err == Some(ShortBody) && src.failed.None? by {
      ShortConsume(st, flag, len, body);
    }
    CancelTwice(cfg, st.(src := src), err);
    var st1 := st.(src := S.Cancel(src, err));
    CloseStreamFacts(cfg, ep, st1, err, true);
    ClosePartsFacts(cfg, st1, err);
    CancelledWith(cfg, st.(src := src), err);
    CloseWithExactly(cfg, st.(src := src), err, st.abortable);
  }

  /** What an iteration does on a header whose body is cut off by the end of the input. An end packet for an
      active stream ends the loop and leaves the stream alone; data for a stream whose source has failed
      is answered although nothing of it can be read. */
  lemma CutBody(cfg: Config, ep: Endpoint, h: C.Header, body: Bytes)
    requires Inv(ep) && |body| < h.len
    ensures var i, end, fx := Neg32(h.req), h.flag / 4 % 2 == 1, OnHeader(cfg, ep, h, body);
            && (i in ep.reqs && end ==> fx == Effect(ep.(serving := false), [], true, Some(ShortBody)))
            && (i in ep.reqs && !end && ep.reqs[i].src.failed.Some? ==>
                  && !fx.drained && fx.fatal == None && i in fx.ep.retired && Retires(ep, i, fx.ep.retired[i], fx.ep)
                  && Closes(cfg, ep.reqs[i], Some(SourceCanceled(ep.reqs[i].src.failed.value)), ep.reqs[i].abortable,
                            fx.ep.retired[i], fx.out))
            && (i in ep.closed ==> fx == Effect(ep, [], true, None))
            && (i !in ep.reqs && i !in ep.closed && end ==> fx == Effect(ep, [], false, None))
  {
    hide Inv, StreamInv, Closes, CloseWith, K.Text, ReceiveCall;
    var i := Neg32(h.req);
    EndBitExactly(C.Packet(h.flag, h.req, []));
    if i in ep.reqs {
      IdOf(ep, i);
      ActiveOpen(ep, i);
      var st := ep.reqs[i];
      if st.src.failed.Some? {
        var err := Some(SourceCanceled(st.src.failed.value));
        assert S.Consume(st.src, h.len, h.flag, F.Body(body, false)) == (st.src, err);
        assert st.(src := st.src) == st;
        CloseStreamExactly(cfg, ep, i, err, false);
      }
    }
  }

  /** Without a header, or with nine zeros, the loop ends. */
  lemma NoHeaderStops(cfg: Config, ep: Endpoint, input: Bytes)
    requires |input| < 9 || input[..9] == [0, 0, 0, 0, 0, 0, 0, 0, 0]
    ensures ServeOnce(cfg, ep, input) ==
            Served(Effect(ep.(serving := false), [], true, Some(if 0 < |input| < 9 then UnexpectedEOF else EOF)),
                   if |input| < 9 then [] else input[9..])
  {
    hide OnHeader, C.ScanHeader, C.ZeroHeader;
    if |input| >= 9 {
      ZerosStop(input[..9]);
    }
  }

  lemma ZerosStop(s: Bytes)
    requires s == [0, 0, 0, 0, 0, 0, 0, 0, 0]
    ensures C.ZeroHeader(C.ScanHeader(s))
  {
    assert s[1..5] == [0, 0, 0, 0] && s[5..] == [0, 0, 0, 0];
  }

  lemma CancelledWith(cfg: Config, st: Stream, err: Option<Error>)
    requires st.src.failed.None? && err.Some?
    ensures CloseParts(cfg, st, err).0.src.failed == err
  {
    hide K.Close;
  }

  lemma ShortConsume(st: Stream, flag: byte, len: uint32, body: Bytes)
    requires StreamInv(st) && st.src.failed.None? && |body| < len
    ensures var (src, err) := S.Consume(st.src, len, flag, F.Body(body, false));
            err == Some(ShortBody) && src.failed.None? && StreamInv(st.(src := S.Cancel(src, err)))
  {
    hide S.Holding, LE32;
    S.DeliverHolding(st.src, st.got, st.taken, len, flag, F.Body(body, false));
  }

  /** Every iteration keeps the tables in order, on any bytes whatsoever. */
  lemma OnHeaderInv(cfg: Config, ep: Endpoint, h: C.Header, body: Bytes)
    requires Inv(ep) && |body| <= h.len
    ensures Inv(OnHeader(cfg, ep, h, body).ep)
  {
    hide StreamInv, ReceiveEnd, ReceiveData, ReceiveCall, C.FromByte, Inv;
    var i := Neg32(h.req);
    NotServingInv(ep);
    ReceiveEndKeeps(cfg, ep, i, body);
    if i in ep.reqs {
      assert ep.reqs[i].id == i by { IdOf(ep, i); }
      if |body| == h.len {
        ReceiveDataKeeps(cfg, ep, i, h.flag, body);
      } else if ep.reqs[i].src.failed.None? {
        ShortDataCloses(cfg, ep, ep.reqs[i], h.flag, h.len, body);
      } else {
        FailedDataCloses(cfg, ep, i, h.flag, h.len, body);
      }
    } else if i !in ep.closed {
      ReceiveCallKeeps(cfg, ep, i, C.FromByte(h.flag), body);
    }
  }

  lemma FailedDataCloses(cfg: Config, ep: Endpoint, i: int32, flag: byte, len: uint32, body: Bytes)
    requires Inv(ep) && i in ep.reqs && ep.reqs[i].src.failed.Some?
    ensures Inv(ReceiveData(cfg, ep, ep.reqs[i], flag, len, body).ep)
  {
    hide StreamInv, Inv, CloseStream;
    IdOf(ep, i);
    var st := ep.reqs[i];
    CloseStreamFacts(cfg, ep, st, Some(SourceCanceled(st.src.failed.value)), false);
    assert st.(src := st.src) == st;
  }
}
