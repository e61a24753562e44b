/** Two endpoints joined by two streams of bytes, and when they are the network of packets. */
module Wires {
  import opened Base
  import C = Codec
  import K = Sink
  import S = Source
  import opened Session
  import opened Serve
  import N = Network

  // ---- one end ----

  /** The serve loop completes an iteration on the bytes that have come in so far; otherwise it waits
      for more. A body that is not going to be read need not have come in. */
  predicate CanServe(cfg: Config, ep: Endpoint, input: Bytes) {
    && ep.serving && |input| >= C.HEADER_SIZE
    && (C.HeaderAt(input).GotHeader? ==>
          var h := C.HeaderAt(input).hdr;
          var rest := input[C.HEADER_SIZE..];
          |rest| >= h.len || !OnHeader(cfg, ep, h, rest).drained)
  }

  /** One end, the bytes on their way to it and those on their way from it, after a move. */
  function ByteLocal(cfg: Config, me: Endpoint, input: Bytes, output: Bytes, mv: N.Move): (Endpoint, Bytes, Bytes) {
    match mv
    case Deliver =>
      if !CanServe(cfg, me, input) then (me, input, output)
      else
        var s := ServeOnce(cfg, me, input);
        (s.fx.ep, s.rest, output + C.PrintAll(s.fx.out))
    case Do(act) =>
      var (me', out) := ActStep(cfg, me, act);
      (me', input, output + C.PrintAll(out))
  }

  /** The next packet puts the end out of step: data with a body, for an active stream whose source this
      end has failed. */
  predicate Hit(me: Endpoint, inw: N.Wire) {
    && N.Deliverable(me, inw)
    && var p := inw.pkts[0];
       var i := Neg32(p.req);
       !K.IsEnd(p) && p.body != [] && i in me.reqs && me.reqs[i].src.failed.Some?
  }

  /** The same, seen on the bytes. */
  predicate ByteHit(cfg: Config, me: Endpoint, input: Bytes) {
    && CanServe(cfg, me, input) && C.HeaderAt(input).GotHeader?
    && var h := C.HeaderAt(input).hdr;
       var i := Neg32(h.req);
       !C.Get(C.FromByte(h.flag), C.FLAG_END_ERR) && h.len > 0 && i in me.reqs && me.reqs[i].src.failed.Some?
  }

  lemma WholePacket(p: Packet, t: Bytes)
    requires C.Sendable(p)
    ensures var s := C.Print(p) + t;
            && |s| >= C.HEADER_SIZE && C.HeaderAt(s) == C.GotHeader(C.HeaderOf(p))
            && |s[C.HEADER_SIZE..]| >= |p.body| && (C.HeaderOf(p).len == 0 <==> p.body == [])
            && C.HeaderOf(p).len == |p.body|
  {
    hide C.Print, C.HeaderAt;
    C.PrintedHeader(p, t);
  }

  lemma SplitFirst(ps: seq<Packet>, t: Bytes)
    requires ps != []
    ensures C.PrintAll(ps) + t == C.Print(ps[0]) + (C.PrintAll(ps[1..]) + t)
  {
    hide C.Print;
  }

  /** A move on the bytes is the move on the packets, whoever sent them, as long as the wire stays in
      step. `t` is the beginning of a header. */
  lemma LocalOnBytes(cfg: Config, me: Endpoint, inw: N.Wire, outw: N.Wire, mv: N.Move, t: Bytes)
    requires C.AllSendable(inw.pkts) && inw.inStep
    requires |t| < C.HEADER_SIZE || inw.pkts != [] || mv.Do?
    ensures var (me', inw', outw') := N.Local(cfg, me, inw, outw, mv);
            var (me1, input, output) := ByteLocal(cfg, me, C.PrintAll(inw.pkts) + t, C.PrintAll(outw.pkts), mv);
            && C.AllSendable(inw'.pkts) && me1 == me' && output == C.PrintAll(outw'.pkts)
            && (inw'.inStep <==> input == C.PrintAll(inw'.pkts) + t)
  {
    hide ServeOnce, Receive, C.Print, C.PrintAll, C.HeaderAt, ActStep;
    match mv {
      case Do(act) => C.PrintAllAppend(outw.pkts, ActStep(cfg, me, act).1);
      case Deliver =>
        if inw.pkts == [] {
          assert C.PrintAll([]) + t == t by { NothingPrinted(t); }
        } else {
          var p := inw.pkts[0];
          assert C.Sendable(p) by { assert p in inw.pkts; }
          SplitFirst(inw.pkts, t);
          WholePacket(p, C.PrintAll(inw.pkts[1..]) + t);
          if me.serving {
            DeliveryOnBytes(cfg, me, inw, outw, t);
            C.PrintAllAppend(outw.pkts, ServeOnce(cfg, me, C.PrintAll(inw.pkts) + t).fx.out);
          }
        }
    }
  }

  lemma NothingPrinted(t: Bytes)
    ensures C.PrintAll([]) + t == t
  {
  }

  /** Where the boundary is lost: exactly at a hit. */
  lemma HitOnBytes(cfg: Config, me: Endpoint, inw: N.Wire)
    requires C.AllSendable(inw.pkts) && inw.inStep
    ensures Hit(me, inw) <==> ByteHit(cfg, me, C.PrintAll(inw.pkts))
  {
    hide C.Print, C.HeaderAt, C.FromByte, OnHeader;
    if inw.pkts == [] {
      assert C.PrintAll([]) == [];
    } else {
      var p := inw.pkts[0];
      assert p in inw.pkts;
      SplitFirst(inw.pkts, []);
      assert C.PrintAll(inw.pkts) + [] == C.PrintAll(inw.pkts);
      WholePacket(p, C.PrintAll(inw.pkts[1..]) + []);
    }
  }

  // ---- runs of one end, against any peer ----

  function LocalRun(cfg: Config, me: Endpoint, inw: N.Wire, outw: N.Wire, mvs: seq<N.Move>): (Endpoint, N.Wire, N.Wire)
    decreases |mvs|
  {
    if mvs == [] then (me, inw, outw)
    else
      var (me1, inw1, outw1) := N.Local(cfg, me, inw, outw, mvs[0]);
      LocalRun(cfg, me1, inw1, outw1, mvs[1..])
  }

  function ByteLocalRun(cfg: Config, me: Endpoint, input: Bytes, output: Bytes, mvs: seq<N.Move>)
    : (Endpoint, Bytes, Bytes)
    decreases |mvs|
  {
    if mvs == [] then (me, input, output)
    else
      var (me1, input1, output1) := ByteLocal(cfg, me, input, output, mvs[0]);
      ByteLocalRun(cfg, me1, input1, output1, mvs[1..])
  }

  lemma LostStaysLost(cfg: Config, me: Endpoint, inw: N.Wire, outw: N.Wire, mv: N.Move)
    ensures N.Local(cfg, me, inw, outw, mv).1.inStep ==> inw.inStep
  {
    hide Receive, ActStep;
  }

  lemma {:induction false} RunLostStaysLost(cfg: Config, me: Endpoint, inw: N.Wire, outw: N.Wire, mvs: seq<N.Move>)
    ensures LocalRun(cfg, me, inw, outw, mvs).1.inStep ==> inw.inStep
    decreases |mvs|
  {
    hide N.Local;
    if mvs != [] {
      LostStaysLost(cfg, me, inw, outw, mvs[0]);
      var (me1, inw1, outw1) := N.Local(cfg, me, inw, outw, mvs[0]);
      RunLostStaysLost(cfg, me1, inw1, outw1, mvs[1..]);
    }
  }

  /** Wire framing, against any peer and with any user actions between the iterations: as long as no body
      is left unread, the loop reads the bytes packet by packet, does with them what Receive does with
      the packets, writes whole packets, and its cursor stands on a packet boundary. */
  lemma {:induction false} WireFraming(cfg: Config, me: Endpoint, inw: N.Wire, outw: N.Wire, mvs: seq<N.Move>, t: Bytes)
    requires C.AllSendable(inw.pkts) && |t| < C.HEADER_SIZE
    ensures var (me', inw', outw') := LocalRun(cfg, me, inw, outw, mvs);
            inw'.inStep ==>
              ByteLocalRun(cfg, me, C.PrintAll(inw.pkts) + t, C.PrintAll(outw.pkts), mvs)
              == (me', C.PrintAll(inw'.pkts) + t, C.PrintAll(outw'.pkts))
    decreases |mvs|
  {
    hide N.Local, ByteLocal, C.PrintAll;
    if mvs != [] && LocalRun(cfg, me, inw, outw, mvs).1.inStep {
      var (me1, inw1, outw1) := N.Local(cfg, me, inw, outw, mvs[0]);
      RunLostStaysLost(cfg, me1, inw1, outw1, mvs[1..]);
      LostStaysLost(cfg, me, inw, outw, mvs[0]);
      LocalOnBytes(cfg, me, inw, outw, mvs[0], t);
      WireFraming(cfg, me1, inw1, outw1, mvs[1..], t);
    }
  }

  // ---- two ends ----

  datatype ByteNet = ByteNet(a: Endpoint, b: Endpoint, ab: Bytes, ba: Bytes)

  const START_BYTES: ByteNet := ByteNet(START, START, [], [])

  function ByteStep(su: N.Setup, net: ByteNet, ev: N.NetEvent): ByteNet {
    match ev
    case AtA(mv) => var (a, ba, ab) := ByteLocal(su.A(), net.a, net.ba, net.ab, mv); ByteNet(a, net.b, ab, ba)
    case AtB(mv) => var (b, ab, ba) := ByteLocal(su.B(), net.b, net.ab, net.ba, mv); ByteNet(net.a, b, ab, ba)
  }

  function ByteRun(su: N.Setup, net: ByteNet, evs: seq<N.NetEvent>): ByteNet
    decreases |evs|
  {
    if evs == [] then net else ByteRun(su, ByteStep(su, net, evs[0]), evs[1..])
  }

  function OnBytes(net: N.Net): ByteNet { ByteNet(net.a, net.b, C.PrintAll(net.ab.pkts), C.PrintAll(net.ba.pkts)) }

  predicate InStep(net: N.Net) { net.ab.inStep && net.ba.inStep }

  /** The event is an iteration that loses the packet boundary. */
  predicate Loses(su: N.Setup, net: ByteNet, ev: N.NetEvent) {
    match ev
    case AtA(mv) => mv.Deliver? && ByteHit(su.A(), net.a, net.ba)
    case AtB(mv) => mv.Deliver? && ByteHit(su.B(), net.b, net.ab)
  }

  /** No event of the run is such an iteration. */
  predicate NeverLoses(su: N.Setup, net: ByteNet, evs: seq<N.NetEvent>)
    decreases |evs|
  {
    evs == [] || (!Loses(su, net, evs[0]) && NeverLoses(su, ByteStep(su, net, evs[0]), evs[1..]))
  }

  lemma LinkedSendable(j: K.Json, me: Endpoint, peer: Endpoint, inw: seq<Packet>, outw: seq<Packet>)
    requires N.Linked(j, me, peer, inw, outw)
    ensures C.AllSendable(inw) && C.AllSendable(outw)
  {
    hide N.StreamAt, N.GoodEndpoint, K.Decodable, C.Sendable;
    forall p | p in inw
      ensures C.Sendable(p)
    {
      assert N.GoodPacket(j, p);
    }
    forall p | p in outw
      ensures C.Sendable(p)
    {
      assert N.GoodPacket(j, p);
    }
  }

  /** At one end: the move keeps the wire in step unless it is a hit. */
  lemma HitLoses(cfg: Config, me: Endpoint, peer: Endpoint, inw: N.Wire, outw: N.Wire, mv: N.Move)
    requires N.Linked(cfg.json, me, peer, inw.pkts, outw.pkts) && N.Works(cfg) && inw.inStep
    ensures N.Local(cfg, me, inw, outw, mv).1.inStep <==> !(mv.Deliver? && Hit(me, inw))
  {
    hide Receive, ActStep, N.Linked, K.IsEnd, N.IsOpening, N.Unanswerable;
    N.OrderlyEnd(cfg, me, peer, inw, outw);
  }

  lemma LocalMatches(cfg: Config, me: Endpoint, peer: Endpoint, inw: N.Wire, outw: N.Wire, mv: N.Move)
    requires N.Linked(cfg.json, me, peer, inw.pkts, outw.pkts) && N.Works(cfg) && inw.inStep
    ensures var (me', inw', outw') := N.Local(cfg, me, inw, outw, mv);
            && (inw'.inStep <==> !(mv.Deliver? && ByteHit(cfg, me, C.PrintAll(inw.pkts))))
            && outw'.inStep == outw.inStep
            && (inw'.inStep ==> ByteLocal(cfg, me, C.PrintAll(inw.pkts), C.PrintAll(outw.pkts), mv)
                                == (me', C.PrintAll(inw'.pkts), C.PrintAll(outw'.pkts)))
  {
    hide N.Linked, ByteLocal, C.PrintAll, Hit, ByteHit, Receive, ActStep;
    LinkedSendable(cfg.json, me, peer, inw.pkts, outw.pkts);
    HitLoses(cfg, me, peer, inw, outw, mv);
    HitOnBytes(cfg, me, inw);
    LocalOnBytes(cfg, me, inw, outw, mv, []);
    var inw' := N.Local(cfg, me, inw, outw, mv).1;
    assert C.PrintAll(inw.pkts) + [] == C.PrintAll(inw.pkts) && C.PrintAll(inw'.pkts) + [] == C.PrintAll(inw'.pkts);
  }

  lemma StepMatches(su: N.Setup, net: N.Net, ev: N.NetEvent)
    requires N.NetInv(su.json, net) && K.Faithful(su.json) && InStep(net)
    ensures var net' := N.NetStep(su, net, ev);
            && (InStep(net') <==> !Loses(su, OnBytes(net), ev))
            && (InStep(net') ==> ByteStep(su, OnBytes(net), ev) == OnBytes(net'))
  {
    hide N.Linked, N.Local, ByteLocal, C.PrintAll, ByteHit, K.Faithful;
    match ev {
      case AtA(mv) => LocalMatches(su.A(), net.a, net.b, net.ba, net.ab, mv);
      case AtB(mv) =>
        N.Swap(su.json, net.a, net.b, net.ba.pkts, net.ab.pkts);
        LocalMatches(su.B(), net.b, net.a, net.ab, net.ba, mv);
    }
  }

  lemma StepLostStaysLost(su: N.Setup, net: N.Net, ev: N.NetEvent)
    ensures InStep(N.NetStep(su, net, ev)) ==> InStep(net)
  {
    hide Receive, ActStep;
  }

  lemma {:induction false} NetLostStaysLost(su: N.Setup, net: N.Net, evs: seq<N.NetEvent>)
    ensures InStep(N.NetRun(su, net, evs)) ==> InStep(net)
    decreases |evs|
  {
    hide N.NetStep;
    if evs != [] {
      StepLostStaysLost(su, net, evs[0]);
      NetLostStaysLost(su, N.NetStep(su, net, evs[0]), evs[1..]);
    }
  }

  /** The network of packets is what happens on the bytes, in every run, until an iteration meets data for
      a source that its own side has failed; and that is exactly when it stops being so. */
  lemma {:induction false} RunMatches(su: N.Setup, net: N.Net, evs: seq<N.NetEvent>)
    requires N.NetInv(su.json, net) && K.Faithful(su.json) && InStep(net)
    ensures var net' := N.NetRun(su, net, evs);
            && (InStep(net') <==> NeverLoses(su, OnBytes(net), evs))
            && (InStep(net') ==> ByteRun(su, OnBytes(net), evs) == OnBytes(net'))
    decreases |evs|
  {
    hide N.NetStep, ByteStep, Loses, InStep, OnBytes, N.NetInv, K.Faithful;
    if evs != [] {
      var net1 := N.NetStep(su, net, evs[0]);
      StepMatches(su, net, evs[0]);
      N.StepKeeps(su, net, evs[0]);
      NetLostStaysLost(su, net1, evs[1..]);
      if InStep(net1) {
        RunMatches(su, net1, evs[1..]);
      }
    }
  }

  /** What holds between two ends when the bytes in flight are these packets. */
  ghost predicate Consistent(su: N.Setup, net: ByteNet, ab: seq<Packet>, ba: seq<Packet>) {
    && net.ab == C.PrintAll(ab) && net.ba == C.PrintAll(ba) && C.AllSendable(ab) && C.AllSendable(ba)
    && N.Orderly(su.A(), net.a, N.Wire(ba, true)) && N.Orderly(su.B(), net.b, N.Wire(ab, true))
    && (forall i | N.Id(i) ::
          && N.CloseArrives(net.a, net.b, N.Wire(ab, true), i) && N.CloseArrives(net.b, net.a, N.Wire(ba, true), i)
          && N.Delivers(net.b, net.a, N.Wire(ba, true), i) && N.Delivers(net.a, net.b, N.Wire(ab, true), i)
          && (N.StreamOf(net.a, i).Some? ==>
                N.ReadsWhatWasSent(N.StreamOf(net.a, i).value, N.SenderOf(net.b, Neg32(i)).sent))
          && (N.StreamOf(net.b, i).Some? ==>
                N.ReadsWhatWasSent(N.StreamOf(net.b, i).value, N.SenderOf(net.a, Neg32(i)).sent)))
  }

  /** Two ends on their byte streams. In every run in which no serve iteration meets data for a source that
      its own side has failed, the bytes in flight are whole packets, each loop meets only what it can
      handle, every stream and its close are delivered in both directions, and readers get what writers
      sent. */
  lemma BytesConsistent(su: N.Setup, evs: seq<N.NetEvent>) returns (ab: seq<Packet>, ba: seq<Packet>)
    requires K.Faithful(su.json) && NeverLoses(su, START_BYTES, evs)
    ensures Consistent(su, ByteRun(su, START_BYTES, evs), ab, ba)
  {
    hide N.NetRun, ByteRun, NeverLoses, N.Orderly, N.Delivers, N.StreamOf, N.ReadsWhatWasSent, N.Linked,
         N.CloseArrives, C.PrintAll, K.Faithful;
    var net := N.NetRun(su, N.START_NET, evs);
    ab, ba := net.ab.pkts, net.ba.pkts;
    N.StartConnected(su);
    assert OnBytes(N.START_NET) == START_BYTES by { NothingPrinted([]); }
    RunMatches(su, N.START_NET, evs);
    assert net.ab == N.Wire(ab, true) && net.ba == N.Wire(ba, true);
    N.RunKeeps(su, N.START_NET, evs);
    LinkedSendable(su.json, net.a, net.b, ba, ab);
    N.KnownIds(su, evs);
    forall i | N.Id(i)
      ensures N.CloseArrives(net.a, net.b, net.ab, i) && N.CloseArrives(net.b, net.a, net.ba, i)
      ensures N.Delivers(net.b, net.a, net.ba, i) && N.Delivers(net.a, net.b, net.ab, i)
      ensures N.StreamOf(net.a, i).Some? ==>
                N.ReadsWhatWasSent(N.StreamOf(net.a, i).value, N.SenderOf(net.b, Neg32(i)).sent)
      ensures N.StreamOf(net.b, i).Some? ==>
                N.ReadsWhatWasSent(N.StreamOf(net.b, i).value, N.SenderOf(net.a, Neg32(i)).sent)
    {
      N.ClosesArrive(su, evs, i);
      N.StreamsDeliver(su, evs, i);
      N.ReadersGetWhatWritersSent(su, evs, i);
    }
  }

  /** A regular use of a stream after which it no longer holds: see Serve.EarlyCancelHappens. */
  lemma EarlyCancelLoses(su: N.Setup, call: K.Call, b: Bytes)
    requires K.Faithful(su.json) && ClientType(call.typ) && su.handlesB(call.path)
    requires C.Fits(Opening(su.json, 1, call)) && 0 < |b| <= C.MAX_BUFFER_SIZE
    ensures !NeverLoses(su, START_BYTES, EarlyCancel(call, b))
  {
    hide N.NetRun, NeverLoses, K.Faithful, N.Linked, EarlyCancel;
    EarlyCancelHappens(su, call, b);
    N.StartConnected(su);
    assert OnBytes(N.START_NET) == START_BYTES by { NothingPrinted([]); }
    RunMatches(su, N.START_NET, EarlyCancel(call, b));
  }

  // ---- a call that ends the peer's loop ----

  function BadCall(call: K.Call): seq<N.NetEvent> {
    [N.AtA(N.Do(Allocate(call, K.TypeJSON, true))), N.AtA(N.Do(Session.Open(1))), N.AtB(N.Deliver)]
  }

  /** A call whose opening packet fits, that the peer does not handle, and whose rejection is too large to
      send, ends the peer's serve loop. */
  lemma BadCallStops(su: N.Setup, call: K.Call)
    requires K.Faithful(su.json) && ClientType(call.typ) && !su.handlesB(call.path)
    requires C.Fits(Opening(su.json, 1, call)) && !K.Answerable(su.json, call.path)
    ensures !N.NetRun(su, N.START_NET, BadCall(call)).b.serving
    ensures !ByteRun(su, START_BYTES, BadCall(call)).b.serving
  {
    hide C.ToByte, C.FromByte, Opening, Receive, ClientFlag, K.Faithful, ClientType, K.Answerable, N.NetRun, N.NetStep,
         NeverLoses, N.Linked, ByteRun;
    var evs := BadCall(call);
    assert evs == [evs[0], evs[1], evs[2]] + [];
    RunThree(su, N.START_NET, evs[0], evs[1], evs[2], []);
    RunNone(su, N.NetStep(su, N.NetStep(su, N.NetStep(su, N.START_NET, evs[0]), evs[1]), evs[2]));
    BadCallSteps(su, call);
    N.StartConnected(su);
    assert OnBytes(N.START_NET) == START_BYTES by { NothingPrinted([]); }
    RunMatches(su, N.START_NET, evs);
  }

  lemma RunNone(su: N.Setup, net: N.Net)
    ensures N.NetRun(su, net, []) == net
  {
  }

  lemma BadCallSteps(su: N.Setup, call: K.Call)
    requires K.Faithful(su.json) && ClientType(call.typ) && !su.handlesB(call.path)
    requires C.Fits(Opening(su.json, 1, call)) && !K.Answerable(su.json, call.path)
    ensures var evs := BadCall(call);
            var n := N.NetStep(su, N.NetStep(su, N.NetStep(su, N.START_NET, evs[0]), evs[1]), evs[2]);
            !n.b.serving && InStep(n)
  {
    hide C.ToByte, C.FromByte, Opening, Receive, ClientFlag, K.Faithful, ClientType, K.Answerable;
    var evs := BadCall(call);
    var n1 := N.NetStep(su, N.START_NET, evs[0]);
    var n2 := N.NetStep(su, n1, evs[1]);
    var p := Opening(su.json, 1, call);
    OpeningReq(su.json, 1, call);
    assert n2.ab.pkts == [p];
    OpeningIsCall(su.B(), 1, call);
    ReceiveOpening(su.B(), START, p, call);
  }

  // ---- runs whose users put away what they fail ----

  /** The action fails a source: it is a Cancel, or a Next that ends because a context did. */
  predicate Fails(act: Act) {
    && act.User? && act.op.OnSource?
    && var op := act.op.op;
       op.Cancellation? || (op.Waking? && !op.arm.ClosedChannel? && !op.arm.MoreChannel?)
  }

  /** At each end, the ids whose source its users have failed and not yet put away. */
  datatype Debts = Debts(a: set<int32>, b: set<int32>)

  const NO_DEBTS: Debts := Debts({}, {})

  function Owed(owed: set<int32>, mv: N.Move): set<int32> {
    match mv
    case Deliver => owed
    case Do(act) => if Fails(act) then owed + {act.k} else if act.Forget? then owed - {act.k} else owed
  }

  function Owing(d: Debts, ev: N.NetEvent): Debts {
    match ev
    case AtA(mv) => d.(a := Owed(d.a, mv))
    case AtB(mv) => d.(b := Owed(d.b, mv))
  }

  function OwingAll(d: Debts, evs: seq<N.NetEvent>): Debts
    decreases |evs|
  {
    if evs == [] then d else OwingAll(Owing(d, evs[0]), evs[1..])
  }

  /** Whoever fails a source takes its stream out of the table before the loop of that end goes on. */
  predicate Careful(d: Debts, evs: seq<N.NetEvent>)
    decreases |evs|
  {
    evs != [] ==>
      && (evs[0].mv.Deliver? ==> (if evs[0].AtA? then d.a else d.b) == {})
      && Careful(Owing(d, evs[0]), evs[1..])
  }

  /** Active streams with a failed source are owed, and have been opened. */
  ghost predicate Owes(ep: Endpoint, owed: set<int32>) {
    forall i | i in ep.reqs && ep.reqs[i].src.failed.Some? :: i in owed && i !in ep.pending
  }

  predicate NoneFailed(ep: Endpoint) { forall i | i in ep.reqs :: ep.reqs[i].src.failed.None? }

  lemma ReceiveKeepsSources(cfg: Config, ep: Endpoint, p: Packet)
    requires Inv(ep) && C.Fits(p) && NoneFailed(ep)
    ensures NoneFailed(Receive(cfg, ep, p).ep)
  {
    hide StreamInv, K.IsEnd, CloseParts, S.Consume, K.EndErr, C.FromByte, WellTyped;
    var i := Neg32(p.req);
    if !K.IsEnd(p) && i in ep.reqs {
      IdOf(ep, i);
      ConsumeFacts(ep.reqs[i], p.flag, p.body);
    }
  }

  lemma ActOwes(cfg: Config, ep: Endpoint, act: Act, owed: set<int32>)
    requires Inv(ep) && Owes(ep, owed)
    ensures Owes(ActStep(cfg, ep, act).0, Owed(owed, N.Do(act)))
  {
    hide UserStep, Opening, ClientType, ClientFlag, Inv;
    match act {
      case Allocate(call, re, abortable) =>
      case Open(k) =>
      case User(k, op) =>
        if k in ep.reqs && ep.reqs[k].src.failed.None? && !Fails(act) {
          GentleUser(cfg, ep.reqs[k], op);
        }
      case Forget(k) =>
        if k in ep.reqs {
          IdOf(ep, k);
        }
    }
  }

  lemma GentleUser(cfg: Config, st: Stream, op: UserOp)
    requires st.src.failed.None? && !Fails(User(st.id, op))
    ensures UserStep(cfg, st, op).0.src.failed.None?
  {
    hide K.Step;
  }

  lemma LocalOwes(cfg: Config, me: Endpoint, peer: Endpoint, inw: N.Wire, outw: N.Wire, mv: N.Move, owed: set<int32>)
    requires N.Linked(cfg.json, me, peer, inw.pkts, outw.pkts) && Owes(me, owed) && (mv.Deliver? ==> owed == {})
    ensures Owes(N.Local(cfg, me, inw, outw, mv).0, Owed(owed, mv)) && !(mv.Deliver? && Hit(me, inw))
  {
    hide N.Linked, Receive, ActStep, C.Sendable, Fails;
    N.LinkedInv(cfg.json, me, peer, inw.pkts, outw.pkts);
    LinkedSendable(cfg.json, me, peer, inw.pkts, outw.pkts);
    match mv {
      case Deliver =>
        if N.Deliverable(me, inw) {
          assert inw.pkts[0] in inw.pkts;
          N.SendableFits(inw.pkts[0]);
          ReceiveKeepsSources(cfg, me, inw.pkts[0]);
        }
      case Do(act) => ActOwes(cfg, me, act, owed);
    }
  }

  lemma CarefulStep(su: N.Setup, net: N.Net, ev: N.NetEvent, d: Debts)
    requires N.NetInv(su.json, net) && K.Faithful(su.json) && InStep(net)
    requires Owes(net.a, d.a) && Owes(net.b, d.b) && Careful(d, [ev])
    ensures var net' := N.NetStep(su, net, ev);
            InStep(net') && Owes(net'.a, Owing(d, ev).a) && Owes(net'.b, Owing(d, ev).b)
  {
    hide N.Linked, N.Local, Owes, K.Faithful, Hit, Owed;
    match ev {
      case AtA(mv) =>
        LocalOwes(su.A(), net.a, net.b, net.ba, net.ab, mv, d.a);
        HitLoses(su.A(), net.a, net.b, net.ba, net.ab, mv);
        OutgoingStays(su.A(), net.a, net.ba, net.ab, mv);
      case AtB(mv) =>
        N.Swap(su.json, net.a, net.b, net.ba.pkts, net.ab.pkts);
        LocalOwes(su.B(), net.b, net.a, net.ab, net.ba, mv, d.b);
        HitLoses(su.B(), net.b, net.a, net.ab, net.ba, mv);
        OutgoingStays(su.B(), net.b, net.ab, net.ba, mv);
    }
  }

  lemma OutgoingStays(cfg: Config, me: Endpoint, inw: N.Wire, outw: N.Wire, mv: N.Move)
    ensures N.Local(cfg, me, inw, outw, mv).2.inStep == outw.inStep
  {
    hide Receive, ActStep;
  }

  lemma {:induction false} CarefulRun(su: N.Setup, net: N.Net, evs: seq<N.NetEvent>, d: Debts)
    requires N.NetInv(su.json, net) && K.Faithful(su.json) && InStep(net)
    requires Owes(net.a, d.a) && Owes(net.b, d.b) && Careful(d, evs)
    ensures var net' := N.NetRun(su, net, evs);
            InStep(net') && Owes(net'.a, OwingAll(d, evs).a) && Owes(net'.b, OwingAll(d, evs).b)
    decreases |evs|
  {
    hide N.NetStep, Owes, Owing, InStep, N.NetInv, K.Faithful;
    if evs != [] {
      assert Careful(Owing(d, evs[0]), []);
      CarefulStep(su, net, evs[0], d);
      N.StepKeeps(su, net, evs[0]);
      CarefulRun(su, N.NetStep(su, net, evs[0]), evs[1..], Owing(d, evs[0]));
    }
  }

  /** If users put away every source that they fail before their loop goes on, the boundary is never lost,
      and the run on the bytes is consistent. */
  lemma CarefulRunsStayInStep(su: N.Setup, evs: seq<N.NetEvent>)
    requires K.Faithful(su.json) && Careful(NO_DEBTS, evs)
    ensures var net := N.NetRun(su, N.START_NET, evs);
            && InStep(net) && NeverLoses(su, START_BYTES, evs)
            && Owes(net.a, OwingAll(NO_DEBTS, evs).a) && Owes(net.b, OwingAll(NO_DEBTS, evs).b)
  {
    hide N.NetRun, NeverLoses, K.Faithful, N.Linked, Careful, OwingAll;
    N.StartConnected(su);
    assert OnBytes(N.START_NET) == START_BYTES by { NothingPrinted([]); }
    CarefulRun(su, N.START_NET, evs, NO_DEBTS);
    RunMatches(su, N.START_NET, evs);
  }

  /** No event of the run fails a source. */
  predicate AllGentle(evs: seq<N.NetEvent>) { forall ev | ev in evs :: !(ev.mv.Do? && Fails(ev.mv.act)) }

  lemma {:induction false} GentleOwesNothing(evs: seq<N.NetEvent>)
    requires AllGentle(evs)
    ensures Careful(NO_DEBTS, evs) && OwingAll(NO_DEBTS, evs) == NO_DEBTS
    decreases |evs|
  {
    hide Fails;
    if evs != [] {
      assert evs[0] in evs;
      assert forall ev | ev in evs[1..] :: ev in evs;
      assert Owing(NO_DEBTS, evs[0]) == NO_DEBTS;
      GentleOwesNothing(evs[1..]);
    }
  }

  /** If no user cancels a source and no Next ends with a context, then moreover no active stream ever has
      a failed source. */
  lemma GentleRunsStayInStep(su: N.Setup, evs: seq<N.NetEvent>)
    requires K.Faithful(su.json) && AllGentle(evs)
    ensures var net := N.NetRun(su, N.START_NET, evs);
            InStep(net) && NoneFailed(net.a) && NoneFailed(net.b) && NeverLoses(su, START_BYTES, evs)
  {
    hide N.NetRun, NeverLoses, K.Faithful, AllGentle, Careful;
    GentleOwesNothing(evs);
    CarefulRunsStayInStep(su, evs);
  }
}
