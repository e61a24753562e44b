/** The network runs dry: without user actions the serve loops exchange a bounded number of packets. */
module Quiescence {
  import opened Base
  import C = Codec
  import K = Sink
  import S = Source
  import F = FrameBuffer
  import opened Session
  import opened Network

  /** Two for every packet in flight, but one for an end packet. */
  function Weight(ps: seq<Packet>): nat {
    if ps == [] then 0 else (if K.IsEnd(ps[0]) then 1 else 2) + Weight(ps[1..])
  }

  function Measure(net: Net): nat {
    Weight(net.ab.pkts) + Weight(net.ba.pkts) + |net.a.reqs| + |net.b.reqs|
  }

  lemma {:induction false} WeightAppend(a: seq<Packet>, b: seq<Packet>)
    ensures Weight(a + b) == Weight(a) + Weight(b)
  {
    hide K.IsEnd;
    if a == [] {
      assert a + b == b;
    } else {
      assert (a + b)[1..] == a[1..] + b;
      WeightAppend(a[1..], b);
    }
  }

  lemma WeightOfEnds(out: seq<Packet>)
    requires |out| <= 1 && forall p | p in out :: K.IsEnd(p)
    ensures Weight(out) == |out|
  {
    hide K.IsEnd;
    if out != [] {
      assert out[1..] == [];
    }
  }

  lemma RemoveOne<V>(m: map<int32, V>, k: int32)
    requires k in m
    ensures |m - {k}| == |m| - 1
  {
    assert (m - {k}).Keys == m.Keys - {k};
  }

  lemma AddOne<V>(m: map<int32, V>, k: int32, v: V)
    requires k !in m
    ensures |m[k := v]| == |m| + 1
  {
    assert m[k := v].Keys == m.Keys + {k};
  }

  /** What one serve iteration costs: the packet it takes outweighs what it sends and opens. */
  ghost predicate Cheaper(ep: Endpoint, p: Packet, fx: Effect) {
    |fx.out| + |fx.ep.reqs| < |ep.reqs| + if K.IsEnd(p) then 1 else 2
  }

  lemma EndCheaper(cfg: Config, ep: Endpoint, p: Packet)
    requires Inv(ep) && K.IsEnd(p)
    ensures Cheaper(ep, p, Receive(cfg, ep, p))
  {
    hide Inv, StreamInv, K.IsEnd, CloseStream, ReceiveData, ReceiveCall;
    var i := Neg32(p.req);
    if i in ep.reqs {
      IdOf(ep, i);
      RemoveOne(ep.reqs, i);
      CloseStreamFacts(cfg, ep, ep.reqs[i], None, true);
      var e := cfg.json.decErr(p.body);
      if e.Some? {
        CloseStreamFacts(cfg, ep, ep.reqs[i], Some(CallError(e.value.0, e.value.1)), true);
      }
    }
  }

  lemma DataCheaper(cfg: Config, ep: Endpoint, p: Packet)
    requires Inv(ep) && !K.IsEnd(p) && C.Fits(p) && Neg32(p.req) in Known(ep)
    ensures Cheaper(ep, p, Receive(cfg, ep, p))
  {
    hide Inv, StreamInv, K.IsEnd, CloseStream, ReceiveEnd, ReceiveCall, S.Consume;
    var i := Neg32(p.req);
    if i in ep.reqs && i !in ep.closed {
      var st := ep.reqs[i];
      IdOf(ep, i);
      ConsumeFacts(st, p.flag, p.body);
      RemoveOne(ep.reqs, i);
      var err := S.Consume(st.src, Wrap32(|p.body|), p.flag, F.Body(p.body, false)).1;
      if err.Some? {
        CloseStreamFacts(cfg, ep, st, err, false);
      } else {
        SameKeys(ep, Receive(cfg, ep, p).ep);
      }
    }
  }

  lemma SameKeys(ep: Endpoint, ep': Endpoint)
    requires ep'.reqs.Keys == ep.reqs.Keys
    ensures |ep'.reqs| == |ep.reqs|
  {
    assert |ep'.reqs| == |ep'.reqs.Keys|;
  }

  lemma CallCheaper(cfg: Config, ep: Endpoint, p: Packet)
    requires Inv(ep) && !K.IsEnd(p) && Neg32(p.req) !in Known(ep)
    ensures Cheaper(ep, p, Receive(cfg, ep, p))
  {
    hide Inv, StreamInv, K.IsEnd, ReceiveEnd, ReceiveData, K.EndErr, NewStream, WellTyped, C.FromByte, C.Fits, C.Get;
    var i := Neg32(p.req);
    AddOne(ep.reqs, i, NewStream(i, C.FLAG_STREAM, true));
    AddOne(ep.reqs, i, NewStream(i, C.NO_FLAGS, true));
  }

  lemma ReceiveCheaper(cfg: Config, ep: Endpoint, p: Packet)
    requires Inv(ep) && C.Fits(p)
    ensures Cheaper(ep, p, Receive(cfg, ep, p))
  {
    hide Receive, Inv, K.IsEnd, Cheaper;
    if K.IsEnd(p) {
      EndCheaper(cfg, ep, p);
    } else if Neg32(p.req) in Known(ep) {
      DataCheaper(cfg, ep, p);
    } else {
      CallCheaper(cfg, ep, p);
    }
  }

  // ---- the network ----

  ghost predicate Sound(net: Net) {
    && Inv(net.a) && Inv(net.b)
    && (forall p | p in net.ab.pkts + net.ba.pkts :: C.Fits(p))
  }

  /** A serve iteration takes place. */
  predicate Moves(net: Net, ev: NetEvent) {
    match ev
    case AtA(mv) => mv.Deliver? && Deliverable(net.a, net.ba)
    case AtB(mv) => mv.Deliver? && Deliverable(net.b, net.ab)
  }

  lemma LocalDecreases(cfg: Config, me: Endpoint, inw: Wire, outw: Wire)
    requires Inv(me) && Deliverable(me, inw) && (forall p | p in inw.pkts + outw.pkts :: C.Fits(p))
    ensures var (me', inw', outw') := Local(cfg, me, inw, outw, Deliver);
            && Inv(me') && (forall p | p in inw'.pkts + outw'.pkts :: C.Fits(p))
            && Weight(inw'.pkts) + Weight(outw'.pkts) + |me'.reqs| < Weight(inw.pkts) + Weight(outw.pkts) + |me.reqs|
  {
    hide Receive, Inv, K.IsEnd, C.Fits;
    var p := inw.pkts[0];
    assert p in inw.pkts + outw.pkts;
    ReceiveCheaper(cfg, me, p);
    ReceiveInv(cfg, me, p);
    var fx := Receive(cfg, me, p);
    WeightAppend(outw.pkts, fx.out);
    WeightOfEnds(fx.out);
  }

  /** Every serve iteration that takes place lowers the measure, on any packets and in any state whose
      tables are in order; an iteration that cannot take place changes nothing. */
  lemma DeliveryDecreases(su: Setup, net: Net, ev: NetEvent)
    requires Sound(net) && ev in {AtA(Deliver), AtB(Deliver)}
    ensures var net' := NetStep(su, net, ev);
            && Sound(net')
            && (if Moves(net, ev) then Measure(net') < Measure(net) else net' == net)
  {
    hide Receive, Inv, K.IsEnd, C.Fits, Local, Weight;
    if Moves(net, ev) {
      if ev.AtA? {
        LocalDecreases(su.A(), net.a, net.ba, net.ab);
      } else {
        LocalDecreases(su.B(), net.b, net.ab, net.ba);
      }
    } else {
      StuckStays(su, net, ev);
    }
  }

  lemma StuckStays(su: Setup, net: Net, ev: NetEvent)
    requires ev in {AtA(Deliver), AtB(Deliver)} && !Moves(net, ev)
    ensures NetStep(su, net, ev) == net
  {
  }

  /** How many of the events are serve iterations that take place. */
  function Iterations(su: Setup, net: Net, evs: seq<NetEvent>): nat
    decreases |evs|
  {
    if evs == [] then 0
    else (if Moves(net, evs[0]) then 1 else 0) + Iterations(su, NetStep(su, net, evs[0]), evs[1..])
  }

  predicate OnlyServing(evs: seq<NetEvent>) { forall ev | ev in evs :: ev in {AtA(Deliver), AtB(Deliver)} }

  /** Quiescence: with no further user actions at most Measure(net) packets are served, in any order
      of the two loops, so the closing handshake cannot go back and forth forever. */
  lemma {:induction false} BoundedServing(su: Setup, net: Net, evs: seq<NetEvent>)
    requires Sound(net) && OnlyServing(evs)
    ensures Sound(NetRun(su, net, evs))
    ensures Iterations(su, net, evs) + Measure(NetRun(su, net, evs)) <= Measure(net)
    decreases |evs|
  {
    hide NetStep, Sound, Measure, Moves;
    if evs != [] {
      assert evs[0] in evs;
      assert forall ev | ev in evs[1..] :: ev in evs;
      DeliveryDecreases(su, net, evs[0]);
      BoundedServing(su, NetStep(su, net, evs[0]), evs[1..]);
    }
  }

  /** Nothing is left that a serve loop could take. */
  predicate Idle(net: Net) { !Deliverable(net.a, net.ba) && !Deliverable(net.b, net.ab) }

  /** `n` rounds in which both loops get a turn. */
  function Rounds(su: Setup, net: Net, n: nat): Net
    decreases n
  {
    if n == 0 then net else Rounds(su, NetStep(su, NetStep(su, net, AtA(Deliver)), AtB(Deliver)), n - 1)
  }

  lemma {:induction false} IdleStays(su: Setup, net: Net, n: nat)
    requires Idle(net)
    ensures Rounds(su, net, n) == net
  {
    hide NetStep;
    if n > 0 {
      StuckStays(su, net, AtA(Deliver));
      StuckStays(su, net, AtB(Deliver));
      IdleStays(su, net, n - 1);
    }
  }

  /** After Measure(net) rounds, and any more, the network is idle: both channels are empty, unless a
      loop has stopped or a channel is out of step. */
  lemma {:induction false} NetworkDrains(su: Setup, net: Net, more: nat)
    requires Sound(net)
    ensures Idle(Rounds(su, net, Measure(net) + more))
    decreases Measure(net)
  {
    hide NetStep, Sound, Measure;
    if Idle(net) {
      IdleStays(su, net, Measure(net) + more);
    } else {
      DeliveryDecreases(su, net, AtA(Deliver));
      var net1 := NetStep(su, net, AtA(Deliver));
      DeliveryDecreases(su, net1, AtB(Deliver));
      var net2 := NetStep(su, net1, AtB(Deliver));
      NetworkDrains(su, net2, Measure(net) + more - 1 - Measure(net2));
    }
  }

  /** Every run of two endpoints can be left to itself: it is sound, so it drains. */
  lemma RunsDrain(su: Setup, evs: seq<NetEvent>)
    requires K.Faithful(su.json)
    ensures var net := NetRun(su, START_NET, evs);
            Sound(net) && Idle(Rounds(su, net, Measure(net)))
  {
    hide NetRun, K.Faithful, Measure, Sound, StreamAt, GoodEndpoint;
    StartConnected(su);
    RunKeeps(su, START_NET, evs);
    var net := NetRun(su, START_NET, evs);
    LinkedSound(su, net);
    NetworkDrains(su, net, 0);
  }

  lemma LinkedSound(su: Setup, net: Net)
    requires NetInv(su.json, net)
    ensures Sound(net)
  {
    hide StreamAt, StreamInv, Inv, K.Decodable;
    forall p | p in net.ab.pkts + net.ba.pkts
      ensures C.Fits(p)
    {
      assert GoodPacket(su.json, p);
    }
  }
}
