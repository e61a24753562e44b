/** How things end: runs that are left to themselves, closes that race with data, and closes that are
    never told. */
module Closing {
  import opened Base
  import C = Codec
  import K = Sink
  import S = Source
  import F = FrameBuffer
  import opened Session
  import opened Serve
  import N = Network
  import Q = Quiescence
  import opened Wires

  // ---- left to itself ----

  /** `n` turns of each serve loop. */
  function Turns(n: nat): seq<N.NetEvent> {
    if n == 0 then [] else [N.AtA(N.Deliver), N.AtB(N.Deliver)] + Turns(n - 1)
  }

  lemma {:induction false} TurnsAreRounds(su: N.Setup, net: N.Net, n: nat)
    ensures N.NetRun(su, net, Turns(n)) == Q.Rounds(su, net, n)
    decreases n
  {
    hide N.NetStep;
    if n > 0 {
      var first, second: seq<N.NetEvent> := [N.AtA(N.Deliver)], [N.AtB(N.Deliver)];
      var net1 := N.NetStep(su, net, N.AtA(N.Deliver));
      assert Turns(n) == first + (second + Turns(n - 1));
      N.RunAppend(su, net, first, second + Turns(n - 1));
      N.RunAppend(su, net1, second, Turns(n - 1));
      N.RunOne(su, net, N.AtA(N.Deliver));
      N.RunOne(su, net1, N.AtB(N.Deliver));
      TurnsAreRounds(su, N.NetStep(su, net1, N.AtB(N.Deliver)), n - 1);
    }
  }

  /** One direction at rest: unless the receiver's loop has stopped, no byte is left, a stream that still
      accepts data has all that was sent, and a stream whose sender said that it ends is gone. */
  ghost predicate Rests(s: Endpoint, r: Endpoint, bytes: Bytes) {
    r.serving ==>
      && bytes == []
      && forall q | N.Id(q) ::
           && (N.ReceiverOf(r, Neg32(q)).Taking? ==> N.ReceiverOf(r, Neg32(q)).got == N.SenderOf(s, q).sent)
           && (N.SenderOf(s, q).ended ==> Neg32(q) in Known(r) && Neg32(q) !in r.reqs)
  }

  lemma EmptyRests(s: Endpoint, r: Endpoint, pkts: seq<Packet>)
    requires r.serving ==> pkts == []
    requires forall q | N.Id(q) ::
               N.CloseArrives(s, r, N.Wire(pkts, true), q) && N.Delivers(s, r, N.Wire(pkts, true), Neg32(q))
    ensures Rests(s, r, C.PrintAll(pkts))
  {
    if r.serving {
      forall q | N.Id(q)
        ensures N.ReceiverOf(r, Neg32(q)).Taking? ==> N.ReceiverOf(r, Neg32(q)).got == N.SenderOf(s, q).sent
        ensures N.SenderOf(s, q).ended ==> Neg32(q) in Known(r) && Neg32(q) !in r.reqs
      {
        assert N.CloseArrives(s, r, N.Wire(pkts, true), q) && N.Delivers(s, r, N.Wire(pkts, true), Neg32(q));
        assert Filter(pkts, q) == [] && Neg32(Neg32(q)) == q;
        if N.ReceiverOf(r, Neg32(q)).Taking? {
          assert N.ReceiverOf(r, Neg32(q)).got + [] == N.ReceiverOf(r, Neg32(q)).got;
        }
      }
    }
  }

  lemma IdleIsEmpty(net: N.Net)
    requires Q.Idle(net) && InStep(net)
    ensures (net.a.serving ==> net.ba.pkts == []) && (net.b.serving ==> net.ab.pkts == [])
  {
  }

  /** Two ends on their byte streams that are left to their serve loops come to rest: after any run, and
      so many turns as there are packets in flight and streams open at its end, both directions are at
      rest, if no iteration loses the boundary. */
  lemma RunsComeToRest(su: N.Setup, evs: seq<N.NetEvent>, n: nat)
    requires K.Faithful(su.json) && NeverLoses(su, START_BYTES, evs + Turns(n))
    requires n >= Q.Measure(N.NetRun(su, N.START_NET, evs))
    ensures var net := ByteRun(su, START_BYTES, evs + Turns(n));
            Rests(net.a, net.b, net.ab) && Rests(net.b, net.a, net.ba)
  {
    hide N.NetRun, ByteRun, NeverLoses, N.Linked, K.Faithful, C.PrintAll, Q.Measure, Q.Sound, Q.Idle, Rests,
         N.CloseArrives, N.Delivers, Turns;
    var net0 := N.NetRun(su, N.START_NET, evs);
    var all := evs + Turns(n);
    var net := N.NetRun(su, N.START_NET, all);
    N.StartConnected(su);
    assert OnBytes(N.START_NET) == START_BYTES by { NothingPrinted([]); }
    RunMatches(su, N.START_NET, all);
    N.RunAppend(su, N.START_NET, evs, Turns(n));
    TurnsAreRounds(su, net0, n);
    Q.RunsDrain(su, evs);
    Q.NetworkDrains(su, net0, n - Q.Measure(net0));
    IdleIsEmpty(net);
    forall q | N.Id(q)
      ensures N.CloseArrives(net.a, net.b, net.ab, q) && N.CloseArrives(net.b, net.a, net.ba, q)
      ensures N.Delivers(net.a, net.b, net.ab, Neg32(q)) && N.Delivers(net.b, net.a, net.ba, Neg32(q))
    {
      N.ClosesArrive(su, all, q);
      N.StreamsDeliver(su, all, Neg32(q));
    }
    assert net.ab == N.Wire(net.ab.pkts, true) && net.ba == N.Wire(net.ba.pkts, true);
    EmptyRests(net.a, net.b, net.ab.pkts);
    EmptyRests(net.b, net.a, net.ba.pkts);
  }

  lemma {:induction false} CarefulAppend(d: Debts, a: seq<N.NetEvent>, b: seq<N.NetEvent>)
    ensures OwingAll(d, a + b) == OwingAll(OwingAll(d, a), b)
    ensures Careful(d, a + b) <==> Careful(d, a) && Careful(OwingAll(d, a), b)
    decreases |a|
  {
    hide Owing;
    if a == [] {
      assert a + b == b;
    } else {
      assert (a + b)[1..] == a[1..] + b;
      CarefulAppend(Owing(d, a[0]), a[1..], b);
    }
  }

  lemma {:induction false} TurnsOweNothing(n: nat)
    ensures AllGentle(Turns(n))
  {
    if n > 0 {
      TurnsOweNothing(n - 1);
    }
  }

  /** Which is so, if users put away every source that they fail before their loop goes on. */
  lemma CarefulRunsComeToRest(su: N.Setup, evs: seq<N.NetEvent>, n: nat)
    requires K.Faithful(su.json) && Careful(NO_DEBTS, evs) && OwingAll(NO_DEBTS, evs) == NO_DEBTS
    requires n >= Q.Measure(N.NetRun(su, N.START_NET, evs))
    ensures var net := ByteRun(su, START_BYTES, evs + Turns(n));
            Rests(net.a, net.b, net.ab) && Rests(net.b, net.a, net.ba)
  {
    hide N.NetRun, ByteRun, NeverLoses, K.Faithful, Q.Measure, Rests, Turns, Careful, OwingAll;
    CarefulAppend(NO_DEBTS, evs, Turns(n));
    TurnsOweNothing(n);
    GentleOwesNothing(Turns(n));
    CarefulRunsStayInStep(su, evs + Turns(n));
    RunsComeToRest(su, evs, n);
  }

  // ---- a close while data is on its way ----

  function AllAtA(acts: seq<Act>): seq<N.NetEvent> {
    if acts == [] then [] else [N.AtA(N.Do(acts[0]))] + AllAtA(acts[1..])
  }

  /** A calls, and B accepts and writes `b`. */
  function Answered(call: K.Call, b: Bytes): seq<N.NetEvent> {
    [N.AtA(N.Do(Allocate(call, K.TypeJSON, true))), N.AtA(N.Do(Session.Open(1))), N.AtB(N.Deliver)]
    + [N.AtB(N.Do(User(-1, Write(b))))]
  }

  /** What A's Request.CloseWithError then does. */
  function FirstClose(cerr: Option<Error>): (acts: seq<Act>)
    ensures |acts| == 6 && acts[5] == Forget(1) && forall i | 0 <= i < 5 :: acts[i].User? && acts[i].k == 1
    ensures acts[0].op.OnSource? && acts[0].op.op.Cancellation?
  {
    CloseActs(NewStream(1, C.FLAG_JSON, true), cerr)
  }

  /** A closes its request, and its serve loop takes B's packet after the first `n` actions of the close. */
  function CloseRace(call: K.Call, b: Bytes, cerr: Option<Error>, n: nat): seq<N.NetEvent>
    requires n <= 6
  {
    Answered(call, b)
    + (AllAtA(FirstClose(cerr)[..n]) + ([N.AtA(N.Deliver)] + AllAtA(FirstClose(cerr)[n..])))
  }

  /** A data packet with a body is on its way to A, whose stream 1 is active. */
  ghost predicate Waiting(net: N.Net) {
    && net.a.serving && Inv(net.a) && 1 in net.a.reqs && 1 !in net.a.pending
    && net.ba.inStep && net.ba.pkts != []
    && var p := net.ba.pkts[0]; p.req == -1 && !K.IsEnd(p) && p.body != []
  }

  lemma AnsweredWaits(su: N.Setup, call: K.Call, b: Bytes, cerr: Option<Error>)
    requires K.Faithful(su.json) && ClientType(call.typ) && su.handlesB(call.path)
    requires C.Fits(Opening(su.json, 1, call)) && 0 < |b| <= C.MAX_BUFFER_SIZE
    ensures var net := N.NetRun(su, N.START_NET, Answered(call, b));
            Waiting(net) && CloseActs(net.a.reqs[1], cerr) == FirstClose(cerr)
  {
    hide N.NetStep, N.NetRun, K.Faithful, ClientType, Opening, N.Linked, K.IsEnd, Inv;
    var evs := Answered(call, b);
    var n3 := CallArrives(su, call);
    RunThree(su, N.START_NET, evs[0], evs[1], evs[2], [evs[3]]);
    N.RunOne(su, n3, evs[3]);
    AnswerWaits(su, n3, b);
    var net := N.NetRun(su, N.START_NET, evs);
    assert net == N.NetStep(su, n3, evs[3]);
    N.StartConnected(su);
    N.RunKeeps(su, N.START_NET, evs);
    N.LinkedInv(su.json, net.a, net.b, net.ba.pkts, net.ab.pkts);
  }

  lemma AnswerWaits(su: N.Setup, n3: N.Net, b: Bytes)
    requires n3.b.reqs.Keys == {-1} && -1 !in n3.b.pending && n3.ba == N.Wire([], true)
    requires K.SaneSink(n3.b.reqs[-1].snk) && n3.b.reqs[-1].snk.closed.None? && n3.b.reqs[-1].ctx.None?
    requires n3.b.reqs[-1].snk.req == -1 && 0 < |b| <= C.MAX_BUFFER_SIZE
    ensures var n4 := N.NetStep(su, n3, N.AtB(N.Do(User(-1, Write(b)))));
            && n4.a == n3.a && n4.ba.inStep && |n4.ba.pkts| == 1
            && var p := n4.ba.pkts[0]; p.req == -1 && !K.IsEnd(p) && p.body == b
  {
    hide C.ToByte, C.FromByte, K.IsEnd;
    K.WriteFacts(n3.b.reqs[-1].snk, None, b, true);
  }

  predicate IsCancel(op: UserOp) { op.OnSource? && op.op.Cancellation? }

  lemma UserWaits(su: N.Setup, net: N.Net, op: UserOp)
    requires Waiting(net) && (net.a.reqs[1].src.failed.Some? || IsCancel(op))
    ensures var net' := N.NetStep(su, net, N.AtA(N.Do(User(1, op))));
            Waiting(net') && net'.a.reqs[1].src.failed.Some?
  {
    hide K.IsEnd, UserStep, Inv, StreamInv;
    IdOf(net.a, 1);
    ActInv(su.A(), net.a, User(1, op));
    CancelFails(su.A(), net.a.reqs[1], op);
  }

  lemma CancelFails(cfg: Config, st: Stream, op: UserOp)
    requires StreamInv(st) && (st.src.failed.Some? || IsCancel(op))
    ensures UserStep(cfg, st, op).0.src.failed.Some?
  {
    hide StreamInv, S.Cancel, S.Step, K.Step, K.IsEnd, K.Decodable, K.Faithful;
    StreamLenBuf(st);
    if st.src.failed.Some? {
      UserStepFacts(cfg, st, op);
    } else {
      CancelUser(cfg, st, op.op.err);
      CancelSets(st.src, op.op.err);
    }
  }

  lemma CancelSets(s: S.Source, err: Option<Error>)
    ensures S.Cancel(s, err).failed.Some?
  {
  }

  lemma {:induction false} UsersWait(su: N.Setup, net: N.Net, acts: seq<Act>)
    requires Waiting(net) && (net.a.reqs[1].src.failed.Some? || (acts != [] && acts[0].User? && IsCancel(acts[0].op)))
    requires forall act | act in acts :: act.User? && act.k == 1
    ensures var net' := N.NetRun(su, net, AllAtA(acts));
            Waiting(net') && net'.a.reqs[1].src.failed.Some?
    decreases |acts|
  {
    hide N.NetStep, Waiting;
    if acts != [] {
      assert acts[0] in acts && acts[0] == User(1, acts[0].op);
      assert forall act | act in acts[1..] :: act in acts;
      UserWaits(su, net, acts[0].op);
      assert AllAtA(acts)[1..] == AllAtA(acts[1..]);
      UsersWait(su, N.NetStep(su, net, N.AtA(N.Do(acts[0]))), acts[1..]);
    }
  }

  /** The packet arrives for the failed source, and its body is not read. */
  lemma ArrivesLate(su: N.Setup, net: N.Net)
    requires Waiting(net) && net.a.reqs[1].src.failed.Some?
    ensures !N.NetStep(su, net, N.AtA(N.Deliver)).ba.inStep
  {
    hide K.IsEnd, Inv, CloseParts, S.Consume;
    IdOf(net.a, 1);
    var p := net.ba.pkts[0];
    assert 1 !in net.a.closed by { ActiveOpen(net.a, 1); }
    FailedConsume(net.a.reqs[1].src, Wrap32(|p.body|), p.flag, p.body);
  }

  lemma FailedConsume(s: S.Source, len: uint32, flag: byte, body: Bytes)
    requires s.failed.Some?
    ensures S.Consume(s, len, flag, F.Body(body, false)).1.Some?
  {
  }

  lemma {:induction false} ActsAreCareful(d: Debts, acts: seq<Act>)
    ensures Careful(d, AllAtA(acts))
    decreases |acts|
  {
    hide Owing;
    if acts != [] {
      assert AllAtA(acts)[1..] == AllAtA(acts[1..]);
      ActsAreCareful(Owing(d, N.AtA(N.Do(acts[0]))), acts[1..]);
    }
  }

  lemma {:induction false} ActsOwe(d: Debts, acts: seq<Act>)
    requires forall act | act in acts :: act.User? && act.k == 1
    ensures OwingAll(d, AllAtA(acts)).b == d.b && OwingAll(d, AllAtA(acts)).a <= d.a + {1}
    decreases |acts|
  {
    hide Fails;
    if acts != [] {
      assert acts[0] in acts;
      assert forall act | act in acts[1..] :: act in acts;
      assert AllAtA(acts)[1..] == AllAtA(acts[1..]);
      var d1 := Owing(d, N.AtA(N.Do(acts[0])));
      assert d1.b == d.b && d1.a <= d.a + {1};
      ActsOwe(d1, acts[1..]);
    }
  }

  lemma {:induction false} AllAtAAppend(a: seq<Act>, b: seq<Act>)
    ensures AllAtA(a + b) == AllAtA(a) + AllAtA(b)
    decreases |a|
  {
    if a == [] {
      assert a + b == b;
    } else {
      assert (a + b)[1..] == a[1..] + b;
      AllAtAAppend(a[1..], b);
    }
  }

  /** A close that ends with the removal from the table owes nothing. */
  lemma CloseOwesNothing(acts: seq<Act>)
    requires forall act | act in acts :: act.User? && act.k == 1
    ensures OwingAll(NO_DEBTS, AllAtA(acts + [Forget(1)])) == NO_DEBTS
  {
    hide Fails;
    ActsOwe(NO_DEBTS, acts);
    AllAtAAppend(acts, [Forget(1)]);
    CarefulAppend(NO_DEBTS, AllAtA(acts), AllAtA([Forget(1)]));
    var d := OwingAll(NO_DEBTS, AllAtA(acts));
    var ev := N.AtA(N.Do(Forget(1)));
    ForgetOwes(d, ev);
  }

  lemma ForgetOwes(d: Debts, ev: N.NetEvent)
    requires d.b == {} && d.a <= {1} && ev == N.AtA(N.Do(Forget(1)))
    ensures OwingAll(d, AllAtA([Forget(1)])) == NO_DEBTS
  {
    assert AllAtA([Forget(1)]) == [ev] + AllAtA([Forget(1)][1..]);
    assert AllAtA([Forget(1)]) == [ev] && [ev][1..] == [];
    var d1 := Owing(d, ev);
    assert d1.a == d.a - {1} && d1.a == {};
    assert OwingAll(d, [ev]) == OwingAll(d1, []);
  }

  lemma AnsweredOwesNothing(call: K.Call, b: Bytes)
    ensures AllGentle(Answered(call, b))
  {
  }

  lemma RaceIsCareful(call: K.Call, b: Bytes, cerr: Option<Error>, n: nat)
    requires n == 0 || n == 6
    ensures Careful(NO_DEBTS, CloseRace(call, b, cerr, n))
  {
    hide Fails, Careful, OwingAll, AllAtA, Answered, CloseActs;
    var acts := FirstClose(cerr);
    var pre, turn, post := AllAtA(acts[..n]), [N.AtA(N.Deliver)], AllAtA(acts[n..]);
    AnsweredOwesNothing(call, b);
    GentleOwesNothing(Answered(call, b));
    CarefulAppend(NO_DEBTS, Answered(call, b), pre + (turn + post));
    CarefulAppend(NO_DEBTS, pre, turn + post);
    ActsAreCareful(NO_DEBTS, acts[..n]);
    if n == 6 {
      assert acts[..n] == acts[..5] + [Forget(1)];
      CloseOwesNothing(acts[..5]);
    } else {
      assert acts[..n] == [];
      NoActsOwe();
    }
    CarefulAppend(NO_DEBTS, turn, post);
    TurnOwes();
    ActsAreCareful(NO_DEBTS, acts[n..]);
  }

  lemma NoActsOwe()
    ensures OwingAll(NO_DEBTS, AllAtA([])) == NO_DEBTS
  {
  }

  lemma TurnOwes()
    ensures Careful(NO_DEBTS, [N.AtA(N.Deliver)]) && OwingAll(NO_DEBTS, [N.AtA(N.Deliver)]) == NO_DEBTS
  {
  }

  lemma RaceIsLost(su: N.Setup, call: K.Call, b: Bytes, cerr: Option<Error>, n: nat)
    requires K.Faithful(su.json) && ClientType(call.typ) && su.handlesB(call.path) && 0 < n < 6
    requires C.Fits(Opening(su.json, 1, call)) && 0 < |b| <= C.MAX_BUFFER_SIZE
    ensures !InStep(N.NetRun(su, N.START_NET, CloseRace(call, b, cerr, n)))
  {
    hide N.NetStep, N.NetRun, K.Faithful, ClientType, Opening, Waiting, AllAtA, Answered, CloseActs;
    var acts := FirstClose(cerr);
    var pre, turn, post := AllAtA(acts[..n]), [N.AtA(N.Deliver)], AllAtA(acts[n..]);
    AnsweredWaits(su, call, b, cerr);
    var net1 := N.NetRun(su, N.START_NET, Answered(call, b));
    UsersWait(su, net1, acts[..n]);
    var net2 := N.NetRun(su, net1, pre);
    ArrivesLate(su, net2);
    N.RunAppend(su, N.START_NET, Answered(call, b), pre + (turn + post));
    N.RunAppend(su, net1, pre, turn + post);
    N.RunAppend(su, net2, turn, post);
    N.RunOne(su, net2, N.AtA(N.Deliver));
    NetLostStaysLost(su, N.NetStep(su, net2, N.AtA(N.Deliver)), post);
  }

  /** An ordinary close races with data. It begins by failing the source and takes the id out of the table
      only at its end: the packet boundary is lost if and only if the packet is taken in between. */
  lemma CloseRaceExactly(su: N.Setup, call: K.Call, b: Bytes, cerr: Option<Error>, n: nat)
    requires K.Faithful(su.json) && ClientType(call.typ) && su.handlesB(call.path) && n <= 6
    requires C.Fits(Opening(su.json, 1, call)) && 0 < |b| <= C.MAX_BUFFER_SIZE
    ensures NeverLoses(su, START_BYTES, CloseRace(call, b, cerr, n)) <==> n == 0 || n == 6
    ensures var net := N.NetRun(su, N.START_NET, Answered(call, b));
            1 in net.a.reqs && CloseActs(net.a.reqs[1], cerr) == FirstClose(cerr)
  {
    hide N.NetRun, NeverLoses, K.Faithful, N.Linked, CloseRace, Careful, ClientType, Opening, Answered, FirstClose;
    AnsweredWaits(su, call, b, cerr);
    if n == 0 || n == 6 {
      RaceIsCareful(call, b, cerr, n);
      CarefulRunsStayInStep(su, CloseRace(call, b, cerr, n));
    } else {
      RaceIsLost(su, call, b, cerr, n);
      N.StartConnected(su);
      assert OnBytes(N.START_NET) == START_BYTES by { NothingPrinted([]); }
      RunMatches(su, N.START_NET, CloseRace(call, b, cerr, n));
    }
  }

  // ---- a close that is never told ----

  /** B's sink of the stream is closed, and nothing of the stream is on its way to A. */
  ghost predicate Untold(net: N.Net, q: int32) {
    Inv(net.b) && Silent(net.b, q) && forall p | p in net.ba.pkts :: p.req != q
  }

  lemma SenderUntold(cfg: Config, me: Endpoint, inw: N.Wire, outw: N.Wire, mv: N.Move, q: int32)
    requires Inv(me) && Silent(me, q) && (forall p | p in outw.pkts :: p.req != q)
    requires forall p | p in inw.pkts :: C.Fits(p)
    ensures var (me', _, outw') := N.Local(cfg, me, inw, outw, mv);
            Inv(me') && Silent(me', q) && forall p | p in outw'.pkts :: p.req != q
  {
    hide Inv, Silent, Receive, ActStep, C.Fits;
    match mv {
      case Deliver =>
        if N.Deliverable(me, inw) {
          assert inw.pkts[0] in inw.pkts;
          ReceiveInv(cfg, me, inw.pkts[0]);
          SilentReceive(cfg, me, inw.pkts[0], q);
        }
      case Do(act) =>
        ActInv(cfg, me, act);
        SilentAct(cfg, me, act, q);
    }
  }

  lemma WireShrinks(cfg: Config, me: Endpoint, inw: N.Wire, outw: N.Wire, mv: N.Move)
    ensures forall p | p in N.Local(cfg, me, inw, outw, mv).1.pkts :: p in inw.pkts
  {
    hide Receive, ActStep;
  }

  lemma UntoldStep(su: N.Setup, net: N.Net, ev: N.NetEvent, q: int32)
    requires N.NetInv(su.json, net) && Untold(net, q)
    ensures Untold(N.NetStep(su, net, ev), q)
  {
    hide N.Linked, N.Local, Inv, Silent, C.Sendable;
    match ev {
      case AtA(mv) => WireShrinks(su.A(), net.a, net.ba, net.ab, mv);
      case AtB(mv) =>
        LinkedSendable(su.json, net.a, net.b, net.ba.pkts, net.ab.pkts);
        forall p | p in net.ab.pkts
          ensures C.Fits(p)
        {
          N.SendableFits(p);
        }
        SenderUntold(su.B(), net.b, net.ab, net.ba, mv, q);
    }
  }

  /** The event is no action of A's users on their stream `k`. */
  predicate Leaves(ev: N.NetEvent, k: int32) {
    ev.AtA? && ev.mv.Do? ==>
      (ev.mv.act.User? ==> ev.mv.act.k != k) && (ev.mv.act.Forget? ==> ev.mv.act.k != k)
  }

  /** What happens to other streams leaves an entry alone. */
  lemma OtherReceive(cfg: Config, ep: Endpoint, p: Packet, k: int32)
    requires Inv(ep) && k in ep.reqs && Neg32(p.req) != k
    ensures k in Receive(cfg, ep, p).ep.reqs && Receive(cfg, ep, p).ep.reqs[k] == ep.reqs[k]
  {
    hide Inv, K.IsEnd, ReceiveEnd, ReceiveData, ReceiveCall, C.FromByte;
    var i := Neg32(p.req);
    OtherEnd(cfg, ep, i, p.body, k);
    if i in ep.reqs {
      OtherData(cfg, ep, i, p.flag, p.body, k);
    }
    OtherCall(cfg, ep, i, C.FromByte(p.flag), p.body, k);
  }

  lemma OtherEnd(cfg: Config, ep: Endpoint, i: int32, body: Bytes, k: int32)
    requires Inv(ep) && k in ep.reqs && i != k
    ensures var ep' := ReceiveEnd(cfg, ep, i, body).ep; k in ep'.reqs && ep'.reqs[k] == ep.reqs[k]
  {
    hide StreamInv, CloseParts;
    if i in ep.reqs {
      PartsId(cfg, ep.reqs[i]);
    }
  }

  lemma OtherData(cfg: Config, ep: Endpoint, i: int32, flag: byte, body: Bytes, k: int32)
    requires Inv(ep) && k in ep.reqs && i in ep.reqs && i != k
    ensures var ep' := ReceiveData(cfg, ep, ep.reqs[i], flag, Wrap32(|body|), body).ep;
            k in ep'.reqs && ep'.reqs[k] == ep.reqs[k]
  {
    hide StreamInv, CloseParts, S.Consume;
    var st := ep.reqs[i];
    PartsId(cfg, st.(src := S.Consume(st.src, Wrap32(|body|), flag, F.Body(body, false)).0));
  }

  lemma OtherCall(cfg: Config, ep: Endpoint, i: int32, flag: C.Flag, body: Bytes, k: int32)
    requires k in ep.reqs && i != k
    ensures var ep' := ReceiveCall(cfg, ep, i, flag, body).ep; k in ep'.reqs && ep'.reqs[k] == ep.reqs[k]
  {
    hide K.EndErr, WellTyped, NewStream;
  }

  lemma PartsId(cfg: Config, st: Stream)
    ensures forall err :: CloseParts(cfg, st, err).0.id == st.id
  {
    hide K.Close, S.Cancel;
  }

  lemma OtherAct(cfg: Config, ep: Endpoint, act: Act, k: int32)
    requires Inv(ep) && k in ep.reqs && Leaves(N.AtA(N.Do(act)), k)
    ensures k in ActStep(cfg, ep, act).0.reqs && ActStep(cfg, ep, act).0.reqs[k] == ep.reqs[k]
  {
    hide StreamInv, UserStep, ClientFlag, ClientType, Opening, NewStream;
  }

  lemma {:induction false} NeverTold(su: N.Setup, net: N.Net, evs: seq<N.NetEvent>, k: int32)
    requires N.NetInv(su.json, net) && K.Faithful(su.json) && Untold(net, Neg32(k)) && N.Id(k)
    requires k in net.a.reqs && forall ev | ev in evs :: Leaves(ev, k)
    ensures var net' := N.NetRun(su, net, evs);
            Untold(net', Neg32(k)) && k in net'.a.reqs && net'.a.reqs[k] == net.a.reqs[k]
    decreases |evs|
  {
    hide N.NetStep, N.Linked, Untold, Leaves, K.Faithful;
    if evs != [] {
      var net1 := N.NetStep(su, net, evs[0]);
      assert evs[0] in evs;
      assert forall ev | ev in evs[1..] :: ev in evs;
      N.StepKeeps(su, net, evs[0]);
      UntoldStep(su, net, evs[0], Neg32(k));
      EntryStays(su, net, evs[0], k);
      NeverTold(su, net1, evs[1..], k);
    }
  }

  lemma EntryStays(su: N.Setup, net: N.Net, ev: N.NetEvent, k: int32)
    requires N.NetInv(su.json, net) && Untold(net, Neg32(k)) && N.Id(k) && k in net.a.reqs && Leaves(ev, k)
    ensures var a := N.NetStep(su, net, ev).a;
            k in a.reqs && a.reqs[k] == net.a.reqs[k]
  {
    hide N.Linked, Inv, Silent, Receive, ActStep;
    N.LinkedInv(su.json, net.a, net.b, net.ba.pkts, net.ab.pkts);
    if ev.AtA? {
      match ev.mv {
        case Deliver =>
          if N.Deliverable(net.a, net.ba) {
            var p := net.ba.pkts[0];
            assert p in net.ba.pkts && p.req != Neg32(k);
            assert Neg32(p.req) != k;
            OtherReceive(su.A(), net.a, p, k);
          }
        case Do(act) => OtherAct(su.A(), net.a, act, k);
      }
    }
  }

  /** A sink that closes silently leaves the other end in the dark for ever. If B answers a call with a body
      that is too large to send, then in every continuation no packet of the stream reaches A, and A's end
      of it, as long as A's own users leave it alone, is what it was when the call was made. */
  lemma SilentCloseHangs(su: N.Setup, call: K.Call, b: Bytes, evs: seq<N.NetEvent>)
    requires K.Faithful(su.json) && ClientType(call.typ) && su.handlesB(call.path)
    requires C.Fits(Opening(su.json, 1, call)) && |b| > C.MAX_BUFFER_SIZE
    requires forall ev | ev in evs :: Leaves(ev, 1)
    ensures var net := N.NetRun(su, N.START_NET, Answered(call, b) + evs);
            && Untold(net, -1)
            && 1 in net.a.reqs && net.a.reqs[1] == NewStream(1, ClientFlag(call.typ, K.TypeJSON), true)
  {
    hide N.NetStep, N.NetRun, K.Faithful, ClientType, ClientFlag, Opening, N.Linked, Inv, Silent, NewStream, Leaves;
    var n3 := CallArrives(su, call);
    var first := Answered(call, b);
    var net := N.NetRun(su, N.START_NET, first);
    RunThree(su, N.START_NET, first[0], first[1], first[2], [first[3]]);
    N.RunOne(su, n3, first[3]);
    N.StartConnected(su);
    N.RunKeeps(su, N.START_NET, first);
    N.LinkedInv(su.json, net.a, net.b, net.ba.pkts, net.ab.pkts);
    assert net == N.NetStep(su, n3, first[3]);
    LargeWrite(su, n3, b);
    NeverTold(su, net, evs, 1);
    N.RunAppend(su, N.START_NET, first, evs);
  }

  lemma LargeWrite(su: N.Setup, n3: N.Net, b: Bytes)
    requires n3.b.reqs.Keys == {-1} && -1 !in n3.b.pending && n3.ba == N.Wire([], true)
    requires K.SaneSink(n3.b.reqs[-1].snk) && |b| > C.MAX_BUFFER_SIZE
    ensures var n4 := N.NetStep(su, n3, N.AtB(N.Do(User(-1, Write(b)))));
            n4.a == n3.a && n4.ba.pkts == [] && (Inv(n4.b) ==> Silent(n4.b, -1))
  {
    hide C.ToByte, C.FromByte, StreamInv;
    K.WriteFacts(n3.b.reqs[-1].snk, n3.b.reqs[-1].ctx, b, true);
  }
}
