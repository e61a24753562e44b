/** All layers together: a srcReader at one end of a connection, while everything else goes on. */
module EndToEnd {
  import opened Base
  import C = Codec
  import K = Sink
  import S = Source
  import F = FrameBuffer
  import P = Pipe
  import opened Session
  import N = Network
  import W = Wires
  import X = Ends

  // ---- how a stream changes while nobody takes frames from it ----

  ghost predicate Evolves(st: Stream, st': Stream) {
    st'.taken == st.taken && S.Grows(st.src, st.got, st'.src, st'.got)
  }

  lemma SameEvolves(st: Stream, st': Stream)
    requires st'.taken == st.taken && st'.src == st.src && st'.got == st.got
    ensures Evolves(st, st')
  {
  }

  lemma CancelEvolves(st: Stream, st': Stream, err: Option<Error>)
    requires |st.src.buf.lenBuf| == 4
    requires st'.taken == st.taken && st'.got == st.got && st'.src == S.Cancel(st.src, err)
    ensures Evolves(st, st')
  {
    hide S.Grows, S.Cancel;
    S.StepGrows(st.src, st.got, S.Cancellation(err));
  }

  /** The entry that a stream may have at one end. */
  ghost predicate EntryEvolves(before: Option<Stream>, after: Option<Stream>) {
    match before
    case Some(st) => after.Some? && Evolves(st, after.value)
    case None => after.Some? ==> after.value.src == S.FRESH && after.value.got == [] && after.value.taken == 0
  }

  lemma SameEntry(before: Option<Stream>)
    requires before.Some?
    ensures EntryEvolves(before, before)
  {
    hide S.Grows;
    SameEvolves(before.value, before.value);
  }

  lemma RetireEntry(ep: Endpoint, st: Stream, st': Stream, i: int32)
    requires Inv(ep) && st.id in ep.reqs && ep.reqs[st.id] == st && st'.id == st.id && Evolves(st, st')
    ensures EntryEvolves(N.StreamOf(ep, i), N.StreamOf(Retire(ep, st'), i))
  {
    hide StreamInv, Evolves;
    if N.StreamOf(ep, i).Some? {
      SameEntry(N.StreamOf(ep, i));
    }
  }

  lemma UpdateEntry(ep: Endpoint, st: Stream, st': Stream, i: int32)
    requires Inv(ep) && st.id in ep.reqs && ep.reqs[st.id] == st && st'.id == st.id && Evolves(st, st')
    ensures EntryEvolves(N.StreamOf(ep, i), N.StreamOf(ep.(reqs := ep.reqs[st.id := st']), i))
  {
    hide StreamInv, Evolves;
    if N.StreamOf(ep, i).Some? {
      SameEntry(N.StreamOf(ep, i));
    }
  }

  lemma ClosePartsEvolve(cfg: Config, st: Stream, err: Option<Error>)
    requires |st.src.buf.lenBuf| == 4
    ensures var st' := CloseParts(cfg, st, err).0; st'.id == st.id && Evolves(st, st')
  {
    hide Evolves, K.Close, S.Cancel;
    CancelEvolves(st, CloseParts(cfg, st, err).0, err);
  }

  lemma DataEvolves(cfg: Config, ep: Endpoint, i: int32, k: int32, flag: byte, body: Bytes)
    requires Inv(ep) && i in ep.reqs && |body| <= C.MAX_BUFFER_SIZE
    ensures var fx := ReceiveData(cfg, ep, ep.reqs[i], flag, Wrap32(|body|), body);
            EntryEvolves(N.StreamOf(ep, k), N.StreamOf(fx.ep, k))
  {
    hide Inv, Evolves, EntryEvolves, StreamInv, CloseParts, Retire, S.Consume, N.StreamOf, S.Grows;
    var st := ep.reqs[i];
    IdOf(ep, i);
    StreamLenBuf(st);
    ConsumeFacts(st, flag, body);
    var (src, err) := S.Consume(st.src, Wrap32(|body|), flag, F.Body(body, false));
    if err.None? {
      var st' := st.(src := src, got := st.got + [body]);
      assert Evolves(st, st') by { AcceptEvolves(st, flag, body); }
      UpdateEntry(ep, st, st', k);
    } else {
      assert st.(src := src) == st;
      ClosePartsEvolve(cfg, st, err);
      RetireEntry(ep, st, CloseParts(cfg, st, err).0, k);
    }
  }

  lemma AcceptEvolves(st: Stream, flag: byte, body: Bytes)
    requires |st.src.buf.lenBuf| == 4 && |body| <= C.MAX_BUFFER_SIZE
    requires S.Consume(st.src, Wrap32(|body|), flag, F.Body(body, false)).1.None?
    ensures var src := S.Consume(st.src, Wrap32(|body|), flag, F.Body(body, false)).0;
            Evolves(st, st.(src := src, got := st.got + [body]))
  {
    hide S.Grows, S.Consume;
    S.StepGrows(st.src, st.got, S.Arrive(Wrap32(|body|), flag, F.Body(body, false)));
  }

  /** A serve iteration, on any packet. */
  lemma ReceiveEvolves(cfg: Config, ep: Endpoint, p: Packet, k: int32)
    requires Inv(ep) && C.Fits(p)
    ensures EntryEvolves(N.StreamOf(ep, k), N.StreamOf(Receive(cfg, ep, p).ep, k))
  {
    hide EntryEvolves, Inv, N.StreamOf, ReceiveEnd, ReceiveData, ReceiveCall, K.IsEnd, C.FromByte;
    var i := Neg32(p.req);
    UntouchedEntry(ep, k);
    if K.IsEnd(p) {
      if i in ep.reqs {
        EndEvolves(cfg, ep, i, k, p.body);
      } else {
        UnknownEnd(cfg, ep, i, p.body);
      }
    } else if i in ep.reqs {
      DataEvolves(cfg, ep, i, k, p.flag, p.body);
    } else if i !in ep.closed {
      CallEvolves(cfg, ep, i, k, C.FromByte(p.flag), p.body);
    }
  }

  lemma UntouchedEntry(ep: Endpoint, k: int32)
    ensures EntryEvolves(N.StreamOf(ep, k), N.StreamOf(ep, k))
  {
    hide Evolves;
    if N.StreamOf(ep, k).Some? {
      SameEntry(N.StreamOf(ep, k));
    }
  }

  lemma UnknownEnd(cfg: Config, ep: Endpoint, i: int32, body: Bytes)
    requires i !in ep.reqs
    ensures ReceiveEnd(cfg, ep, i, body).ep == ep
  {
  }

  lemma CallEvolves(cfg: Config, ep: Endpoint, i: int32, k: int32, flag: C.Flag, body: Bytes)
    requires Inv(ep) && i !in Known(ep)
    ensures EntryEvolves(N.StreamOf(ep, k), N.StreamOf(ReceiveCall(cfg, ep, i, flag, body).ep, k))
  {
    hide Evolves, StreamInv, K.EndErr, WellTyped;
    UntouchedEntry(ep, k);
  }

  lemma EndEvolves(cfg: Config, ep: Endpoint, i: int32, k: int32, body: Bytes)
    requires Inv(ep) && i in ep.reqs
    ensures EntryEvolves(N.StreamOf(ep, k), N.StreamOf(ReceiveEnd(cfg, ep, i, body).ep, k))
  {
    hide Inv, Evolves, EntryEvolves, StreamInv, CloseParts, Retire, N.StreamOf, S.Grows;
    var st := ep.reqs[i];
    IdOf(ep, i);
    StreamLenBuf(st);
    SameEvolves(st, st);
    ServingEntry(ep, k);
    ClosePartsEvolve(cfg, st, None);
    RetireEntry(ep, st, CloseParts(cfg, st, None).0, k);
    var e := cfg.json.decErr(body);
    if e.Some? {
      var err := Some(CallError(e.value.0, e.value.1));
      ClosePartsEvolve(cfg, st, err);
      RetireEntry(ep, st, CloseParts(cfg, st, err).0, k);
    }
  }

  lemma ServingEntry(ep: Endpoint, k: int32)
    ensures EntryEvolves(N.StreamOf(ep, k), N.StreamOf(ep.(serving := false), k))
  {
    hide S.Grows, Evolves;
    if N.StreamOf(ep, k).Some? {
      SameEntry(N.StreamOf(ep, k));
    }
  }

  /** The action takes a frame from the stream `i`. */
  predicate Takes(act: Act, i: int32) {
    act.User? && act.k == i && act.op.OnSource? && (act.op.op.TakeAll? || act.op.op.TakeSome?)
  }

  lemma UserEvolves(cfg: Config, st: Stream, op: UserOp)
    requires |st.src.buf.lenBuf| == 4 && !(op.OnSource? && (op.op.TakeAll? || op.op.TakeSome?))
    ensures var st' := UserStep(cfg, st, op).0; st'.id == st.id && Evolves(st, st')
  {
    hide S.Grows, S.Step, K.Step;
    match op {
      case OnSource(sop) =>
        if !sop.Arrive? {
          S.StepGrows(st.src, st.got, sop);
          NothingAccepted(st.src, sop);
          NothingTaken(st.src, sop);
        } else {
          SameEvolves(st, st);
        }
      case ContextDone(e) => SameEvolves(st, UserStep(cfg, st, op).0);
      case _ => SameEvolves(st, UserStep(cfg, st, op).0);
    }
  }

  lemma NothingTaken(s: S.Source, op: S.Op)
    requires |s.buf.lenBuf| == 4 && !op.TakeAll? && !op.TakeSome?
    ensures S.Step(s, op).2.None?
  {
  }

  lemma ActEvolves(cfg: Config, ep: Endpoint, act: Act, i: int32)
    requires Inv(ep) && !Takes(act, i)
    ensures EntryEvolves(N.StreamOf(ep, i), N.StreamOf(ActStep(cfg, ep, act).0, i))
  {
    hide Evolves, StreamInv, UserStep, Opening, ClientFlag, S.Grows, ClientType;
    if N.StreamOf(ep, i).Some? {
      SameEntry(N.StreamOf(ep, i));
    }
    match act {
      case Allocate(call, re, abortable) =>
      case Open(k) =>
      case User(k, op) =>
        if k == i && k !in ep.pending && N.StreamOf(ep, k).Some? {
          N.StreamOfInv(ep, k);
          var st := N.StreamOf(ep, k).value;
          StreamLenBuf(st);
          UserEvolves(cfg, st, op);
        }
      case Forget(k) =>
        if k in ep.reqs {
          IdOf(ep, k);
        }
    }
  }

  // ---- one end of the network ----

  function PeerOf(net: N.Net, atA: bool): Endpoint { if atA then net.b else net.a }

  function At(atA: bool, mv: N.Move): N.NetEvent { if atA then N.AtA(mv) else N.AtB(mv) }

  lemma InvOf(su: N.Setup, net: N.Net)
    requires N.NetInv(su.json, net)
    ensures Inv(net.a) && Inv(net.b) && C.AllSendable(net.ab.pkts) && C.AllSendable(net.ba.pkts)
  {
    hide N.Linked, Inv, C.Sendable;
    N.LinkedInv(su.json, net.a, net.b, net.ba.pkts, net.ab.pkts);
    W.LinkedSendable(su.json, net.a, net.b, net.ba.pkts, net.ab.pkts);
  }

  lemma LocalEvolves(cfg: Config, me: Endpoint, inw: N.Wire, outw: N.Wire, mv: N.Move, i: int32)
    requires Inv(me) && C.AllSendable(inw.pkts) && (mv.Do? ==> !Takes(mv.act, i))
    ensures EntryEvolves(N.StreamOf(me, i), N.StreamOf(N.Local(cfg, me, inw, outw, mv).0, i))
  {
    hide Inv, Receive, ActStep, EntryEvolves, N.StreamOf, C.Sendable;
    match mv {
      case Deliver =>
        ServingSame(me, i);
        if N.Deliverable(me, inw) {
          assert inw.pkts[0] in inw.pkts;
          N.SendableFits(inw.pkts[0]);
          ReceiveEvolves(cfg, me, inw.pkts[0], i);
        }
      case Do(act) => ActEvolves(cfg, me, act, i);
    }
  }

  lemma ServingSame(ep: Endpoint, i: int32)
    ensures EntryEvolves(N.StreamOf(ep, i), N.StreamOf(ep, i))
  {
    hide S.Grows, Evolves;
    if N.StreamOf(ep, i).Some? {
      SameEntry(N.StreamOf(ep, i));
    }
  }

  /** An event anywhere in the network that does not take a frame from the stream `i` at this end. */
  lemma NetEvolves(su: N.Setup, net: N.Net, ev: N.NetEvent, atA: bool, i: int32)
    requires N.NetInv(su.json, net)
    requires ev.mv.Do? && ev == At(atA, ev.mv) ==> !Takes(ev.mv.act, i)
    ensures EntryEvolves(N.StreamOf(N.EndOf(net, atA), i), N.StreamOf(N.EndOf(N.NetStep(su, net, ev), atA), i))
  {
    hide N.Linked, Inv, N.Local, EntryEvolves, N.StreamOf, Takes, C.Sendable;
    InvOf(su, net);
    ServingSame(net.a, i);
    ServingSame(net.b, i);
    match ev {
      case AtA(mv) =>
        if atA {
          LocalEvolves(su.A(), net.a, net.ba, net.ab, mv, i);
        }
      case AtB(mv) =>
        if !atA {
          LocalEvolves(su.B(), net.b, net.ab, net.ba, mv, i);
        }
    }
  }

  // ---- a read is a list of actions on the source ----

  function StartOps(r: P.Reader): seq<S.Op>
    requires |r.src.buf.lenBuf| == 4
    decreases r.src.buf.frames
  {
    if |r.buf| > 0 then []
    else
      match S.PollNow(r.src)
      case Over => []
      case Blocked => [S.Waiting]
      case Ready =>
        var (src, data) := S.TakeBytes(r.src);
        [S.TakeAll] + if data.None? then [] else StartOps(P.Reader(src, data.value))
  }

  function FinishOps(r: P.Reader, arm: S.Arm): seq<S.Op>
    requires |r.src.buf.lenBuf| == 4
  {
    var (src, more) := S.Wake(r.src, arm);
    [S.Waking(arm)] + if !more then [] else StartOps(P.Reader(src, []))
  }

  /** The source after these actions, and how many frames they took. */
  function Apply(s: S.Source, ops: seq<S.Op>): (S.Source, nat)
    requires |s.buf.lenBuf| == 4
    decreases |ops|
  {
    if ops == [] then (s, 0)
    else
      var (s1, _, data) := S.Step(s, ops[0]);
      S.SourceLenBufKept(s, ops[0]);
      var (s2, n) := Apply(s1, ops[1..]);
      (s2, n + if data.Some? then 1 else 0)
  }

  lemma ApplyFirst(s: S.Source, op: S.Op, ops: seq<S.Op>)
    requires |s.buf.lenBuf| == 4
    ensures |S.Step(s, op).0.buf.lenBuf| == 4
    ensures var (s1, _, data) := S.Step(s, op);
            Apply(s, [op] + ops) == (Apply(s1, ops).0, Apply(s1, ops).1 + if data.Some? then 1 else 0)
  {
    hide S.Step;
    S.SourceLenBufKept(s, op);
    assert ([op] + ops)[1..] == ops;
  }

  lemma ApplyNone(s: S.Source)
    requires |s.buf.lenBuf| == 4
    ensures Apply(s, []) == (s, 0)
  {
  }

  /** A Read that starts does to the source what its actions do. */
  lemma {:induction false} StartApplies(r: P.Reader, got: seq<Bytes>, taken: nat, n: nat)
    requires S.Holding(r.src, got, taken) && |got| - taken < 0x1_0000_0000
    ensures |r.src.buf.lenBuf| == 4
    ensures var r' := P.ReadStart(r, n).0;
            r'.src.buf.frames <= r.src.buf.frames && Apply(r.src, StartOps(r)) == (r'.src, P.Moved(r.src, r'.src))
    decreases |got| - taken
  {
    hide S.Holding, S.TakeBytes, Apply;
    S.HoldingLenBuf(r.src, got, taken);
    S.HoldingBounds(r.src, got, taken);
    ApplyNone(r.src);
    if |r.buf| == 0 {
      if r.src.buf.frames > 0 {
        S.TakeHolding(r.src, got, taken, 0);
        var (src, data) := S.TakeBytes(r.src);
        var next := P.Reader(src, data.value);
        StartApplies(next, got, taken + 1, n);
        ApplyFirst(r.src, S.TakeAll, StartOps(next));
      } else if r.src.failed.None? {
        assert [S.Waiting] + [] == [S.Waiting];
        ApplyFirst(r.src, S.Waiting, []);
        ApplyNone(S.Step(r.src, S.Waiting).0);
      }
    }
  }

  lemma FinishApplies(r: P.Reader, got: seq<Bytes>, taken: nat, arm: S.Arm, n: nat)
    requires S.Holding(r.src, got, taken) && |got| - taken < 0x1_0000_0000 && S.CanWake(r.src, arm)
    requires arm.MoreChannel? ==> r.src.buf.frames > 0
    ensures |r.src.buf.lenBuf| == 4
    ensures var r' := P.ReadFinish(r, arm, n).0;
            Apply(r.src, FinishOps(r, arm)) == (r'.src, P.Moved(r.src, r'.src))
  {
    hide S.Holding, S.TakeBytes, Apply, P.ReadStart, StartOps;
    S.HoldingLenBuf(r.src, got, taken);
    S.WakeHolding(r.src, got, taken, arm);
    var (src, more) := S.Wake(r.src, arm);
    ApplyFirst(r.src, S.Waking(arm), if !more then [] else StartOps(P.Reader(src, [])));
    ApplyNone(src);
    if more {
      StartApplies(P.Reader(src, []), got, taken, n);
      StartTakes(P.Reader(src, []), n);
    }
  }

  /** A Read with nothing at hand and a frame queued starts by taking it. */
  lemma StartTakes(r: P.Reader, n: nat)
    requires |r.src.buf.lenBuf| == 4 && r.buf == [] && r.src.buf.frames > 0
    ensures var (src, data) := S.TakeBytes(r.src);
            P.ReadStart(r, n) == if data.None? then (r.(src := src), P.Fails(P.NO_FRAME))
                                 else P.ReadStart(P.Reader(src, data.value), n)
  {
    hide S.TakeBytes;
  }

  /** These actions of a user of the stream `i`. */
  function Acts(atA: bool, i: int32, ops: seq<S.Op>): seq<N.NetEvent> {
    seq(|ops|, n requires 0 <= n < |ops| => At(atA, N.Do(User(i, OnSource(ops[n])))))
  }

  predicate NoArrivals(ops: seq<S.Op>) { forall op | op in ops :: !op.Arrive? }

  lemma {:induction false} StartOpsAreUser(r: P.Reader)
    requires |r.src.buf.lenBuf| == 4
    ensures NoArrivals(StartOps(r))
    decreases r.src.buf.frames
  {
    hide S.TakeBytes;
    if |r.buf| == 0 && r.src.buf.frames > 0 {
      var (src, data) := S.TakeBytes(r.src);
      if data.Some? {
        StartOpsAreUser(P.Reader(src, data.value));
      }
    }
  }

  lemma ActOnStream(su: N.Setup, net: N.Net, atA: bool, i: int32, op: S.Op)
    requires N.StreamOf(N.EndOf(net, atA), i).Some? && i !in N.EndOf(net, atA).pending && !op.Arrive?
    requires |N.StreamOf(N.EndOf(net, atA), i).value.src.buf.lenBuf| == 4
    ensures var st := N.StreamOf(N.EndOf(net, atA), i).value;
            var ep' := N.EndOf(N.NetStep(su, net, At(atA, N.Do(User(i, OnSource(op))))), atA);
            var (src, _, data) := S.Step(st.src, op);
            && i !in ep'.pending
            && N.StreamOf(ep', i) == Some(st.(src := src, taken := if data.Some? then st.taken + 1 else st.taken))
  {
    hide S.Step;
  }

  lemma {:induction false} ActsOnStream(su: N.Setup, net: N.Net, atA: bool, i: int32, ops: seq<S.Op>)
    requires N.StreamOf(N.EndOf(net, atA), i).Some? && i !in N.EndOf(net, atA).pending && NoArrivals(ops)
    requires |N.StreamOf(N.EndOf(net, atA), i).value.src.buf.lenBuf| == 4
    ensures var st := N.StreamOf(N.EndOf(net, atA), i).value;
            var ep' := N.EndOf(N.NetRun(su, net, Acts(atA, i, ops)), atA);
            var (src, n) := Apply(st.src, ops);
            && i !in ep'.pending
            && N.StreamOf(ep', i) == Some(st.(src := src, taken := st.taken + n))
    decreases |ops|
  {
    hide S.Step, N.NetStep, N.StreamOf;
    if ops != [] {
      var st := N.StreamOf(N.EndOf(net, atA), i).value;
      assert ops[0] in ops;
      ActOnStream(su, net, atA, i, ops[0]);
      S.SourceLenBufKept(st.src, ops[0]);
      var evs := Acts(atA, i, ops);
      assert evs[1..] == Acts(atA, i, ops[1..]);
      ActsOnStream(su, N.NetStep(su, net, evs[0]), atA, i, ops[1..]);
    }
  }

  // ---- the reader in the network ----

  /** The network, the events that led to it, and the srcReader of a stream at one end. */
  datatype World = World(
    net: N.Net, trace: seq<N.NetEvent>, buf: Bytes, wait: P.Wait, read: Bytes,
    report: Option<P.ReadResult>, whole: bool)
  {
    const ended: bool := report.Some?
  }

  const START_WORLD: World := World(N.START_NET, [], [], P.Idle, [], None, true)

  /** The reading end as Pipe has it. */
  function View(w: World, st: Stream): P.Receiver {
    P.Receiver(P.Reader(st.src, w.buf), st.ctx, st.got, st.taken, w.wait, w.read, w.report, w.whole)
  }

  datatype Event = InNetwork(ev: N.NetEvent) | StartRead(n: nat) | FinishRead(arm: S.Arm)

  /** The stream that the reader at this end is put on. */
  datatype Place = Place(su: N.Setup, atA: bool, i: int32)

  function StreamAt(pl: Place, net: N.Net): Option<Stream> { N.StreamOf(N.EndOf(net, pl.atA), pl.i) }

  /** What the reader does to the network are user actions. */
  function ReaderOps(e: P.Receiver, ev: Event): seq<S.Op>
    requires |e.r.src.buf.lenBuf| == 4
  {
    match ev
    case StartRead(_) => if e.wait.InNext? then [] else StartOps(e.r)
    case FinishRead(arm) => if P.CanFinish(e, arm) then FinishOps(e.r, arm) else []
    case InNetwork(_) => []
  }

  function ReaderEvent(ev: Event): P.Event
    requires !ev.InNetwork?
  {
    if ev.StartRead? then P.StartRead(ev.n) else P.FinishRead(ev.arm)
  }

  /** The reader can be used once the call has been made; it is the only one that takes frames of its
      stream. Events that are not possible are skipped. */
  function Step(pl: Place, w: World, ev: Event): World {
    match ev
    case InNetwork(nev) =>
      if nev.mv.Do? && nev == At(pl.atA, nev.mv) && Takes(nev.mv.act, pl.i) then w
      else w.(net := N.NetStep(pl.su, w.net, nev), trace := w.trace + [nev])
    case _ =>
      var entry := StreamAt(pl, w.net);
      if entry.None? || pl.i in N.EndOf(w.net, pl.atA).pending || |entry.value.src.buf.lenBuf| != 4 then w
      else
        var e := View(w, entry.value);
        var acts := Acts(pl.atA, pl.i, ReaderOps(e, ev));
        var e' := P.Step(e, ReaderEvent(ev));
        World(N.NetRun(pl.su, w.net, acts), w.trace + acts, e'.r.buf, e'.wait, e'.read, e'.report, e'.whole)
  }

  /** The invariant of the network and, once there is a stream, that of the reading end. */
  ghost predicate WorldInv(pl: Place, w: World) {
    && N.NetInv(pl.su.json, w.net) && w.net == N.NetRun(pl.su, N.START_NET, w.trace)
    && match StreamAt(pl, w.net)
       case Some(st) => P.InOrder(View(w, st))
       case None => w.buf == [] && w.wait == P.Idle && w.read == [] && !w.ended && w.whole
  }

  predicate Small(pl: Place, w: World) {
    StreamAt(pl, w.net).Some? ==> P.Small(View(w, StreamAt(pl, w.net).value))
  }

  /** The reader reports the end while a frame is queued. */
  predicate Early(pl: Place, w: World, ev: Event) {
    && ev.FinishRead? && StreamAt(pl, w.net).Some? && pl.i !in N.EndOf(w.net, pl.atA).pending
    && P.Early(View(w, StreamAt(pl, w.net).value), P.FinishRead(ev.arm))
  }

  lemma FreshView(w: World, st: Stream)
    requires w.buf == [] && w.wait == P.Idle && w.read == [] && !w.ended && w.whole
    requires st.src == S.FRESH && st.got == [] && st.taken == 0
    ensures P.InOrder(View(w, st))
  {
    hide S.Holding;
    P.FreshInOrder();
  }

  lemma OtherKeeps(pl: Place, w: World, nev: N.NetEvent)
    requires WorldInv(pl, w) && K.Faithful(pl.su.json) && Small(pl, w)
    requires Small(pl, Step(pl, w, InNetwork(nev)))
    ensures WorldInv(pl, Step(pl, w, InNetwork(nev)))
  {
    hide N.NetInv, N.NetStep, N.NetRun, N.StreamOf, P.InOrder, K.Faithful, Takes, S.Grows;
    var w' := Step(pl, w, InNetwork(nev));
    if w' != w {
      N.StepKeeps(pl.su, w.net, nev);
      N.RunAppend(pl.su, N.START_NET, w.trace, [nev]);
      N.RunOne(pl.su, w.net, nev);
      NetEvolves(pl.su, w.net, nev, pl.atA, pl.i);
      if StreamAt(pl, w.net).Some? {
        ViewGrows(pl, w, w'.net);
      } else if StreamAt(pl, w'.net).Some? {
        FreshView(w', StreamAt(pl, w'.net).value);
      }
    }
  }

  lemma ViewGrows(pl: Place, w: World, net': N.Net)
    requires StreamAt(pl, w.net).Some? && StreamAt(pl, net').Some? && N.NetInv(pl.su.json, net')
    requires Evolves(StreamAt(pl, w.net).value, StreamAt(pl, net').value)
    requires P.InOrder(View(w, StreamAt(pl, w.net).value))
    requires P.Small(View(w, StreamAt(pl, w.net).value)) && P.Small(View(w, StreamAt(pl, net').value))
    ensures P.InOrder(View(w, StreamAt(pl, net').value))
  {
    hide N.Linked, P.InOrder, S.Grows, S.Holding, N.StreamOf, Inv;
    var st, st' := StreamAt(pl, w.net).value, StreamAt(pl, net').value;
    var e := View(w, st);
    N.LinkedInv(pl.su.json, net'.a, net'.b, net'.ba.pkts, net'.ab.pkts);
    N.StreamOfInv(N.EndOf(net', pl.atA), pl.i);
    P.GrowsInOrder(e, st'.src, st'.got);
    CtxDoesNotMatter(e.(r := e.r.(src := st'.src), got := st'.got), View(w, st'));
  }

  lemma CtxDoesNotMatter(e: P.Receiver, e': P.Receiver)
    requires P.InOrder(e) && e' == e.(ctx := e'.ctx)
    ensures P.InOrder(e')
  {
    hide P.Reading, F.WakesAreReal;
  }

  /** The reader's actions leave the stream as Pipe's step has it. */
  lemma ReaderActs(pl: Place, w: World, ev: Event)
    requires !ev.InNetwork? && StreamAt(pl, w.net).Some? && pl.i !in N.EndOf(w.net, pl.atA).pending
    requires P.InOrder(View(w, StreamAt(pl, w.net).value)) && P.Small(View(w, StreamAt(pl, w.net).value))
    ensures var st := StreamAt(pl, w.net).value;
            |st.src.buf.lenBuf| == 4
            && var e := View(w, st);
               var e' := P.Step(e, ReaderEvent(ev));
               var net' := N.NetRun(pl.su, w.net, Acts(pl.atA, pl.i, ReaderOps(e, ev)));
               StreamAt(pl, net') == Some(st.(src := e'.r.src, taken := e'.taken)) && e'.got == st.got
  {
    hide N.NetRun, N.StreamOf, S.Holding, P.ReadStart, P.ReadFinish, Apply, StartOps, FinishOps, Acts, P.InOrder, Flat;
    var st := StreamAt(pl, w.net).value;
    var e := View(w, st);
    P.InOrderPrefix(e);
    P.InOrderReading(e);
    StartOpsAreUser(e.r);
    ApplyNone(st.src);
    match ev {
      case StartRead(n) =>
        StartApplies(e.r, st.got, st.taken, n);
        ActsOnStream(pl.su, w.net, pl.atA, pl.i, ReaderOps(e, ev));
      case FinishRead(arm) =>
        if P.CanFinish(e, arm) {
          FinishApplies(e.r, st.got, st.taken, arm, e.wait.n);
          FinishOpsAreUser(e.r, arm);
        }
        ActsOnStream(pl.su, w.net, pl.atA, pl.i, ReaderOps(e, ev));
    }
  }

  lemma FinishOpsAreUser(r: P.Reader, arm: S.Arm)
    requires |r.src.buf.lenBuf| == 4
    ensures NoArrivals(FinishOps(r, arm))
  {
    hide StartOps;
    StartOpsAreUser(P.Reader(S.Wake(r.src, arm).0, []));
  }

  lemma ReaderKeeps(pl: Place, w: World, ev: Event)
    requires WorldInv(pl, w) && K.Faithful(pl.su.json) && Small(pl, w) && !ev.InNetwork?
    requires Small(pl, Step(pl, w, ev))
    ensures var w' := Step(pl, w, ev);
            && WorldInv(pl, w') && w.read <= w'.read
            && (w'.whole <==> w.whole && !Early(pl, w, ev))
  {
    hide N.NetInv, N.NetRun, N.StreamOf, P.InOrder, K.Faithful, Acts, ReaderOps, P.Step, P.Early;
    if StreamAt(pl, w.net).Some? && pl.i !in N.EndOf(w.net, pl.atA).pending {
      var st := StreamAt(pl, w.net).value;
      var e := View(w, st);
      ReaderActs(pl, w, ev);
      P.StepInOrder(e, ReaderEvent(ev));
      var acts := Acts(pl.atA, pl.i, ReaderOps(e, ev));
      N.RunKeeps(pl.su, w.net, acts);
      N.RunAppend(pl.su, N.START_NET, w.trace, acts);
      StepCtx(e, ReaderEvent(ev));
      if ev.StartRead? {
        NotEarlyStart(e, ev);
      }
      assert View(Step(pl, w, ev), StreamAt(pl, Step(pl, w, ev).net).value) == P.Step(e, ReaderEvent(ev));
    }
  }

  lemma StepCtx(e: P.Receiver, ev: P.Event)
    requires |e.r.src.buf.lenBuf| == 4 && (ev.StartRead? || ev.FinishRead?)
    ensures P.Step(e, ev).ctx == e.ctx && P.Step(e, ev).got == e.got
  {
    hide P.ReadStart, P.ReadFinish;
  }

  lemma NotEarlyStart(e: P.Receiver, ev: Event)
    requires ev.StartRead?
    ensures !P.Early(e, ReaderEvent(ev))
  {
  }

  // ---- runs ----

  function Run(pl: Place, w: World, evs: seq<Event>): World
    decreases |evs|
  {
    if evs == [] then w else Run(pl, Step(pl, w, evs[0]), evs[1..])
  }

  /** At no point of the run are 2^32 frames queued on the stream. */
  predicate NeverFull(pl: Place, w: World, evs: seq<Event>)
    decreases |evs|
  {
    Small(pl, w) && (evs == [] || NeverFull(pl, Step(pl, w, evs[0]), evs[1..]))
  }

  predicate NeverEarly(pl: Place, w: World, evs: seq<Event>)
    decreases |evs|
  {
    evs == [] || (!Early(pl, w, evs[0]) && NeverEarly(pl, Step(pl, w, evs[0]), evs[1..]))
  }

  lemma StepKeeps(pl: Place, w: World, ev: Event)
    requires WorldInv(pl, w) && K.Faithful(pl.su.json) && Small(pl, w) && Small(pl, Step(pl, w, ev))
    ensures var w' := Step(pl, w, ev);
            WorldInv(pl, w') && w.read <= w'.read && (w'.whole <==> w.whole && !Early(pl, w, ev))
  {
    hide WorldInv, Small, Early, K.Faithful;
    if ev.InNetwork? {
      OtherKeeps(pl, w, ev.ev);
      OtherSilent(pl, w, ev);
    } else {
      ReaderKeeps(pl, w, ev);
    }
  }

  lemma OtherSilent(pl: Place, w: World, ev: Event)
    requires ev.InNetwork?
    ensures var w' := Step(pl, w, ev); w'.read == w.read && w'.whole == w.whole && !Early(pl, w, ev)
  {
    hide N.NetStep;
  }

  lemma {:induction false} RunKeeps(pl: Place, w: World, evs: seq<Event>)
    requires WorldInv(pl, w) && K.Faithful(pl.su.json) && NeverFull(pl, w, evs)
    ensures var w' := Run(pl, w, evs);
            WorldInv(pl, w') && w.read <= w'.read && (w'.whole <==> w.whole && NeverEarly(pl, w, evs))
    decreases |evs|
  {
    hide Step, WorldInv, Small, Early, K.Faithful;
    if evs != [] {
      assert NeverFull(pl, Step(pl, w, evs[0]), evs[1..]);
      StepKeeps(pl, w, evs[0]);
      RunKeeps(pl, Step(pl, w, evs[0]), evs[1..]);
    }
  }

  lemma StartWorldInv(pl: Place)
    ensures WorldInv(pl, START_WORLD)
  {
    hide N.Linked;
    N.StartConnected(pl.su);
  }

  /** What the reader of the stream has, if the peer used the stream for these writes of a sinkWriter. */
  ghost predicate ReadsTheWrites(pl: Place, w: World, writes: seq<Bytes>) {
    StreamAt(pl, w.net).Some? ==>
      var got := StreamAt(pl, w.net).value.got;
      var sent := N.SenderOf(PeerOf(w.net, pl.atA), Neg32(pl.i)).sent;
      && w.read <= Flat(got) && got <= sent
      && (w.report.Some? ==> P.Reports(StreamAt(pl, w.net).value.src, w.report.value))
      && (sent <= P.AllChunks(writes) ==> w.read <= Flat(writes))
      && (w.ended && w.whole ==> w.read == Flat(got))
      && (w.ended && w.whole && got == P.AllChunks(writes) ==> w.read == Flat(writes))
  }

  /** A byte stream over a connection, in every run of two endpoints and a reader at either end, with reads
      of any sizes that start, wait and return while packets arrive and users act on all streams: the bytes
      read are a prefix of the bytes written at the other end. Every report of the end came with no
      accepted frame left if and only if no waiting read saw its context end while a frame was queued. The
      reader's actions are events of the network, and as long as no iteration loses the packet boundary
      the network is what happens on the bytes of the connection. */
  lemma BytesEndToEnd(pl: Place, evs: seq<Event>, writes: seq<Bytes>)
    requires K.Faithful(pl.su.json) && N.Id(pl.i) && NeverFull(pl, START_WORLD, evs)
    ensures var w := Run(pl, START_WORLD, evs);
            && w.net == N.NetRun(pl.su, N.START_NET, w.trace)
            && ReadsTheWrites(pl, w, writes)
            && (w.whole <==> NeverEarly(pl, START_WORLD, evs))
            && (W.NeverLoses(pl.su, W.START_BYTES, w.trace) ==>
                  W.ByteRun(pl.su, W.START_BYTES, w.trace) == W.OnBytes(w.net))
  {
    hide Run, N.NetRun, NeverFull, NeverEarly, N.NetInv, K.Faithful, W.NeverLoses, W.ByteRun, W.OnBytes,
         ReadsTheWrites, P.InOrder;
    StartWorldInv(pl);
    RunKeeps(pl, START_WORLD, evs);
    var w := Run(pl, START_WORLD, evs);
    WorldReads(pl, w, writes);
    TraceOnBytes(pl.su, w.trace);
  }

  /** No wake-up is lost, in any such run: a Read that waits can return exactly if a frame is queued on its
      stream, the stream was cancelled, or its context is done. */
  lemma ReadsWake(pl: Place, evs: seq<Event>)
    requires K.Faithful(pl.su.json) && NeverFull(pl, START_WORLD, evs)
    ensures var w := Run(pl, START_WORLD, evs);
            && (w.wait.InNext? ==> StreamAt(pl, w.net).Some?)
            && (StreamAt(pl, w.net).Some? ==> P.Wakes(View(w, StreamAt(pl, w.net).value)))
  {
    hide Run, NeverFull, N.NetInv, K.Faithful, P.InOrder, P.Wakes, View, N.NetRun, P.Small;
    StartWorldInv(pl);
    RunKeeps(pl, START_WORLD, evs);
    EndsSmall(pl, START_WORLD, evs);
    var w := Run(pl, START_WORLD, evs);
    if StreamAt(pl, w.net).Some? {
      P.WaitEndsExactly(View(w, StreamAt(pl, w.net).value));
    }
  }

  lemma {:induction false} EndsSmall(pl: Place, w: World, evs: seq<Event>)
    requires NeverFull(pl, w, evs)
    ensures Small(pl, Run(pl, w, evs))
    decreases |evs|
  {
    hide Step, Small;
    if evs != [] {
      EndsSmall(pl, Step(pl, w, evs[0]), evs[1..]);
    }
  }

  /** A read that reports the end reports the one that was sent: if no user of this end fails the stream
      first, io.EOF says that the peer's sink sent a regular end, and an error is the one in its error
      packet. */
  lemma ReportsWhatWasSent(pl: Place, evs: seq<Event>)
    requires K.Faithful(pl.su.json) && N.Id(pl.i) && NeverFull(pl, START_WORLD, evs)
    requires X.NeverFailed(pl.su, N.START_NET, Run(pl, START_WORLD, evs).trace, pl.atA, pl.i)
    ensures var w := Run(pl, START_WORLD, evs);
            var theirs := N.StreamOf(PeerOf(w.net, pl.atA), Neg32(pl.i));
            w.report.Some? && theirs.Some? ==>
              && theirs.value.said.Some?
              && var body := theirs.value.said.value;
                 w.report.value ==
                 if body == [116, 114, 117, 101] then P.Ended else P.Fails(X.Heard(pl.su.json, body))
  {
    hide Run, NeverFull, N.Linked, K.Faithful, P.InOrder, N.NetRun, X.NeverFailed, N.StreamOf;
    StartWorldInv(pl);
    RunKeeps(pl, START_WORLD, evs);
    var w := Run(pl, START_WORLD, evs);
    X.ErrorsArrive(pl.su, w.trace, pl.atA, pl.i);
    if w.report.Some? && StreamAt(pl, w.net).Some? {
      var st := StreamAt(pl, w.net).value;
      P.InOrderPrefix(View(w, st));
      MeansEndExactly(st.src.failed.value);
    }
  }

  lemma TraceOnBytes(su: N.Setup, trace: seq<N.NetEvent>)
    requires K.Faithful(su.json)
    ensures W.NeverLoses(su, W.START_BYTES, trace) ==>
              W.ByteRun(su, W.START_BYTES, trace) == W.OnBytes(N.NetRun(su, N.START_NET, trace))
  {
    hide N.NetRun, W.NeverLoses, W.ByteRun, N.Linked, K.Faithful;
    N.StartConnected(su);
    assert W.OnBytes(N.START_NET) == W.START_BYTES by { W.NothingPrinted([]); }
    W.RunMatches(su, N.START_NET, trace);
  }

  lemma WorldReads(pl: Place, w: World, writes: seq<Bytes>)
    requires WorldInv(pl, w) && N.Id(pl.i)
    ensures ReadsTheWrites(pl, w, writes)
  {
    hide N.Linked, N.StreamOf, P.InOrder, P.AllChunks, Flat, N.SenderOf, N.ReceiverOf, Inv;
    if StreamAt(pl, w.net).Some? {
      var st := StreamAt(pl, w.net).value;
      P.InOrderPrefix(View(w, st));
      var net := w.net;
      N.LinkedInv(pl.su.json, net.a, net.b, net.ba.pkts, net.ab.pkts);
      N.Swap(pl.su.json, net.a, net.b, net.ba.pkts, net.ab.pkts);
      if pl.atA {
        N.DeliversEnd(pl.su.json, net.a, net.b, net.ba, net.ab, pl.i);
      } else {
        N.DeliversEnd(pl.su.json, net.b, net.a, net.ab, net.ba, pl.i);
      }
      N.StreamOfInv(N.EndOf(net, pl.atA), pl.i);
      P.FlatPrefix(st.got, N.SenderOf(PeerOf(net, pl.atA), Neg32(pl.i)).sent);
      P.AllChunksFlat(writes);
      var sent := N.SenderOf(PeerOf(net, pl.atA), Neg32(pl.i)).sent;
      if sent <= P.AllChunks(writes) {
        P.FlatPrefix(st.got, P.AllChunks(writes));
      }
    }
  }
}
