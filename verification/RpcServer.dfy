/** The rpc object of rpc_server.go and rpc_client.go: requests in tables, a reader and a writer. */
module RpcServer {
  import opened Base
  import C = Codec
  import K = Sink
  import S = Source
  import F = FrameBuffer
  import opened Session
  import opened Serve

  /** A request with its source, its sink and the context of its stream. The ghost fields record its
      history, as in Session.Stream. */
  class Request {
    const id: int32
    const source: S.ByteSource
    const sink: K.ByteSink
    const ctx: K.Context
    const abortable: bool
    ghost var got: seq<Bytes>
    ghost var taken: nat
    ghost var sent: seq<Bytes>
    ghost var said: Option<Bytes>

    /** The objects it consists of. They are the same for all its life. */
    ghost function Parts(): set<object> { {this, source, source.buf, sink, ctx} }

    ghost function State(): Stream
      reads Parts()
    {
      Stream(id, source.State(), sink.State(), ctx.err, abortable, got, taken, sent, said)
    }

    /** It writes to this writer, and its sink waits for its own context. */
    predicate Uses(w: C.Writer) { sink.w == w && sink.streamCtx == ctx }

    constructor (id: int32, flag: C.Flag, abortable: bool, w: C.Writer)
      ensures fresh(Parts()) && Uses(w) && this.id == id
      ensures State() == NewStream(id, flag, abortable)
    {
      this.id, this.abortable := id, abortable;
      var c := new K.Context();
      var src := new S.ByteSource();
      var snk := new K.ByteSink(c, w);
      snk.flag, snk.req := flag, id;
      ctx, source, sink := c, src, snk;
      got, taken, sent, said := [], 0, [], None;
    }

    /** consume; the history records the body if it was accepted. */
    method Consume(len: uint32, flag: byte, body: Bytes) returns (err: Option<Error>)
      modifies Parts()
      ensures var (src, e) := S.Consume(old(source.State()), len, flag, F.Body(body, false));
              && err == e
              && State() == old(State()).(src := src, got := if e.None? then old(got) + [body] else old(got))
    {
      hide F.CopyBody;
      err := source.ConsumeBody(len, flag, F.Body(body, false));
      if err.None? {
        got := got + [body];
      }
    }

    /** `goes` tells whether the connection had room for the packet. */
    method CloseSink(cfg: Config, err: Option<Error>) returns (ghost goes: bool)
      modifies this`said, sink, sink.w.conn
      ensures old(sink.w.conn.quota).None? ==> goes
      ensures var (st, out) := CloseSinkOf(cfg.(goes := goes), old(State()), err);
              State() == st && C.Wrote(old(sink.w.conn.Now()), sink.w.conn.Now(), out)
    {
      hide C.Print, K.EndErr, K.EndOkay, K.Close, C.Wrote;
      goes := sink.w.conn.Takes(C.HEADER_SIZE + |K.ClosePacket(cfg.json, sink.State(), err).body|);
      var r, sent, left := sink.CloseWithError(cfg.json, err, true);
      said := Or(said, FirstEnd(if sent.Some? then [sent.value] else []));
    }

    /** A user writes a body. */
    method Write(cfg: Config, b: Bytes) returns (n: int, err: Option<Error>, ghost goes: bool)
      requires sink.streamCtx == ctx
      modifies Parts(), sink.w.conn
      ensures old(sink.w.conn.quota).None? ==> goes
      ensures var (st, out) := UserStep(cfg.(goes := goes), old(State()), Session.Write(b));
              && State() == st && C.Wrote(old(sink.w.conn.Now()), sink.w.conn.Now(), out)
              && (err.None? <==> out != [])
    {
      hide C.Print, K.Write, C.Wrote;
      goes := sink.w.conn.Takes(C.HEADER_SIZE + |b|);
      ghost var p;
      n, err, p := sink.WriteBody(b);
      if p.Some? {
        sent := sent + [b];
        said := Or(said, FirstEnd([p.value]));
      }
    }

    /** A user cancels the source. */
    method Cancel(cfg: Config, err: Option<Error>)
      requires |source.State().buf.lenBuf| == 4
      modifies Parts()
      ensures State() == UserStep(cfg, old(State()), OnSource(S.Cancellation(err))).0
    {
      hide S.Cancel;
      source.CancelWith(err);
    }

    /** A user reads the next frame, after a Next that returned true. */
    method Take(cfg: Config) returns (data: Option<Bytes>)
      requires |source.State().buf.lenBuf| == 4 && source.buf.frames > 0
      modifies Parts()
      ensures State() == UserStep(cfg, old(State()), OnSource(S.TakeAll)).0
      ensures data == S.TakeBytes(old(source.State())).1
    {
      hide S.TakeBytes;
      data := source.NextBytes();
      if data.Some? {
        taken := taken + 1;
      }
    }

    method Abort()
      modifies ctx
      ensures State() == old(State()).(ctx := if old(ctx.err).None? then Some(Canceled) else old(ctx.err))
    {
      if ctx.err.None? {
        ctx.err := Some(Canceled);
      }
    }

    /** The source is cancelled and then the sink closed. */
    method CancelAndClose(cfg: Config, cerr: Option<Error>, err: Option<Error>) returns (ghost goes: bool)
      modifies Parts(), sink.w.conn
      ensures old(sink.w.conn.quota).None? ==> goes
      ensures var (st, out) := CloseSinkOf(cfg.(goes := goes), old(State()), err);
              && State() == st.(src := S.Cancel(old(State()).src, cerr))
              && C.Wrote(old(sink.w.conn.Now()), sink.w.conn.Now(), out)
    {
      hide C.Wrote, S.Cancel, CloseSinkOf;
      source.CancelWith(cerr);
      goes := CloseSink(cfg, err);
      CloseAfterCancel(cfg.(goes := goes), old(State()), err, cerr);
    }

    /** What Terminate does to a request. */
    method TerminatePartsOf(cfg: Config) returns (ghost goes: bool)
      modifies Parts(), sink.w.conn
      ensures old(sink.w.conn.quota).None? ==> goes
      ensures var (st, out) := TerminateParts(cfg.(goes := goes), old(State()));
              State() == st && C.Wrote(old(sink.w.conn.Now()), sink.w.conn.Now(), out)
    {
      hide C.Wrote, S.Cancel, CloseSinkOf;
      goes := CancelAndClose(cfg, Some(SessionTerminated), Some(SessionTerminated));
      CloseSinkCtx(cfg.(goes := goes), old(State()), Some(SessionTerminated));
      if id < 0 || !abortable {
        Abort();
      }
    }

    /** What closeStream does to a request. */
    method ClosePartsOf(cfg: Config, err: Option<Error>) returns (ghost goes: bool)
      modifies Parts(), sink.w.conn
      ensures old(sink.w.conn.quota).None? ==> goes
      ensures var (st, out) := CloseParts(cfg.(goes := goes), old(State()), err);
              State() == st && C.Wrote(old(sink.w.conn.Now()), sink.w.conn.Now(), out)
    {
      hide C.Wrote, S.Cancel, CloseSinkOf;
      goes := CancelAndClose(cfg, err, err);
      CloseSinkCtx(cfg.(goes := goes), old(State()), err);
      if abortable {
        Abort();
      }
    }

    /** What Request.CloseWithError does to it, closeStream included. */
    method CloseBothOf(cfg: Config, cerr: Option<Error>) returns (ghost goes1: bool, ghost goes2: bool)
      modifies Parts(), sink.w.conn
      ensures old(sink.w.conn.quota).None? ==> goes1 && goes2
      ensures var (st, out) := CloseRequest(cfg.(goes := goes1), old(State()), cerr, goes2);
              State() == st && C.Wrote(old(sink.w.conn.Now()), sink.w.conn.Now(), out)
    {
      hide S.Cancel, CloseSinkOf, CloseParts;
      ghost var before := sink.w.conn.Now();
      if cerr.None? || IsError(cerr.value, EOF) || IsError(cerr.value, Eos) {
        goes1 := CancelAndClose(cfg, None, Some(EOF));
      } else {
        goes1 := CancelAndClose(cfg, cerr, cerr);
      }
      ghost var between := sink.w.conn.Now();
      ghost var st1 := State();
      goes2 := ClosePartsOf(cfg, cerr);
      ghost var c1 := cfg.(goes := goes1);
      assert c1.(goes := goes2) == cfg.(goes := goes2);
      C.WroteBoth(before, between, sink.w.conn.Now(),
                  CloseSinkOf(c1, old(State()), if Regular(cerr) then Some(EOF) else cerr).1,
                  CloseParts(cfg.(goes := goes2), st1, cerr).1);
    }
  }

  lemma TakesNext(ep: Endpoint, req: Request)
    requires Inv(ep) && req.id in ep.reqs && ep.reqs[req.id] == req.State() && req.source.buf.frames > 0
    ensures var st := ep.reqs[req.id];
            && st.src == req.source.State() && |st.src.buf.lenBuf| == 4
            && st.taken < |st.got| && S.TakeBytes(st.src).1 == Some(st.got[st.taken])
  {
    hide Inv, S.Holding, S.TakeBytes, K.SaneSink;
    IdOf(ep, req.id);
    var st := ep.reqs[req.id];
    S.TakeHolding(st.src, st.got, st.taken, 0);
  }

  lemma CloseSinkCtx(cfg: Config, st: Stream, err: Option<Error>)
    ensures CloseSinkOf(cfg, st, err).0.ctx == st.ctx && CloseSinkOf(cfg, st, err).0.abortable == st.abortable
  {
    hide K.Close;
  }

  /** All objects of these requests. */
  ghost function Footprint(owned: set<Request>): set<object> {
    set r, o | r in owned && o in r.Parts() :: o
  }

  /** No two requests share an object, so what happens to one does not show in another. */
  ghost predicate Apart(owned: set<Request>) {
    forall r, s | r in owned && s in owned && r != s :: r.Parts() !! s.Parts()
  }

  /** Each request of a table is filed under its id and has the state that `values` has for it. */
  ghost predicate TableOk(owned: set<Request>, table: map<int32, Request>, values: map<int32, Stream>)
    reads Footprint(owned)
  {
    && table.Keys == values.Keys
    && (forall k | k in table :: table[k] in owned && table[k].State() == values[k] && table[k].id == k)
  }

  lemma ApartGrows(owned: set<Request>, req: Request)
    requires Apart(owned) && req.Parts() !! Footprint(owned)
    ensures Apart(owned + {req}) && Footprint(owned + {req}) == Footprint(owned) + req.Parts()
  {
    hide Request.Parts;
  }

  lemma Separate(owned: set<Request>, req: Request)
    requires Apart(owned) && req in owned
    ensures forall r | r in owned :: r.Parts() <= Footprint(owned)
    ensures forall r | r in owned && r != req :: r.Parts() !! req.Parts()
  {
    hide Request.Parts;
  }

  /** The states of all requests of a session. */
  ghost function States(owned: set<Request>): map<Request, Stream>
    reads Footprint(owned)
  {
    map r | r in owned :: r.State()
  }

  /** The states that a table had when the requests had the states `before`. */
  ghost predicate TableWas(before: map<Request, Stream>, table: map<int32, Request>, values: map<int32, Stream>) {
    && table.Keys == values.Keys
    && forall k | k in table :: table[k] in before && before[table[k]] == values[k] && table[k].id == k
  }

  lemma Remember(owned: set<Request>, table: map<int32, Request>, values: map<int32, Stream>)
    requires TableOk(owned, table, values)
    ensures TableWas(States(owned), table, values)
  {
    hide Request.State;
  }

  /** A change of one active request shows in its entry only. */
  lemma OnlyThis(owned: set<Request>, before: map<Request, Stream>, req: Request, table: map<int32, Request>,
                 values: map<int32, Stream>, gone: map<int32, Request>, oldValues: map<int32, Stream>)
    requires before.Keys == owned && TableWas(before, table, values) && TableWas(before, gone, oldValues)
    requires req.id in table && table[req.id] == req && table.Keys !! gone.Keys
    requires forall r | r in owned && r != req :: r.State() == before[r]
    ensures TableOk(owned, table, values[req.id := req.State()]) && TableOk(owned, gone, oldValues)
  {
    hide Request.State;
  }

  /** Both tables when an active request goes from one to the other. */
  lemma TablesMove(owned: set<Request>, table: map<int32, Request>, values: map<int32, Stream>,
                   gone: map<int32, Request>, oldValues: map<int32, Stream>, r: Request)
    requires TableOk(owned, table, values[r.id := r.State()]) && TableOk(owned, gone, oldValues)
    requires r.id in table && table[r.id] == r && table.Keys !! gone.Keys
    ensures r in owned && TableOk(owned, table - {r.id}, values - {r.id})
    ensures TableOk(owned, gone[r.id := r], oldValues[r.id := r.State()])
    ensures (table - {r.id}).Keys !! gone[r.id := r].Keys
  {
    hide TableOk;
    TableOwns(owned, table, values[r.id := r.State()], r.id);
    TableWithout(owned, table, values, r);
    TableWith(owned, gone, oldValues, r);
  }

  lemma TableWithout(owned: set<Request>, table: map<int32, Request>, values: map<int32, Stream>, r: Request)
    requires r.id in table && table[r.id] == r && TableOk(owned, table, values[r.id := r.State()])
    ensures TableOk(owned, table - {r.id}, values - {r.id})
  {
  }

  lemma TableWith(owned: set<Request>, table: map<int32, Request>, values: map<int32, Stream>, r: Request)
    requires TableOk(owned, table, values) && r in owned
    ensures TableOk(owned, table[r.id := r], values[r.id := r.State()])
  {
  }

  lemma StateId(r: Request)
    ensures r.State().id == r.id
  {
  }

  lemma TableGrows(owned: set<Request>, table: map<int32, Request>, values: map<int32, Stream>, r: Request)
    requires TableOk(owned, table, values)
    ensures TableOk(owned + {r}, table, values)
  {
  }

  /** Both tables when a new request is added to the first. */
  lemma TablesGain(owned: set<Request>, table: map<int32, Request>, values: map<int32, Stream>,
                   gone: map<int32, Request>, oldValues: map<int32, Stream>, r: Request)
    requires TableOk(owned, table, values) && TableOk(owned, gone, oldValues) && table.Keys !! gone.Keys
    requires r.id !in gone
    ensures TableOk(owned + {r}, table[r.id := r], values[r.id := r.State()]) && TableOk(owned + {r}, gone, oldValues)
    ensures table[r.id := r].Keys !! gone.Keys && r.State().id == r.id
  {
    hide TableOk;
    TableGrows(owned, table, values, r);
    TableGrows(owned, gone, oldValues, r);
    TableWith(owned + {r}, table, values, r);
  }

  lemma RetiredAreClosed(ep: Endpoint, i: int32)
    requires Inv(ep)
    ensures i in ep.retired ==> i in ep.closed
  {
    hide StreamInv;
  }

  lemma AllocateRoom(ep: Endpoint, k: int32)
    requires Inv(ep) && k == ep.highest + 1
    ensures k !in ep.reqs && k !in ep.retired && k !in ep.closed && ep.highest >= 0
  {
    hide StreamInv;
  }

  lemma Allocated(cfg: Config, ep: Endpoint, call: K.Call, re: K.Encoding, abortable: bool)
    requires Inv(ep) && ep.highest < MAX_INT32 && ClientType(call.typ)
    ensures var k := ep.highest + 1;
            var st := NewStream(k, ClientFlag(call.typ, re), abortable);
            var ep1 := ep.(highest := k);
            var ep2 := ep1.(reqs := ep1.reqs[k := st]);
            var ep' := ep2.(pending := ep2.pending[k := call]);
            ActStep(cfg, ep, Allocate(call, re, abortable)).0 == ep' && Inv(ep')
  {
    hide StreamInv, NewStream, ClientFlag, ClientType;
    ActInv(cfg, ep, Allocate(call, re, abortable));
  }

  lemma FarewellsSnoc(cfg: Config, ep: Endpoint, order: seq<int32>, k: int32, taken: set<int32>)
    requires Ids(order) <= ep.reqs.Keys && k in ep.reqs
    ensures Ids(order + [k]) <= ep.reqs.Keys
    ensures Farewells(cfg, ep, order + [k], taken) ==
            Farewells(cfg, ep, order, taken) + TerminateOf(cfg, ep, k, taken).1
  {
    hide TerminateOf;
    IdsSnoc(order, k);
    assert (order + [k])[..|order|] == order;
  }

  /** Whether the packets of other requests go out makes no difference. */
  lemma TakenElsewhere(cfg: Config, ep: Endpoint, order: seq<int32>, taken: set<int32>, more: set<int32>)
    requires Ids(order) <= ep.reqs.Keys && (forall k | k in order :: k in taken <==> k in more)
    ensures Farewells(cfg, ep, order, taken) == Farewells(cfg, ep, order, more)
    ensures Terminated(cfg, ep, Ids(order), taken) == Terminated(cfg, ep, Ids(order), more)
  {
    hide TerminateOf, Farewells;
    forall k | k in Ids(order)
      ensures TerminateOf(cfg, ep, k, taken) == TerminateOf(cfg, ep, k, more)
    {
      SameTaken(cfg, ep, k, taken, more);
    }
    SameFarewells(cfg, ep, order, taken, more);
    assert (map k | k in Ids(order) :: TerminateOf(cfg, ep, k, taken).0)
        == (map k | k in Ids(order) :: TerminateOf(cfg, ep, k, more).0);
  }

  lemma SameTaken(cfg: Config, ep: Endpoint, k: int32, taken: set<int32>, more: set<int32>)
    requires k in ep.reqs && (k in taken <==> k in more)
    ensures TerminateOf(cfg, ep, k, taken) == TerminateOf(cfg, ep, k, more)
  {
    hide TerminateParts;
  }

  lemma {:induction false} SameFarewells(cfg: Config, ep: Endpoint, order: seq<int32>, taken: set<int32>,
                                         more: set<int32>)
    requires Ids(order) <= ep.reqs.Keys
    requires forall k | k in order :: TerminateOf(cfg, ep, k, taken) == TerminateOf(cfg, ep, k, more)
    ensures Farewells(cfg, ep, order, taken) == Farewells(cfg, ep, order, more)
    decreases |order|
  {
    hide TerminateOf;
    if order != [] {
      assert order[|order| - 1] in order;
      assert forall k | k in order[..|order| - 1] :: k in order;
      SameFarewells(cfg, ep, order[..|order| - 1], taken, more);
    }
  }

  lemma {:induction false} ServeManySnoc(cfg: Config, ep: Endpoint, input: Bytes, goes: seq<bool>, g: bool)
    ensures var (ep1, rest, out) := ServeMany(cfg, ep, input, goes);
            var s := ServeOnce(cfg.(goes := g), ep1, rest);
            ServeMany(cfg, ep, input, goes + [g]) == (s.fx.ep, s.rest, out + s.fx.out)
    decreases |goes|
  {
    hide ServeOnce;
    if goes == [] {
      var s := ServeOnce(cfg.(goes := g), ep, input);
      assert [g][1..] == [] && goes + [g] == [g];
      assert ServeMany(cfg, s.fx.ep, s.rest, []) == (s.fx.ep, s.rest, []);
      assert s.fx.out + [] == [] + s.fx.out;
    } else {
      var s := ServeOnce(cfg.(goes := goes[0]), ep, input);
      assert (goes + [g])[1..] == goes[1..] + [g];
      ServeManySnoc(cfg, s.fx.ep, s.rest, goes[1..], g);
      var (ep1, rest, out) := ServeMany(cfg, s.fx.ep, s.rest, goes[1..]);
      var s1 := ServeOnce(cfg.(goes := g), ep1, rest);
      assert s.fx.out + (out + s1.fx.out) == (s.fx.out + out) + s1.fx.out;
    }
  }

  class Rpc {
    const cfg: Config
    const reader: C.Reader
    const writer: C.Writer
    var reqs: map<int32, Request>
    var reqsClosed: set<int32>
    var highest: int32
    var serving: bool
    var terminated: bool
    ghost var retired: map<int32, Request>   // requests that left the table but that users still hold
    ghost var owned: set<Request>            // every request of this session
    ghost var repr: set<object>              // their objects
    ghost var abs: Endpoint                  // the value this object stands for

    ghost predicate Shape()
      reads this, repr
    {
      && repr == Footprint(owned) && {this, reader, writer, writer.conn} !! repr
      && Apart(owned) && (forall r | r in owned :: r.Uses(writer))
      && TableOk(owned, reqs, abs.reqs) && TableOk(owned, retired, abs.retired) && reqs.Keys !! retired.Keys
      && reqsClosed == abs.closed && highest == abs.highest && serving == abs.serving
    }

    ghost predicate Valid()
      reads this, repr
    {
      Shape() && Inv(abs)
    }

    constructor (cfg: Config, reader: C.Reader, writer: C.Writer)
      ensures this.cfg == cfg && this.reader == reader && this.writer == writer
      ensures Valid() && abs == START && !terminated
    {
      this.cfg, this.reader, this.writer := cfg, reader, writer;
      reqs, reqsClosed, highest, serving, terminated := map[], {}, 0, true, false;
      retired, owned, repr, abs := map[], {}, {}, START;
      new;
      StartInv();
    }

    /** What is left of Shape when it is hidden. */
    lemma ShapeFacts()
      requires Shape()
      ensures reqs.Keys == abs.reqs.Keys && retired.Keys == abs.retired.Keys
      ensures reqsClosed == abs.closed && highest == abs.highest
      ensures {this, reader, writer, writer.conn} !! repr
    {
      hide Footprint, Apart;
    }

    ghost function Snapshot(): (before: map<Request, Stream>)
      requires Shape()
      reads this, repr
      ensures before.Keys == owned && (forall r | r in owned :: before[r] == r.State())
      ensures TableWas(before, reqs, abs.reqs) && TableWas(before, retired, abs.retired)
    {
      Remember(owned, reqs, abs.reqs);
      Remember(owned, retired, abs.retired);
      States(owned)
    }

    /** closeStream: the request is cancelled, closed and aborted, and moves to the closed ids. */
    method CloseStreamOf(req: Request, err: Option<Error>) returns (ghost goes: bool)
      requires Shape() && req.id in reqs && reqs[req.id] == req
      modifies this, req.Parts(), writer.conn
      ensures Shape() && terminated == old(terminated) && owned == old(owned) && repr == old(repr)
      ensures old(writer.conn.quota).None? ==> goes
      ensures var fx := CloseStream(cfg.(goes := goes), old(abs), old(req.State()), err, true);
              abs == fx.ep && C.Wrote(old(writer.conn.Now()), writer.conn.Now(), fx.out)
    {
      hide CloseParts, C.Wrote, Request.State, Retire, TableOk, Apart, Footprint, TableWas, States;
      TableOwns(owned, reqs, abs.reqs, req.id);
      Separate(owned, req);
      ghost var before := Snapshot();
      goes := req.ClosePartsOf(cfg, err);
      ClosePartsId(cfg.(goes := goes), old(req.State()), err);
      forall r | r in owned && r != req
        ensures r.State() == old(r.State())
      {
        assert r.Parts() !! req.Parts() && writer.conn !in r.Parts();
      }
      OnlyThis(owned, before, req, reqs, abs.reqs, retired, abs.retired);
      MoveToClosed(req);
    }

    /** Request.CloseWithError on an active request. */
    method CloseWithError(req: Request, cerr: Option<Error>) returns (ghost goes1: bool, ghost goes2: bool)
      requires Valid() && req.id in reqs && reqs[req.id] == req
      modifies this, req.Parts(), writer.conn
      ensures Valid() && terminated == old(terminated) && owned == old(owned) && repr == old(repr)
      ensures old(writer.conn.quota).None? ==> goes1 && goes2
      ensures var (st, out) := CloseRequest(cfg.(goes := goes1), old(req.State()), cerr, goes2);
              abs == Retire(old(abs), st) && C.Wrote(old(writer.conn.Now()), writer.conn.Now(), out)
      ensures req.id in reqsClosed && req.id !in reqs
    {
      hide CloseRequest, C.Wrote, Request.State, Retire, Inv, TableOk, Apart, Footprint, TableWas, States;
      TableOwns(owned, reqs, abs.reqs, req.id);
      Separate(owned, req);
      ghost var before := Snapshot();
      goes1, goes2 := req.CloseBothOf(cfg, cerr);
      CloseRequestInv(cfg.(goes := goes1), old(abs), req.id, cerr, goes2);
      forall r | r in owned && r != req
        ensures r.State() == old(r.State())
      {
        assert r.Parts() !! req.Parts() && writer.conn !in r.Parts();
      }
      OnlyThis(owned, before, req, reqs, abs.reqs, retired, abs.retired);
      MoveToClosed(req);
    }

    // ---- users ----

    /** ByteSink.Write on an active request is the user action of the model. */
    method WriteTo(req: Request, b: Bytes) returns (n: int, err: Option<Error>, ghost goes: bool)
      requires Valid() && req.id in reqs && reqs[req.id] == req && req.id !in abs.pending
      modifies this, req.Parts(), writer.conn
      ensures Valid() && owned == old(owned) && repr == old(repr)
      ensures old(writer.conn.quota).None? ==> goes
      ensures var (ep, out) := ActStep(cfg.(goes := goes), old(abs), User(req.id, Session.Write(b)));
              && abs == ep && C.Wrote(old(writer.conn.Now()), writer.conn.Now(), out)
              && (err.None? <==> out != [])
    {
      hide UserStep, C.Wrote, Request.State, Inv, TableOk, Apart, Footprint, TableWas, States;
      TableOwns(owned, reqs, abs.reqs, req.id);
      Separate(owned, req);
      ghost var before := Snapshot();
      n, err, goes := req.Write(cfg, b);
      ActInv(cfg.(goes := goes), old(abs), User(req.id, Session.Write(b)));
      forall r | r in owned && r != req
        ensures r.State() == old(r.State())
      {
        assert r.Parts() !! req.Parts() && writer.conn !in r.Parts();
      }
      OnlyThis(owned, before, req, reqs, abs.reqs, retired, abs.retired);
      abs := abs.(reqs := abs.reqs[req.id := req.State()]);
    }

    /** ByteSource.Cancel on an active request. */
    method CancelSource(req: Request, err: Option<Error>)
      requires Valid() && req.id in reqs && reqs[req.id] == req && req.id !in abs.pending
      modifies this, req.Parts()
      ensures Valid() && owned == old(owned) && repr == old(repr)
      ensures abs == ActStep(cfg, old(abs), User(req.id, OnSource(S.Cancellation(err)))).0
    {
      hide UserStep, Request.State, Inv, TableOk, Apart, Footprint, TableWas, States;
      LenBufOf(req);
      TableOwns(owned, reqs, abs.reqs, req.id);
      Separate(owned, req);
      ActInv(cfg, abs, User(req.id, OnSource(S.Cancellation(err))));
      ghost var before := Snapshot();
      req.Cancel(cfg, err);
      forall r | r in owned && r != req
        ensures r.State() == old(r.State())
      {
        assert r.Parts() !! req.Parts();
      }
      OnlyThis(owned, before, req, reqs, abs.reqs, retired, abs.retired);
      abs := abs.(reqs := abs.reqs[req.id := req.State()]);
    }

    /** ByteSource.Bytes on an active request, after a Next that returned true. */
    method TakeFrom(req: Request) returns (data: Option<Bytes>)
      requires Valid() && req.id in reqs && reqs[req.id] == req && req.id !in abs.pending
      requires req.source.buf.frames > 0
      modifies this, req.Parts()
      ensures Valid() && owned == old(owned) && repr == old(repr)
      ensures abs == ActStep(cfg, old(abs), User(req.id, OnSource(S.TakeAll))).0
      ensures req.id in old(abs).reqs
              && var st := old(abs).reqs[req.id];
                 st.taken < |st.got| && data == Some(st.got[st.taken])
    {
      hide UserStep, Request.State, Inv, TableOk, Apart, Footprint, TableWas, States, S.TakeBytes;
      LenBufOf(req);
      TableOwns(owned, reqs, abs.reqs, req.id);
      Separate(owned, req);
      ActInv(cfg, abs, User(req.id, OnSource(S.TakeAll)));
      ghost var before := Snapshot();
      TakesNext(abs, req);
      data := req.Take(cfg);
      forall r | r in owned && r != req
        ensures r.State() == old(r.State())
      {
        assert r.Parts() !! req.Parts();
      }
      OnlyThis(owned, before, req, reqs, abs.reqs, retired, abs.retired);
      abs := abs.(reqs := abs.reqs[req.id := req.State()]);
    }

    lemma LenBufOf(req: Request)
      requires Valid() && req.id in reqs && reqs[req.id] == req
      ensures |req.source.State().buf.lenBuf| == 4
    {
      hide Inv, TableOk;
      TableOwns(owned, reqs, abs.reqs, req.id);
      IdOf(abs, req.id);
      StreamLenBuf(abs.reqs[req.id]);
    }

    /** The table part of closeStream: the request `req` goes from one table to the other, with its
        present state. */
    method MoveToClosed(req: Request)
      requires TableOk(owned, reqs, abs.reqs[req.id := req.State()]) && TableOk(owned, retired, abs.retired)
      requires req.id in reqs && reqs[req.id] == req && reqs.Keys !! retired.Keys
      requires reqsClosed == abs.closed && highest == abs.highest && serving == abs.serving
      requires Apart(owned) && (forall r | r in owned :: r.Uses(writer))
      requires repr == Footprint(owned) && {this, reader, writer, writer.conn} !! repr
      modifies this
      ensures Shape() && owned == old(owned) && repr == old(repr) && terminated == old(terminated)
      ensures reqs == old(reqs) - {req.id} && reqsClosed == old(reqsClosed) + {req.id}
      ensures abs == Retire(old(abs), req.State())
    {
      hide Request.State, TableOk, Apart, Request.Uses;
      StateId(req);
      TablesMove(owned, reqs, abs.reqs, retired, abs.retired, req);
      var id := req.id;
      reqs := reqs - {id};
      reqsClosed := reqsClosed + {id};
      retired := retired[id := req];
      abs := Retire(abs, req.State());
    }

    // ---- the serve loop ----

    /** isTrue compares byte by byte. */
    method IsTrue(data: Bytes) returns (yes: bool)
      ensures yes <==> data == K.TRUE
    {
      yes := |data| == 4 && data[0] == 116 && data[1] == 114 && data[2] == 117 && data[3] == 101;
    }

    method Stop()
      requires Shape()
      modifies this
      ensures Shape() && abs == old(abs).(serving := false) && owned == old(owned) && repr == old(repr)
    {
      serving := false;
      abs := abs.(serving := false);
    }

    /** "error/endstream handling and cleanup" */
    method ServeEnd(i: int32, len: uint32) returns (cont: bool, ghost goes: bool)
      requires Shape()
      modifies this, repr, reader, writer.conn
      ensures Shape() && owned == old(owned) && repr == old(repr)
      ensures old(writer.conn.quota).None? ==> goes
      ensures var n := Min(len, |old(reader.input)|);
              var body := old(reader.input)[..n];
              var fx := if i in old(abs).reqs && |body| != len then Fatal(old(abs), ShortBody, true)
                        else ReceiveEnd(cfg.(goes := goes), old(abs), i, body);
              && abs == fx.ep && cont == fx.fatal.None?
              && reader.input == (if fx.drained then old(reader.input)[n..] else old(reader.input))
              && C.Wrote(old(writer.conn.Now()), writer.conn.Now(), fx.out)
    {
      hide TableOk, CloseStream, C.Wrote, K.TRUE, Request.State;
      C.WroteNothing(writer.conn.Now());
      goes := true;
      if i !in reqs {
        assert i !in abs.reqs by { TableKeys(owned, reqs, abs.reqs); }
        if i in reqsClosed {
          var skipped := reader.Drain(len);
        }
        return true, goes;
      }
      TableOwns(owned, reqs, abs.reqs, i);
      var err, body := reader.ReadBodyInto(len);
      assert body == old(reader.input)[..Min(len, |old(reader.input)|)];
      if err.Some? {
        Stop();
        return false, goes;
      }
      var streamErr: Option<Error> := None;
      var ok := IsTrue(body);
      if !ok {
        var e := cfg.json.decErr(body);
        if e.None? {
          Stop();
          return false, goes;
        }
        streamErr := Some(CallError(e.value.0, e.value.1));
      }
      goes := CloseStreamOf(reqs[i], streamErr);
      CloseNotFatal(cfg.(goes := goes), old(abs), old(abs).reqs[i], streamErr, true);
      return true, goes;
    }

    /** Data for an active request: consume it, and close the stream if that fails. */
    method ServeData(i: int32, flag: byte, len: uint32) returns (cont: bool, ghost goes: bool)
      requires Shape() && i in reqs
      modifies this, repr, reader, writer.conn
      ensures Shape() && owned == old(owned) && repr == old(repr) && cont
      ensures old(writer.conn.quota).None? ==> goes
      ensures i in old(abs).reqs
      ensures var n := Min(len, |old(reader.input)|);
              var fx := ReceiveData(cfg.(goes := goes), old(abs), old(abs).reqs[i], flag, len, old(reader.input)[..n]);
              && abs == fx.ep && cont == fx.fatal.None?
              && reader.input == (if fx.drained then old(reader.input)[n..] else old(reader.input))
              && C.Wrote(old(writer.conn.Now()), writer.conn.Now(), fx.out)
    {
      hide TableOk, CloseStream, C.Wrote, F.CopyBody;
      C.WroteNothing(writer.conn.Now());
      TableOwns(owned, reqs, abs.reqs, i);
      var req := reqs[i];
      ghost var st := req.State();
      ghost var input := reader.input;
      if req.source.failed.Some? {
        ghost var e := Some(SourceCanceled(req.source.failed.value));
        goes := CloseStreamOf(req, Some(SourceCanceled(req.source.failed.value)));
        CloseNotFatal(cfg.(goes := goes), old(abs), st, e, false);
        return true, goes;
      }
      var body := reader.Drain(len);
      assert body == input[..Min(len, |input|)];
      var err := ConsumeFor(req, len, flag, body);
      goes := true;
      if err.Some? {
        st := req.State();
        goes := CloseStreamOf(req, err);
        CloseNotFatal(cfg.(goes := goes), old(abs), st, err, true);
      }
      return true, goes;
    }

    /** consume on the source of an active request. */
    method ConsumeFor(req: Request, len: uint32, flag: byte, body: Bytes) returns (err: Option<Error>)
      requires Shape() && req.id in reqs && reqs[req.id] == req
      modifies this, req.Parts()
      ensures Shape() && owned == old(owned) && repr == old(repr) && reqs == old(reqs) && retired == old(retired)
      ensures terminated == old(terminated)
      ensures var (src, e) := S.Consume(old(req.source.State()), len, flag, F.Body(body, false));
              var st := old(req.State()).(src := src, got := if e.None? then old(req.got) + [body] else old(req.got));
              err == e && req.State() == st && abs == old(abs).(reqs := old(abs).reqs[req.id := st])
    {
      hide Request.State, S.Consume, TableOk, Apart, Footprint, TableWas, States;
      TableOwns(owned, reqs, abs.reqs, req.id);
      Separate(owned, req);
      ghost var before := Snapshot();
      err := req.Consume(len, flag, body);
      forall r | r in owned && r != req
        ensures r.State() == old(r.State())
      {
        assert r.Parts() !! req.Parts() && writer.conn !in r.Parts();
      }
      OnlyThis(owned, before, req, reqs, abs.reqs, retired, abs.retired);
      abs := abs.(reqs := abs.reqs[req.id := req.State()]);
    }

    /** parseNewRequest, up to the call it finds: nothing is read of a packet with a bad id or flag. */
    method ParseNewRequest(i: int32, flag: C.Flag, len: uint32) returns (call: Option<K.Call>)
      modifies reader
      ensures var n := Min(len, |old(reader.input)|);
              var body := old(reader.input)[..n];
              var readable := i < 0 && C.Get(flag, C.FLAG_JSON);
              && reader.input == (if readable then old(reader.input)[n..] else old(reader.input))
              && (call.Some? <==> readable && cfg.json.decCall(body).Some?
                                  && WellTyped(cfg.json.decCall(body).value.typ, C.Get(flag, C.FLAG_STREAM)))
              && (call.Some? ==> call == cfg.json.decCall(body))
    {
      if i >= 0 {
        return None;
      }
      if !C.Get(flag, C.FLAG_JSON) {
        return None;
      }
      var body := reader.Drain(len);
      assert body == old(reader.input)[..Min(len, |old(reader.input)|)];
      call := cfg.json.decCall(body);
      if call.None? {
        return;
      }
      var typ := call.value.typ;
      if C.Get(flag, C.FLAG_STREAM) {
        if typ != "duplex" && typ != "source" && typ != "sink" {
          return None;
        }
      } else {
        if typ == "" {
          typ := "async";
        }
        if typ != "async" {
          return None;
        }
      }
    }

    /** parseNewRequest touches nothing but the reader. */
    method ParseCall(i: int32, flag: C.Flag, len: uint32) returns (call: Option<K.Call>)
      requires Shape()
      modifies reader
      ensures Shape()
      ensures var n := Min(len, |old(reader.input)|);
              var body := old(reader.input)[..n];
              var readable := i < 0 && C.Get(flag, C.FLAG_JSON);
              && reader.input == (if readable then old(reader.input)[n..] else old(reader.input))
              && (call.Some? <==> readable && cfg.json.decCall(body).Some?
                                  && WellTyped(cfg.json.decCall(body).value.typ, C.Get(flag, C.FLAG_STREAM)))
              && (call.Some? ==> call == cfg.json.decCall(body))
    {
      hide WellTyped, Apart, Request.State;
      call := ParseNewRequest(i, flag, len);
    }

    /** A call for a method that is not handled: reply with an error and close the id. */
    method Reject(i: int32, stream: bool, path: seq<string>) returns (cont: bool, ghost goes: bool)
      requires Shape()
      modifies this, writer.conn
      ensures Shape() && owned == old(owned) && repr == old(repr)
      ensures old(writer.conn.quota).None? ==> goes
      ensures var reply := K.EndErr(cfg.json, i, stream, NoSuchMethod(path));
              && cont == (C.Fits(reply) && goes)
              && abs == (if cont then old(abs).(closed := old(abs).closed + {i}) else old(abs).(serving := false))
              && C.Wrote(old(writer.conn.Now()), writer.conn.Now(), if cont then [reply] else [])
    {
      hide TableOk, C.Print, K.EndErr, C.Wrote;
      var p := K.EndErr(cfg.json, i, stream, NoSuchMethod(path));
      goes := writer.conn.Takes(C.HEADER_SIZE + |p.body|);
      var err := writer.WritePacket(p);
      if err.Some? {
        Stop();
        return false, goes;
      }
      reqsClosed := reqsClosed + {i};
      abs := abs.(closed := abs.closed + {i});
      return true, goes;
    }

    /** The first packet of an unknown id: parse the call, and open or reject it. */
    method ServeCall(i: int32, flag: C.Flag, len: uint32) returns (cont: bool, ghost goes: bool)
      requires Shape() && i !in reqs && i !in reqsClosed && i !in retired
      modifies this, reader, writer.conn
      ensures Shape() && fresh(repr - old(repr))
      ensures old(writer.conn.quota).None? ==> goes
      ensures var n := Min(len, |old(reader.input)|);
              var fx := ReceiveCall(cfg.(goes := goes), old(abs), i, flag, old(reader.input)[..n]);
              && abs == fx.ep && cont == fx.fatal.None?
              && reader.input == (if fx.drained then old(reader.input)[n..] else old(reader.input))
              && C.Wrote(old(writer.conn.Now()), writer.conn.Now(), fx.out)
    {
      hide C.Wrote, K.EndErr, WellTyped, Shape, NewStream, C.Fits;
      C.WroteNothing(writer.conn.Now());
      ShapeFacts();
      goes := true;
      var parsed := ParseCall(i, flag, len);
      if parsed.None? {
        Stop();
        return false, goes;
      }
      var call := parsed.value;
      var stream := C.Get(flag, C.FLAG_STREAM);
      if cfg.handles(call.path) {
        Accept(i, stream);
        return true, goes;
      }
      cont, goes := Reject(i, stream, call.path);
    }

    /** A call for a method that is handled: a stream is opened and the handler started. */
    method Accept(i: int32, stream: bool)
      requires Shape() && i !in reqs && i !in retired
      modifies this
      ensures Shape() && fresh(repr - old(repr))
      ensures var st := NewStream(i, if stream then C.FLAG_STREAM else C.NO_FLAGS, true);
              abs == old(abs).(reqs := old(abs).reqs[i := st], calls := old(abs).calls + [i])
    {
      hide Shape, NewStream;
      var req := NewRequest(i, if stream then C.FLAG_STREAM else C.NO_FLAGS, true);
      StartHandler(i);
    }

    /** Records that HandleCall is started for the call. */
    method StartHandler(i: int32)
      requires Shape()
      modifies this`abs
      ensures Shape() && abs == old(abs).(calls := old(abs).calls + [i]) && owned == old(owned) && repr == old(repr)
    {
      hide Request.State, Apart;
      abs := abs.(calls := abs.calls + [i]);
    }

    /** Makes a request and files it under its id. */
    method NewRequest(id: int32, flag: C.Flag, abortable: bool) returns (req: Request)
      requires Shape() && id !in reqs && id !in retired
      modifies this
      ensures Shape() && fresh(req.Parts()) && req.id == id && repr == old(repr) + req.Parts()
      ensures abs == old(abs).(reqs := old(abs).reqs[id := NewStream(id, flag, abortable)])
      ensures terminated == old(terminated) && reqs == old(reqs)[id := req] && highest == old(highest)
    {
      hide TableOk, Request.State, Apart, NewStream, Request.Uses;
      req := new Request(id, flag, abortable, writer);
      AddRequest(req);
    }

    /** Files a new request under its id. */
    method AddRequest(req: Request)
      requires Shape() && req.Parts() !! repr + {this, reader, writer, writer.conn} && req.Uses(writer)
      requires req.id !in reqs && req.id !in retired
      modifies this
      ensures Shape() && owned == old(owned) + {req} && repr == old(repr) + req.Parts()
      ensures abs == old(abs).(reqs := old(abs).reqs[req.id := req.State()])
      ensures terminated == old(terminated) && reqs == old(reqs)[req.id := req] && highest == old(highest)
    {
      hide TableOk, Request.State, Request.Parts, Apart, Footprint, Request.Uses;
      ApartGrows(owned, req);
      TablesGain(owned, reqs, abs.reqs, retired, abs.retired, req);
      reqs := reqs[req.id := req];
      owned, repr := owned + {req}, repr + req.Parts();
      abs := abs.(reqs := abs.reqs[req.id := req.State()]);
    }

    /** One iteration of the loop. Whatever bytes the connection delivers, the object changes exactly as
        ServeOnce says, and its invariant holds again. `goes` tells whether the connection had room for
        the packet of the iteration, if there is one. */
    method ServeStep() returns (cont: bool, ghost goes: bool)
      requires Valid()
      modifies this, repr, reader, writer.conn
      ensures Valid() && fresh(repr - old(repr))
      ensures old(writer.conn.quota).None? ==> goes
      ensures var s := ServeOnce(cfg.(goes := goes), old(abs), old(reader.input));
              && abs == s.fx.ep && reader.input == s.rest && cont == s.fx.fatal.None?
              && C.Wrote(old(writer.conn.Now()), writer.conn.Now(), s.fx.out)
      ensures cont ==> |reader.input| < |old(reader.input)|
    {
      hide TableOk, C.Wrote, ReceiveEnd, ReceiveData, ReceiveCall, Inv, C.FromByte;
      C.WroteNothing(writer.conn.Now());
      goes := true;
      var r := reader.ReadHeader();
      if r.NoHeader? {
        NotServingInv(abs);
        Stop();
        return false, goes;
      }
      var hdr := r.hdr;
      var i := Neg32(hdr.req);
      var flag := C.FromByte(hdr.flag);
      ghost var body := reader.input[..Min(hdr.len, |reader.input|)];
      TableKeys(owned, reqs, abs.reqs);
      TableKeys(owned, retired, abs.retired);
      if C.Get(flag, C.FLAG_END_ERR) {
        cont, goes := ServeEnd(i, hdr.len);
      } else if i in reqsClosed {
        var skipped := reader.Drain(hdr.len);
        cont := true;
      } else if i in reqs {
        cont, goes := ServeData(i, hdr.flag, hdr.len);
      } else {
        assert i !in retired by { RetiredAreClosed(abs, i); }
        cont, goes := ServeCall(i, flag, hdr.len);
      }
      OnHeaderInv(cfg.(goes := goes), old(abs), hdr, body);
    }

    /** The whole loop: it ends, and it is that many iterations of ServeOnce; then Terminate runs. `goes`
        and `taken` tell for which iterations and for which requests the connection had room. */
    method Serve() returns (ghost goes: seq<bool>, ghost order: seq<int32>, ghost taken: set<int32>)
      requires Valid()
      modifies this, repr, reader, writer.conn
      ensures Valid() && terminated && reqs == map[]
      ensures goes != []
      ensures old(writer.conn.quota).None? ==> (forall g | g in goes :: g) && taken == Ids(order)
      ensures var (ep, rest, out) := ServeMany(cfg, old(abs), old(reader.input), goes);
              && Ids(order) == ep.reqs.Keys
              && abs == Terminated(cfg, ep, ep.reqs.Keys, taken)
              && C.Wrote(old(writer.conn.Now()), writer.conn.Now(), out + Farewells(cfg, ep, order, taken))
    {
      hide C.Wrote, ServeOnce, Farewells, Terminated, Valid;
      goes := [];
      ghost var out: seq<Packet> := [];
      ghost var line := writer.conn.Now();
      C.WroteNothing(line);
      var cont := true;
      while cont
        invariant Valid() && fresh(repr - old(repr))
        invariant ServeMany(cfg, old(abs), old(reader.input), goes) == (abs, reader.input, out)
        invariant C.Wrote(line, writer.conn.Now(), out)
        invariant line.quota.None? ==> writer.conn.quota.None? && forall g | g in goes :: g
        invariant !cont ==> goes != []
        decreases cont, |reader.input|
      {
        ghost var before := abs;
        ghost var input := reader.input;
        ghost var between := writer.conn.Now();
        ghost var g;
        cont, g := ServeStep();
        ghost var s := ServeOnce(cfg.(goes := g), before, input);
        ServeManySnoc(cfg, old(abs), old(reader.input), goes, g);
        C.WroteBoth(line, between, writer.conn.Now(), out, s.fx.out);
        C.NeverFails(between, writer.conn.Now(), s.fx.out);
        out := out + s.fx.out;
        goes := goes + [g];
      }
      ghost var ep := abs;
      ghost var between := writer.conn.Now();
      order, taken := Terminate();
      C.WroteBoth(line, between, writer.conn.Now(), out, Farewells(cfg, ep, order, taken));
    }

    // ---- Terminate ----

    /** The requests under `order` are terminated and gone, the others are as they were at the start. */
    ghost predicate Leaving(start: Endpoint, order: seq<int32>, taken: set<int32>)
      reads this, repr
    {
      && Shape() && terminated && DistinctIds(order) && taken <= Ids(order)
      && Ids(order) <= start.reqs.Keys && reqs.Keys == start.reqs.Keys - Ids(order)
      && (forall k | k in start.reqs :: start.reqs[k].id == k)
      && abs == Terminated(cfg, start, Ids(order), taken)
    }

    /** Deletes from the table while ranging over it: every key that is still there is visited once, in
        any order, so the loop ends with an empty table and every request terminated. `taken` are the ids
        whose end packet the connection had room for. */
    method Terminate() returns (ghost order: seq<int32>, ghost taken: set<int32>)
      requires Valid()
      modifies this, repr, writer.conn
      ensures Valid() && terminated && reqs == map[] && owned == old(owned) && repr == old(repr)
      ensures Ids(order) == old(abs).reqs.Keys && DistinctIds(order) && taken <= Ids(order)
      ensures old(writer.conn.quota).None? ==> taken == Ids(order)
      ensures abs == Terminated(cfg, old(abs), old(abs).reqs.Keys, taken)
      ensures C.Wrote(old(writer.conn.Now()), writer.conn.Now(), Farewells(cfg, old(abs), order, taken))
    {
      hide C.Wrote, Inv, Leaving, Farewells, Terminated, TableOk, Ids, DistinctIds, TerminateOf;
      terminated := true;
      order, taken := [], {};
      ghost var start := abs;
      ghost var line := writer.conn.Now();
      LeavingStarts();
      C.WroteNothing(line);
      FarewellsNone(cfg, start);
      var todo := reqs.Keys;
      while todo != {}
        invariant Leaving(start, order, taken) && owned == old(owned) && repr == old(repr)
        invariant todo == reqs.Keys && Ids(order) <= start.reqs.Keys
        invariant line.quota.None? ==> writer.conn.quota.None? && taken == Ids(order)
        invariant C.Wrote(line, writer.conn.Now(), Farewells(cfg, start, order, taken))
        decreases todo
      {
        var k :| k in todo;
        todo := todo - {k};
        ghost var between := writer.conn.Now();
        ghost var more := Visit(k, start, order, taken);
        C.WroteBoth(line, between, writer.conn.Now(),
                    Farewells(cfg, start, order, more), TerminateOf(cfg, start, k, more).1);
        C.NeverFails(between, writer.conn.Now(), TerminateOf(cfg, start, k, more).1);
        FarewellsSnoc(cfg, start, order, k, more);
        order, taken := order + [k], more;
      }
      LeavingEnds(start, order, taken);
    }

    /** The loop body on the entry `k`. */
    method Visit(k: int32, ghost start: Endpoint, ghost order: seq<int32>, ghost taken: set<int32>)
      returns (ghost more: set<int32>)
      requires Leaving(start, order, taken) && k in reqs
      modifies this, repr, writer.conn
      ensures Leaving(start, order + [k], more) && owned == old(owned) && repr == old(repr)
      ensures reqs.Keys == old(reqs).Keys - {k} && Ids(order + [k]) == Ids(order) + {k}
      ensures old(writer.conn.quota).None? ==> more == taken + {k}
      ensures k in start.reqs && Ids(order + [k]) <= start.reqs.Keys && Ids(order) <= start.reqs.Keys
      ensures C.Wrote(old(writer.conn.Now()), writer.conn.Now(), TerminateOf(cfg, start, k, more).1)
      ensures Farewells(cfg, start, order, more) == Farewells(cfg, start, order, taken)
    {
      hide TableOk, C.Wrote, TerminateParts, Terminated, Request.State, Farewells;
      TableOwns(owned, reqs, abs.reqs, k);
      StateId(reqs[k]);
      TerminatedEntry(cfg, start, Ids(order), k, taken);
      ghost var goes := TerminateOne(reqs[k]);
      more := if goes then taken + {k} else taken;
      assert goes == (k in more);
      TakenElsewhere(cfg, start, order, taken, more);
      TerminatedStep(cfg, start, Ids(order), k, more);
      IdsSnoc(order, k);
      DistinctSnoc(order, k);
    }

    lemma LeavingStarts()
      requires Valid() && terminated
      ensures Leaving(abs, [], {}) && Ids([]) <= abs.reqs.Keys && Ids([]) == {}
    {
      hide TableOk, StreamInv, TerminateOf;
      TableKeys(owned, reqs, abs.reqs);
      TerminatedNone(cfg, abs, {});
    }

    lemma LeavingEnds(start: Endpoint, order: seq<int32>, taken: set<int32>)
      requires Leaving(start, order, taken) && reqs.Keys == {} && Inv(start)
      ensures Valid() && terminated && reqs == map[] && Ids(order) == start.reqs.Keys && DistinctIds(order)
      ensures abs == Terminated(cfg, start, start.reqs.Keys, taken) && taken <= Ids(order)
    {
      hide TableOk, StreamInv, Terminated, Inv;
      assert Ids(order) == start.reqs.Keys;
      TerminateInv(cfg, start, taken);
    }

    method TerminateOne(req: Request) returns (ghost goes: bool)
      requires Shape() && req.id in reqs && reqs[req.id] == req
      modifies this, req.Parts(), writer.conn
      ensures Shape() && terminated == old(terminated)
      ensures owned == old(owned) && repr == old(repr)
      ensures reqs == old(reqs) - {req.id}
      ensures old(writer.conn.quota).None? ==> goes
      ensures var (st, out) := TerminateParts(cfg.(goes := goes), old(req.State()));
              abs == Retire(old(abs), st) && C.Wrote(old(writer.conn.Now()), writer.conn.Now(), out)
    {
      hide TerminateParts, C.Wrote, Request.State, Retire, TableOk, Apart, Footprint, TableWas, States;
      TableOwns(owned, reqs, abs.reqs, req.id);
      Separate(owned, req);
      ghost var before := Snapshot();
      goes := req.TerminatePartsOf(cfg);
      TerminatePartsId(cfg.(goes := goes), old(req.State()));
      forall r | r in owned && r != req
        ensures r.State() == old(r.State())
      {
        assert r.Parts() !! req.Parts() && writer.conn !in r.Parts();
      }
      OnlyThis(owned, before, req, reqs, abs.reqs, retired, abs.retired);
      MoveToClosed(req);
    }

    // ---- calls ----

    /** start, under the lock: the call gets the next id and is filed under it. */
    method StartCall(call: K.Call, re: K.Encoding, abortable: bool) returns (req: Request)
      requires Valid() && highest < MAX_INT32 && ClientType(call.typ)
      modifies this
      ensures Valid() && fresh(req) && req.id == old(highest) + 1 && req.id in reqs && reqs[req.id] == req
      ensures abs == ActStep(cfg, old(abs), Allocate(call, re, abortable)).0
    {
      hide Shape, Inv, NewStream, ClientFlag, ClientType, ActStep;
      ShapeFacts();
      AllocateRoom(abs, abs.highest + 1);
      Allocated(cfg, abs, call, re, abortable);
      NextId();
      req := NewRequest(highest, ClientFlag(call.typ, re), abortable);
      AwaitOpening(highest, call);
    }

    method NextId()
      requires Shape() && highest < MAX_INT32
      modifies this`highest, this`abs
      ensures Shape() && highest == old(highest) + 1 && abs == old(abs).(highest := highest)
    {
      hide Request.State, Apart;
      highest := highest + 1;
      abs := abs.(highest := highest);
    }

    /** The call has its id, but its opening packet is not written yet. */
    method AwaitOpening(k: int32, call: K.Call)
      requires Shape()
      modifies this`abs
      ensures Shape() && abs == old(abs).(pending := old(abs).pending[k := call])
    {
      hide Request.State, Apart;
      abs := abs.(pending := abs.pending[k := call]);
    }

    /** start, after the lock: the opening packet is written. */
    method OpenCall(k: int32, call: K.Call) returns (err: Option<Error>, ghost goes: bool)
      requires Valid() && k in abs.pending && abs.pending[k] == call
      modifies this, writer.conn
      ensures Valid()
      ensures old(writer.conn.quota).None? ==> goes
      ensures var (ep, out) := ActStep(cfg.(goes := goes), old(abs), Session.Open(k));
              && abs == ep && C.Wrote(old(writer.conn.Now()), writer.conn.Now(), out)
              && (err.None? <==> out != [])
    {
      hide TableOk, Inv, C.Wrote, C.Print, Opening;
      var first := Opening(cfg.json, k, call);
      goes := writer.conn.Takes(C.HEADER_SIZE + |first.body|);
      ActInv(cfg.(goes := goes), abs, Session.Open(k));
      err := writer.WritePacket(first);
      if err.Some? {
        return;
      }
      abs := abs.(pending := abs.pending - {k});
    }
  }

  lemma FarewellsNone(cfg: Config, ep: Endpoint)
    requires Ids([]) <= ep.reqs.Keys
    ensures Farewells(cfg, ep, [], {}) == []
  {
  }

  lemma TableKeys(owned: set<Request>, table: map<int32, Request>, values: map<int32, Stream>)
    requires TableOk(owned, table, values)
    ensures table.Keys == values.Keys
  {
  }

  lemma CloseNotFatal(cfg: Config, ep: Endpoint, st: Stream, err: Option<Error>, drained: bool)
    ensures var fx := CloseStream(cfg, ep, st, err, drained);
            && fx.fatal.None? && fx.drained == drained
            && fx == CloseStream(cfg, ep.(reqs := ep.reqs[st.id := st]), st, err, drained)
            && (forall d :: CloseStream(cfg, ep, st, err, d) == fx.(drained := d))
  {
    hide K.Close;
    assert ep.reqs[st.id := st] - {st.id} == ep.reqs - {st.id};
  }

  lemma TableOwns(owned: set<Request>, table: map<int32, Request>, values: map<int32, Stream>, k: int32)
    requires TableOk(owned, table, values) && k in table
    ensures table[k] in owned && table[k].id == k && k in values && values[k] == table[k].State()
  {
  }
}
