/** A JSON-like encoding that is faithful: what Sink.Faithful asks for can be had. */
module JsonExample {
  import opened Base
  import C = Codec
  import K = Sink
  import opened Session
  import N = Network
  import W = Wires

  /** Every item carries a mark in front, the end another one, so no code is the beginning of another. */
  function EncString(s: string): Bytes {
    if s == [] then [0] else [1] + LE32(Wrap32(s[0] as int)) + EncString(s[1..])
  }

  function EncPath(path: seq<string>): Bytes {
    if path == [] then [0] else [1] + EncString(path[0]) + EncPath(path[1..])
  }

  function EncCall(c: K.Call): Bytes { EncPath(c.path) + EncString(c.typ) + c.args }

  lemma SplitEqual(c: Bytes, d: Bytes, u: Bytes, v: Bytes)
    requires |c| == |d| && c + u == d + v
    ensures c == d && u == v
  {
    assert c == (c + u)[..|c|] && d == (d + v)[..|d|];
    assert u == (c + u)[|c|..] && v == (d + v)[|d|..];
  }

  /** The mark and the number of the first character, or the mark of the end. */
  function Head(s: string): (h: Bytes)
    ensures h != [] && h[0] == if s == [] then 0 else 1
    ensures |h| == if s == [] then 1 else 5
  {
    if s == [] then [0] else [1] + LE32(Wrap32(s[0] as int))
  }

  lemma HeadInjective(a: string, b: string, x: Bytes, y: Bytes)
    requires Head(a) + x == Head(b) + y
    ensures x == y && (a == [] <==> b == []) && (a != [] ==> a[0] == b[0])
  {
    hide Head;
    assert (Head(a) + x)[0] == Head(a)[0] && (Head(b) + y)[0] == Head(b)[0];
    SplitEqual(Head(a), Head(b), x, y);
    if a != [] {
      FirstChar(a, b);
    }
  }

  lemma FirstChar(a: string, b: string)
    requires a != [] && b != [] && Head(a) == Head(b)
    ensures a[0] == b[0]
  {
    hide LE32, FromLE32;
    assert Head(a)[1..] == LE32(Wrap32(a[0] as int)) && Head(b)[1..] == LE32(Wrap32(b[0] as int));
    LE32RoundTrip(Wrap32(a[0] as int));
    LE32RoundTrip(Wrap32(b[0] as int));
  }

  lemma {:induction false} StringPrefixFree(a: string, b: string, x: Bytes, y: Bytes)
    requires EncString(a) + x == EncString(b) + y
    ensures a == b && x == y
    decreases |a|
  {
    hide LE32, Head;
    var u := if a == [] then x else EncString(a[1..]) + x;
    var v := if b == [] then y else EncString(b[1..]) + y;
    assert EncString(a) + x == Head(a) + u by { HeadFirst(a, x); }
    assert EncString(b) + y == Head(b) + v by { HeadFirst(b, y); }
    HeadInjective(a, b, u, v);
    if a != [] {
      StringPrefixFree(a[1..], b[1..], x, y);
      assert a == [a[0]] + a[1..] && b == [b[0]] + b[1..];
    }
  }

  lemma HeadFirst(s: string, x: Bytes)
    ensures EncString(s) + x == Head(s) + if s == [] then x else EncString(s[1..]) + x
  {
    hide LE32;
  }

  lemma {:induction false} PathPrefixFree(a: seq<string>, b: seq<string>, x: Bytes, y: Bytes)
    requires EncPath(a) + x == EncPath(b) + y
    ensures a == b && x == y
    decreases |a|
  {
    hide EncString;
    assert (EncPath(a) + x)[0] == EncPath(a)[0] && (EncPath(b) + y)[0] == EncPath(b)[0];
    if a == [] {
      assert (EncPath(a) + x)[1..] == x && (EncPath(b) + y)[1..] == y;
    } else {
      assert (EncPath(a) + x)[1..] == EncString(a[0]) + (EncPath(a[1..]) + x);
      assert (EncPath(b) + y)[1..] == EncString(b[0]) + (EncPath(b[1..]) + y);
      StringPrefixFree(a[0], b[0], EncPath(a[1..]) + x, EncPath(b[1..]) + y);
      PathPrefixFree(a[1..], b[1..], x, y);
      assert a == [a[0]] + a[1..] && b == [b[0]] + b[1..];
    }
  }

  lemma CallInjective(c: K.Call, d: K.Call)
    requires EncCall(c) == EncCall(d)
    ensures c == d
  {
    hide EncString, EncPath;
    assert EncCall(c) == EncPath(c.path) + (EncString(c.typ) + c.args);
    assert EncCall(d) == EncPath(d.path) + (EncString(d.typ) + d.args);
    PathPrefixFree(c.path, d.path, EncString(c.typ) + c.args, EncString(d.typ) + d.args);
    StringPrefixFree(c.typ, d.typ, c.args, d.args);
  }

  lemma ErrorInjective(m: string, n: string)
    requires EncString(m) == EncString(n)
    ensures m == n
  {
    hide EncString;
    assert EncString(m) + [] == EncString(n) + [];
    StringPrefixFree(m, n, [], []);
  }

  ghost function DecCall(b: Bytes): Option<K.Call> {
    if c: K.Call :| EncCall(c) == b then Some(c) else None
  }

  ghost function DecError(b: Bytes): Option<(string, string)> {
    if m: string :| EncString(m) == b then Some(("Error", m)) else None
  }

  lemma NotTrue(m: string)
    ensures EncString(m) != K.TRUE
  {
    assert EncString(m)[0] <= 1;
  }

  ghost function Example(): K.Json {
    K.Json(EncCall, b => DecCall(b), EncString, b => DecError(b))
  }

  lemma DecodesCall(c: K.Call)
    ensures DecCall(EncCall(c)) == Some(c)
  {
    hide EncCall;
    var b := EncCall(c);
    assert exists d: K.Call :: EncCall(d) == b;
    var d := DecCall(b).value;
    assert EncCall(d) == b;
    CallInjective(c, d);
  }

  lemma DecodesError(m: string)
    ensures DecError(EncString(m)) == Some(("Error", m)) && EncString(m) != K.TRUE
  {
    hide EncString;
    var b := EncString(m);
    assert exists n: string :: EncString(n) == b;
    var n := DecError(b).value.1;
    assert EncString(n) == b;
    ErrorInjective(m, n);
    NotTrue(m);
  }

  lemma ExampleIsFaithful()
    ensures K.Faithful(Example())
  {
    hide EncCall, EncString, DecCall, DecError;
    forall c: K.Call
      ensures DecCall(EncCall(c)) == Some(c)
    {
      DecodesCall(c);
    }
    forall m: string
      ensures DecError(EncString(m)) == Some(("Error", m)) && EncString(m) != K.TRUE
    {
      DecodesError(m);
    }
  }

  // ---- a call that fits and a rejection that does not ----

  lemma {:induction false} StringLength(s: string)
    ensures |EncString(s)| == 5 * |s| + 1
  {
    hide LE32;
    if s != [] {
      StringLength(s[1..]);
    }
  }

  lemma CallLength(name: string)
    ensures |EncCall(K.Call([name], [], "async"))| == 5 * |name| + 29
  {
    hide EncString;
    StringLength(name);
    StringLength("async");
    assert EncPath([name]) == [1] + EncString(name) + EncPath([]);
  }

  /** With this encoding the opening packet of a call has 97 bytes less than its rejection. Some names lie
      between: the call fits into a packet and the rejection does not. */
  lemma BadCallExists() returns (su: N.Setup, call: K.Call)
    ensures K.Faithful(su.json) && ClientType(call.typ) && !su.handlesB(call.path)
    ensures C.Fits(Opening(su.json, 1, call)) && !K.Answerable(su.json, call.path)
    ensures !N.NetRun(su, N.START_NET, W.BadCall(call)).b.serving
    ensures !W.ByteRun(su, W.START_BYTES, W.BadCall(call)).b.serving
  {
    hide EncString, EncCall, N.NetRun, W.ByteRun, W.BadCall, K.Faithful, C.ToByte;
    ExampleIsFaithful();
    su := N.Setup(Example(), path => false, path => false);
    var name: string := seq(858_993_453, i => 'a');
    call := K.Call([name], [], "async");
    CallLength(name);
    StringLength("muxrpc: no such command: " + name);
    assert Join([name]) == name;
    W.BadCallStops(su, call);
  }
}
