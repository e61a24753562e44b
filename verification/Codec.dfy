/** The packet-stream codec: a 9-byte big-endian header, a body, and an all-zero goodbye header. */
module Codec {
  import opened Base

  // ---- flags and packets (codec/packet.go) ----

  /** The bits of the flag byte, lowest first. Bits 4 to 7 have no meaning but travel along. */
  datatype Flag = Flag(text: bool, json: bool, endErr: bool, stream: bool, b4: bool, b5: bool, b6: bool, b7: bool)

  const NO_FLAGS: Flag := Flag(false, false, false, false, false, false, false, false)
  const FLAG_STRING: Flag := NO_FLAGS.(text := true)
  const FLAG_JSON: Flag := NO_FLAGS.(json := true)
  const FLAG_END_ERR: Flag := NO_FLAGS.(endErr := true)
  const FLAG_STREAM: Flag := NO_FLAGS.(stream := true)

  /** f | g */
  function Set(f: Flag, g: Flag): Flag {
    Flag(f.text || g.text, f.json || g.json, f.endErr || g.endErr, f.stream || g.stream,
         f.b4 || g.b4, f.b5 || g.b5, f.b6 || g.b6, f.b7 || g.b7)
  }

  /** f &^ g */
  function Clear(f: Flag, g: Flag): Flag {
    Flag(f.text && !g.text, f.json && !g.json, f.endErr && !g.endErr, f.stream && !g.stream,
         f.b4 && !g.b4, f.b5 && !g.b5, f.b6 && !g.b6, f.b7 && !g.b7)
  }

  /** f & g == g */
  predicate Get(f: Flag, g: Flag) { Set(f, g) == f }

  function Bit(b: bool): nat { if b then 1 else 0 }

  /** Four bits, lowest first, as a number; and back. */
  function Nibble(a: bool, b: bool, c: bool, d: bool): (r: nat)
    ensures r < 16
  {
    Bit(a) + 2 * Bit(b) + 4 * Bit(c) + 8 * Bit(d)
  }

  function NibbleBits(x: nat): (bool, bool, bool, bool) {
    (x % 2 == 1, x / 2 % 2 == 1, x / 4 % 2 == 1, x / 8 == 1)
  }

  lemma NibbleRoundTrip(a: bool, b: bool, c: bool, d: bool)
    ensures NibbleBits(Nibble(a, b, c, d)) == (a, b, c, d)
  {
  }

  /** The byte of a flag word, and the flag word of a byte. */
  function ToByte(f: Flag): byte {
    Nibble(f.text, f.json, f.endErr, f.stream) + 16 * Nibble(f.b4, f.b5, f.b6, f.b7)
  }

  function FromByte(x: byte): Flag {
    var low := NibbleBits(x % 16);
    var high := NibbleBits(x / 16);
    Flag(low.0, low.1, low.2, low.3, high.0, high.1, high.2, high.3)
  }

  lemma FlagRoundTrip(f: Flag)
    ensures FromByte(ToByte(f)) == f
  {
    hide Nibble, NibbleBits;
    NibbleRoundTrip(f.text, f.json, f.endErr, f.stream);
    NibbleRoundTrip(f.b4, f.b5, f.b6, f.b7);
  }

  /** What the bits of the flag byte mean: string 1, JSON 2, end or error 4, stream 8. */
  lemma FlagBits(f: Flag)
    ensures var x := ToByte(f);
            && (f.text <==> x % 2 == 1) && (f.json <==> x / 2 % 2 == 1)
            && (f.endErr <==> x / 4 % 2 == 1) && (f.stream <==> x / 8 % 2 == 1)
            && (f.b4 <==> x / 16 % 2 == 1) && (f.b5 <==> x / 32 % 2 == 1)
            && (f.b6 <==> x / 64 % 2 == 1) && (f.b7 <==> x / 128 % 2 == 1)
    ensures ToByte(FLAG_STRING) == 1 && ToByte(FLAG_JSON) == 2 && ToByte(FLAG_END_ERR) == 4 && ToByte(FLAG_STREAM) == 8
  {
    var low, high := Nibble(f.text, f.json, f.endErr, f.stream), Nibble(f.b4, f.b5, f.b6, f.b7);
    NibbleBitwise(f.text, f.json, f.endErr, f.stream);
    NibbleBitwise(f.b4, f.b5, f.b6, f.b7);
    NibblePair(low, high);
  }

  /** The same from the byte. */
  lemma ByteBits(x: byte)
    ensures var f := FromByte(x);
            && (f.text <==> x % 2 == 1) && (f.json <==> x / 2 % 2 == 1)
            && (f.endErr <==> x / 4 % 2 == 1) && (f.stream <==> x / 8 % 2 == 1)
  {
    hide FromByte;
    var low: nat, high: nat := x % 16, x / 16;
    assert x == low + 16 * high;
    LowNibble(x, low);
    NibblePair(low, high);
  }

  lemma LowNibble(x: byte, low: nat)
    requires low == x % 16
    ensures var f := FromByte(x);
            && (f.text <==> low % 2 == 1) && (f.json <==> low / 2 % 2 == 1)
            && (f.endErr <==> low / 4 % 2 == 1) && (f.stream <==> low / 8 % 2 == 1)
  {
    assert low / 8 < 2;
  }

  lemma NibbleBitwise(a: bool, b: bool, c: bool, d: bool)
    ensures var x := Nibble(a, b, c, d);
            && (a <==> x % 2 == 1) && (b <==> x / 2 % 2 == 1) && (c <==> x / 4 % 2 == 1) && (d <==> x / 8 % 2 == 1)
  {
  }

  lemma NibblePair(low: nat, high: nat)
    requires low < 16 && high < 16
    ensures var x := low + 16 * high;
            && x % 2 == low % 2 && x / 2 % 2 == low / 2 % 2 && x / 4 % 2 == low / 4 % 2 && x / 8 % 2 == low / 8 % 2
            && x / 16 == high && x / 32 % 2 == high / 2 % 2 && x / 64 % 2 == high / 4 % 2 && x / 128 % 2 == high / 8 % 2
  {
    var x := low + 16 * high;
    assert x / 2 == low / 2 + 8 * high;
    assert x / 4 == low / 4 + 4 * high;
    assert x / 8 == low / 8 + 2 * high;
    Even(low / 2, 4 * high);
    Even(low / 4, 2 * high);
    Even(low / 8, high);
    assert x / 32 == high / 2;
    assert x / 64 == high / 4;
    assert x / 128 == high / 8;
  }

  lemma Even(a: nat, k: nat)
    ensures (a + 2 * k) % 2 == a % 2
  {
  }

  datatype Packet = Packet(flag: byte, req: int32, body: Bytes)
  datatype Header = Header(flag: byte, len: uint32, req: int32)

  const HEADER_SIZE: nat := 9
  const MAX_BUFFER_SIZE: nat := 0xFFFF_FFFF

  /** The only size check the writer makes. */
  predicate Fits(p: Packet) { |p.body| <= MAX_BUFFER_SIZE }

  /** A packet whose bytes read as the end of the stream. */
  predicate Goodbye(p: Packet) { p.flag == 0 && p.req == 0 && p.body == [] }

  predicate Sendable(p: Packet) { Fits(p) && !Goodbye(p) }

  predicate AllFit(ps: seq<Packet>) { forall p | p in ps :: Fits(p) }
  predicate AllSendable(ps: seq<Packet>) { forall p | p in ps :: Sendable(p) }

  // ---- the wire format ----

  function UnsignedReq(r: int32): uint32 { if r < 0 then r + 0x1_0000_0000 else r }
  function SignedReq(u: uint32): int32 { if u < 0x8000_0000 then u else u - 0x1_0000_0000 }

  function PrintHeader(h: Header): (s: Bytes)
    ensures |s| == HEADER_SIZE
  {
    [h.flag] + BE32(h.len) + BE32(UnsignedReq(h.req))
  }

  function ScanHeader(s: Bytes): Header
    requires |s| == HEADER_SIZE
  {
    Header(s[0], FromBE32(s[1..5]), SignedReq(FromBE32(s[5..])))
  }

  predicate ZeroHeader(h: Header) { h.flag == 0 && h.len == 0 && h.req == 0 }

  const GOODBYE: Bytes := [0, 0, 0, 0, 0, 0, 0, 0, 0]

  function HeaderOf(p: Packet): Header { Header(p.flag, Wrap32(|p.body|), p.req) }

  function Print(p: Packet): Bytes { PrintHeader(HeaderOf(p)) + p.body }

  function PrintAll(ps: seq<Packet>): Bytes {
    if ps == [] then [] else Print(ps[0]) + PrintAll(ps[1..])
  }

  /** The nine bytes: the flags, then the length and the id, most significant byte first; a negative id in
      two's complement. */
  lemma HeaderLayout(h: Header)
    ensures var s := PrintHeader(h);
            && s[0] == h.flag
            && 0x100_0000 * s[1] as int + 0x1_0000 * s[2] as int + 0x100 * s[3] as int + s[4] == h.len
            && 0x100_0000 * s[5] as int + 0x1_0000 * s[6] as int + 0x100 * s[7] as int + s[8]
               == (if h.req < 0 then h.req + 0x1_0000_0000 else h.req)
  {
    hide BE32;
    var s := PrintHeader(h);
    assert s[1..5] == BE32(h.len) && s[5..] == BE32(UnsignedReq(h.req));
    BigEndian(h.len);
    BigEndian(UnsignedReq(h.req));
  }

  lemma BigEndian(x: uint32)
    ensures var s := BE32(x);
            0x100_0000 * s[0] as int + 0x1_0000 * s[1] as int + 0x100 * s[2] as int + s[3] == x
  {
    Digits(x);
  }

  /** A header of a stream in JSON with 258 bytes for the call -2. */
  lemma SampleHeader()
    ensures PrintHeader(Header(10, 258, -2)) == [10, 0, 0, 1, 2, 255, 255, 255, 254]
  {
  }

  lemma HeaderRoundTrip(h: Header)
    ensures ScanHeader(PrintHeader(h)) == h
  {
    var s := PrintHeader(h);
    assert s[1..5] == BE32(h.len);
    assert s[5..] == BE32(UnsignedReq(h.req));
    BE32RoundTrip(h.len);
    BE32RoundTrip(UnsignedReq(h.req));
  }

  lemma HeaderPrint(s: Bytes)
    requires |s| == HEADER_SIZE
    ensures PrintHeader(ScanHeader(s)) == s
  {
    BE32Print(s[1..5]);
    BE32Print(s[5..]);
    var h := ScanHeader(s);
    assert UnsignedReq(h.req) == FromBE32(s[5..]);
    assert s == [s[0]] + s[1..5] + s[5..];
  }

  lemma {:induction false} PrintAllAppend(ps: seq<Packet>, qs: seq<Packet>)
    ensures PrintAll(ps + qs) == PrintAll(ps) + PrintAll(qs)
  {
    if ps == [] {
      assert ps + qs == qs;
    } else {
      assert (ps + qs)[1..] == ps[1..] + qs;
      PrintAllAppend(ps[1..], qs);
    }
  }

  // ---- reading (codec/reader.go, codec/utils.go) ----

  datatype HeaderResult = GotHeader(hdr: Header) | NoHeader(err: Error)

  /** What ReadHeader returns on a stream holding `s` before it ends. */
  function HeaderAt(s: Bytes): HeaderResult {
    if s == [] then NoHeader(EOF)
    else if |s| < HEADER_SIZE then NoHeader(UnexpectedEOF)
    else if ZeroHeader(ScanHeader(s[..HEADER_SIZE])) then NoHeader(EOF)
    else GotHeader(ScanHeader(s[..HEADER_SIZE]))
  }

  datatype Parsed = Packets(pkts: seq<Packet>) | Broken {
    function Cons(p: Packet): Parsed {
      match this
      case Packets(ps) => Packets([p] + ps)
      case Broken => Broken
    }
  }

  /** What ReadAllPackets returns on a stream holding `s`. */
  function ParseAll(s: Bytes): Parsed {
    match HeaderAt(s)
    case NoHeader(e) => if e == EOF then Packets([]) else Broken
    case GotHeader(h) =>
      var rest := s[HEADER_SIZE..];
      if |rest| >= h.len then ParseAll(rest[h.len..]).Cons(Packet(h.flag, h.req, rest[..h.len]))
      else if rest == [] then Packets([])
      else Broken
  }

  /** Where the parser stops without an error: at the end of the bytes, at a goodbye header, or at a
      header whose non-empty body is missing altogether. */
  predicate Stop(t: Bytes) {
    || t == []
    || (|t| >= HEADER_SIZE && ZeroHeader(ScanHeader(t[..HEADER_SIZE])))
    || (|t| == HEADER_SIZE && ScanHeader(t).len > 0)
  }

  lemma PrintedHeader(p: Packet, t: Bytes)
    requires Sendable(p)
    ensures |Print(p)| == HEADER_SIZE + |p.body|
    ensures HeaderAt(Print(p) + t) == GotHeader(HeaderOf(p))
    ensures (Print(p) + t)[HEADER_SIZE..] == p.body + t
  {
    hide PrintHeader, ScanHeader;
    var s := Print(p) + t;
    assert s[..HEADER_SIZE] == PrintHeader(HeaderOf(p));
    HeaderRoundTrip(HeaderOf(p));
  }

  lemma ParsePrinted(p: Packet, t: Bytes)
    requires Sendable(p)
    ensures ParseAll(Print(p) + t) == ParseAll(t).Cons(p)
  {
    hide PrintHeader, ScanHeader, HeaderAt, Print;
    PrintedHeader(p, t);
    var rest := p.body + t;
    assert rest[|p.body|..] == t && rest[..|p.body|] == p.body;
  }

  lemma ParseStopped(t: Bytes)
    requires Stop(t)
    ensures ParseAll(t) == Packets([])
  {
    if |t| == HEADER_SIZE {
      assert t[..HEADER_SIZE] == t;
    }
  }

  /** Reading a printed list of packets gives those packets, then whatever the remaining bytes give. */
  lemma {:induction false} ParsePrintedAll(ps: seq<Packet>, t: Bytes)
    requires AllSendable(ps)
    ensures ParseAll(PrintAll(ps) + t) ==
            match ParseAll(t) { case Packets(qs) => Packets(ps + qs) case Broken => Broken }
  {
    hide Print, ParseAll;
    if ps == [] {
      assert PrintAll(ps) + t == t;
      match ParseAll(t) {
        case Packets(qs) => assert ps + qs == qs;
        case Broken =>
      }
    } else {
      var tail := PrintAll(ps[1..]) + t;
      assert PrintAll(ps) + t == Print(ps[0]) + tail;
      ParsePrinted(ps[0], tail);
      ParsePrintedAll(ps[1..], t);
      match ParseAll(t) {
        case Packets(qs) => assert [ps[0]] + (ps[1..] + qs) == ps + qs;
        case Broken =>
      }
    }
  }

  lemma HeaderBytes(s: Bytes)
    requires HeaderAt(s).GotHeader?
    ensures |s| >= HEADER_SIZE && s == PrintHeader(HeaderAt(s).hdr) + s[HEADER_SIZE..]
    ensures !ZeroHeader(HeaderAt(s).hdr)
  {
    hide PrintHeader, ScanHeader;
    HeaderPrint(s[..HEADER_SIZE]);
  }

  /** A header followed by a complete body is a printed packet. */
  lemma PacketBytes(s: Bytes) returns (p: Packet)
    requires HeaderAt(s).GotHeader? && |s| >= HEADER_SIZE + HeaderAt(s).hdr.len
    ensures var h := HeaderAt(s).hdr;
            && Sendable(p) && HeaderOf(p) == h
            && p == Packet(h.flag, h.req, s[HEADER_SIZE..][..h.len])
            && s == Print(p) + s[HEADER_SIZE..][h.len..]
  {
    hide PrintHeader, ScanHeader, HeaderAt;
    var h := HeaderAt(s).hdr;
    HeaderBytes(s);
    var rest := s[HEADER_SIZE..];
    p := Packet(h.flag, h.req, rest[..h.len]);
    assert HeaderOf(p) == h;
    assert rest == rest[..h.len] + rest[h.len..];
  }

  /** Print after parse: what ReadAllPackets returns re-encodes to exactly the bytes it consumed. */
  lemma {:induction false} ParseConsumes(s: Bytes)
    requires ParseAll(s).Packets?
    ensures var ps := ParseAll(s).pkts;
            AllSendable(ps) && PrintAll(ps) <= s && Stop(s[|PrintAll(ps)|..])
    decreases |s|
  {
    hide PrintHeader, ScanHeader;
    match HeaderAt(s) {
      case NoHeader(e) => assert s[0..] == s;
      case GotHeader(h) =>
        var rest := s[HEADER_SIZE..];
        if |rest| >= h.len {
          var p := PacketBytes(s);
          ParseConsumes(rest[h.len..]);
          ConsumeOne(s, p, rest[h.len..], ParseAll(rest[h.len..]).pkts);
        } else {
          assert s[..HEADER_SIZE] == s && s[0..] == s;
        }
    }
  }

  lemma ConsumeOne(s: Bytes, p: Packet, tail: Bytes, qs: seq<Packet>)
    requires s == Print(p) + tail && PrintAll(qs) <= tail
    ensures PrintAll([p] + qs) <= s
    ensures s[|PrintAll([p] + qs)|..] == tail[|PrintAll(qs)|..]
  {
    hide Print;
    assert ([p] + qs)[1..] == qs;
  }

  lemma ParseToStop(ps: seq<Packet>, t: Bytes)
    requires AllSendable(ps) && Stop(t)
    ensures ParseAll(PrintAll(ps) + t) == Packets(ps)
  {
    ParsePrintedAll(ps, t);
    ParseStopped(t);
    assert ps + [] == ps;
  }

  /** ReadAllPackets succeeds with `ps` exactly on the bytes of `ps` followed by a stop: nothing else
      parses to `ps`, and every such input does. */
  lemma ParseExactly(s: Bytes, ps: seq<Packet>)
    ensures ParseAll(s) == Packets(ps) <==>
            AllSendable(ps) && PrintAll(ps) <= s && Stop(s[|PrintAll(ps)|..])
  {
    hide ParseAll, PrintAll, Stop;
    if ParseAll(s) == Packets(ps) {
      ParseConsumes(s);
    }
    if AllSendable(ps) && PrintAll(ps) <= s && Stop(s[|PrintAll(ps)|..]) {
      var t := s[|PrintAll(ps)|..];
      assert s == PrintAll(ps) + t;
      ParseToStop(ps, t);
    }
  }

  function UpToGoodbye(ps: seq<Packet>): (qs: seq<Packet>)
    ensures qs <= ps && forall q | q in qs :: !Goodbye(q)
    ensures |qs| < |ps| ==> Goodbye(ps[|qs|])
  {
    if ps == [] || Goodbye(ps[0]) then [] else [ps[0]] + UpToGoodbye(ps[1..])
  }

  lemma PrintSplit(ps: seq<Packet>, n: nat)
    requires n <= |ps|
    ensures PrintAll(ps) == PrintAll(ps[..n]) + PrintAll(ps[n..])
  {
    assert ps == ps[..n] + ps[n..];
    PrintAllAppend(ps[..n], ps[n..]);
  }

  lemma GoodbyeStops(t: Bytes)
    ensures Stop(GOODBYE + t)
  {
    assert (GOODBYE + t)[..HEADER_SIZE] == GOODBYE;
    assert GOODBYE == PrintHeader(Header(0, 0, 0));
    HeaderRoundTrip(Header(0, 0, 0));
  }

  lemma GoodbyeBytes(p: Packet)
    requires Goodbye(p)
    ensures Print(p) == GOODBYE
  {
    assert BE32(0) == [0, 0, 0, 0];
    assert Print(p) == [0] + [0, 0, 0, 0] + [0, 0, 0, 0];
  }

  /** What Close and later bytes add to the packets that a reader does not get to see. */
  lemma RestStops(rest: seq<Packet>, junk: Bytes)
    requires rest == [] || Goodbye(rest[0])
    ensures Stop(PrintAll(rest) + GOODBYE + junk)
  {
    hide Print, Stop;
    if rest == [] {
      GoodbyeStops(junk);
      assert PrintAll(rest) + GOODBYE + junk == GOODBYE + junk;
    } else {
      GoodbyeBytes(rest[0]);
      var more := PrintAll(rest[1..]) + GOODBYE + junk;
      GoodbyeStops(more);
      assert PrintAll(rest) + GOODBYE + junk == GOODBYE + more;
    }
  }

  /** Parse after print: everything written before Close comes back, up to the first packet that is
      itself the goodbye header. */
  lemma ParseAfterPrint(ps: seq<Packet>, junk: Bytes)
    requires AllFit(ps)
    ensures ParseAll(PrintAll(ps) + GOODBYE + junk) == Packets(UpToGoodbye(ps))
  {
    hide Print, Stop, ParseAll, PrintAll;
    var qs := UpToGoodbye(ps);
    var rest := ps[|qs|..];
    PrintSplit(ps, |qs|);
    var t := PrintAll(rest) + GOODBYE + junk;
    assert qs == ps[..|qs|];
    assert PrintAll(ps) + GOODBYE + junk == PrintAll(qs) + t;
    RestStops(rest, junk);
    ParseToStop(qs, t);
  }

  lemma CutPacket(p: Packet, off: nat)
    requires Sendable(p) && off < |Print(p)|
    ensures ParseAll(Print(p)[..off]) == if off == 0 || off == HEADER_SIZE then Packets([]) else Broken
  {
    hide PrintHeader, ScanHeader;
    var t := Print(p)[..off];
    if off >= HEADER_SIZE {
      PrintedHeader(p, []);
      assert Print(p) + [] == Print(p);
      assert t[..HEADER_SIZE] == Print(p)[..HEADER_SIZE];
      assert HeaderAt(t) == GotHeader(HeaderOf(p));
    }
  }

  /** A stream cut `off` bytes into packet `j`: a clean result exactly on the packet boundary and
      exactly after the header, an error everywhere else. */
  lemma CutStream(ps: seq<Packet>, j: nat, off: nat)
    requires AllSendable(ps)
    requires j < |ps| && off < |Print(ps[j])|
    ensures |PrintAll(ps[..j])| + off < |PrintAll(ps)|
    ensures ParseAll(PrintAll(ps)[..|PrintAll(ps[..j])| + off]) ==
            if off == 0 || off == HEADER_SIZE then Packets(ps[..j]) else Broken
  {
    hide Print, ParseAll, HeaderAt;
    PrintSplit(ps, j);
    var before := PrintAll(ps[..j]);
    assert ps[j..][0] == ps[j];
    var t := Print(ps[j])[..off];
    assert PrintAll(ps)[..|before| + off] == before + t by {
      assert PrintAll(ps) == before + (Print(ps[j]) + PrintAll(ps[j..][1..]));
    }
    CutPacket(ps[j], off);
    ParsePrintedAll(ps[..j], t);
    assert ps[..j] + [] == ps[..j];
  }

  /** Every cut point of an encoded list falls into exactly one packet, or at the end. */
  lemma {:induction false} LocateCut(ps: seq<Packet>, k: nat) returns (j: nat, off: nat)
    requires k < |PrintAll(ps)|
    ensures j < |ps| && off < |Print(ps[j])| && k == |PrintAll(ps[..j])| + off
    decreases ps
  {
    var first := |Print(ps[0])|;
    if k < first {
      j, off := 0, k;
    } else {
      j, off := LocateCut(ps[1..], k - first);
      j := j + 1;
      assert ps[..j][1..] == ps[1..][..j - 1];
    }
  }

  /** The encoding is prefix-free: the first packet can be told from the bytes alone. */
  lemma PrefixFree(p: Packet, q: Packet, t: Bytes, u: Bytes)
    requires Sendable(p) && Sendable(q)
    requires Print(p) + t == Print(q) + u
    ensures p == q && t == u
  {
    hide PrintHeader, ScanHeader;
    PrintedHeader(p, t);
    PrintedHeader(q, u);
    assert |p.body| == |q.body|;
    assert p.body == (p.body + t)[..|p.body|] && q.body == (q.body + u)[..|q.body|];
    assert t == (p.body + t)[|p.body|..] && u == (q.body + u)[|q.body|..];
  }

  /** The encoding is injective on lists of packets that are not goodbyes. */
  lemma PrintInjective(ps: seq<Packet>, qs: seq<Packet>)
    requires AllSendable(ps) && AllSendable(qs)
    requires PrintAll(ps) == PrintAll(qs)
    ensures ps == qs
  {
    hide PrintHeader, ScanHeader;
    var s := PrintAll(ps);
    assert s[|s|..] == [];
    ParseExactly(s, ps);
    ParseExactly(s, qs);
  }

  // ---- the underlying connection ----

  /** Whether the byte sink can be closed, and whether that works. */
  datatype Closer = NoCloser | Closes | CloseFails

  /** What was written to a connection, and how many more bytes it takes. */
  datatype Line = Line(out: Bytes, quota: Option<nat>)

  /** Between two states of a connection these packets were written whole. If it has failed, a cut-off
      packet may follow them, and then nothing more is written. */
  ghost predicate Wrote(before: Line, after: Line, ps: seq<Packet>) {
    && before.out + PrintAll(ps) <= after.out
    && (after.out == before.out + PrintAll(ps) || after.quota == Some(0))
    && (before.quota == Some(0) ==> ps == [] && after == before)
    && (before.quota.None? ==> after.quota.None?)
  }

  lemma WroteNothing(line: Line)
    ensures Wrote(line, line, [])
  {
    assert line.out + PrintAll([]) == line.out;
  }

  lemma NeverFails(before: Line, after: Line, ps: seq<Packet>)
    requires Wrote(before, after, ps)
    ensures before.quota.None? ==> after.quota.None?
  {
  }

  lemma WroteBoth(a: Line, b: Line, c: Line, ps: seq<Packet>, qs: seq<Packet>)
    requires Wrote(a, b, ps) && Wrote(b, c, qs)
    ensures Wrote(a, c, ps + qs)
  {
    hide PrintAll;
    PrintAllAppend(ps, qs);
    if b.quota == Some(0) {
      assert qs == [] && ps + qs == ps;
    } else {
      assert a.out + PrintAll(ps + qs) == b.out + PrintAll(qs);
    }
  }

  lemma WroteOne(before: Line, after: Line, p: Packet)
    requires after.out == before.out + Print(p) && before.quota != Some(0)
    requires before.quota.None? ==> after.quota.None?
    ensures Wrote(before, after, [p])
  {
    hide Print;
    assert PrintAll([p]) == Print(p) + PrintAll([p][1..]);
    assert [p][1..] == [] && PrintAll([]) == [];
    assert Print(p) + [] == Print(p);
    assert PrintAll([p]) == Print(p);
  }

  /** The byte sink below a Writer. `quota` is how many more bytes it takes before every write
      fails; `None` is a connection that never fails. */
  class Conn {
    const closer: Closer
    var out: Bytes
    var quota: Option<nat>
    var closed: bool

    constructor (quota: Option<nat>, closer: Closer)
      ensures out == [] && this.quota == quota && this.closer == closer && !closed
    {
      this.closer := closer;
      this.out := [];
      this.quota := quota;
      closed := false;
    }

    ghost function Now(): Line
      reads this
    {
      Line(out, quota)
    }

    predicate Takes(n: nat)
      reads this
    {
      quota.None? || n <= quota.value
    }

    method Write(b: Bytes) returns (ok: bool)
      modifies `out, `quota
      ensures ok == old(Takes(|b|))
      ensures ok ==> out == old(out) + b
      ensures !ok ==> out == old(out) + b[..old(quota).value] && quota == Some(0)
      ensures quota == if old(quota).None? then None
                       else Some(if ok then old(quota).value - |b| else 0)
    {
      if quota.None? {
        out := out + b;
        return true;
      }
      if |b| <= quota.value {
        out := out + b;
        quota := Some(quota.value - |b|);
        return true;
      }
      out := out + b[..quota.value];
      quota := Some(0);
      return false;
    }
  }

  /** codec/writer.go */
  class Writer {
    const conn: Conn

    constructor (conn: Conn)
      ensures this.conn == conn
    {
      this.conn := conn;
    }

    /** All of the packet is written, or the error says so: an oversized body leaves the stream
        alone, a failing connection leaves a cut-off packet at its end. */
    method WritePacket(p: Packet) returns (err: Option<Error>)
      modifies conn
      ensures err.None? <==> Fits(p) && old(conn.Takes(HEADER_SIZE + |p.body|))
      ensures err.None? ==> conn.out == old(conn.out) + Print(p)
      ensures !Fits(p) ==> err == Some(TooLarge) && conn.out == old(conn.out) && conn.quota == old(conn.quota)
      ensures err.Some? && Fits(p) ==>
                && err == Some(WriteFailed) && conn.quota == Some(0)
                && old(conn.quota).value < |Print(p)|
                && conn.out == old(conn.out) + Print(p)[..old(conn.quota).value]
      ensures old(conn.quota).None? ==> conn.quota.None?
      ensures conn.closed == old(conn.closed)
      ensures Wrote(old(conn.Now()), conn.Now(), if err.None? then [p] else [])
    {
      hide PrintHeader;
      ghost var line := conn.Now();
      WroteNothing(line);
      if |p.body| > MAX_BUFFER_SIZE {
        return Some(TooLarge);
      }
      var hdr := Header(p.flag, |p.body|, p.req);
      var ok := conn.Write(PrintHeader(hdr));
      if !ok {
        return Some(WriteFailed);
      }
      ok := conn.Write(p.body);
      if !ok {
        return Some(WriteFailed);
      }
      assert conn.out == line.out + Print(p);
      WroteOne(line, conn.Now(), p);
      return None;
    }

    /** The goodbye header, and then the connection is closed too if it can be. */
    method Close() returns (err: Option<Error>)
      modifies conn
      ensures err.None? <==> old(conn.Takes(HEADER_SIZE)) && conn.closer != CloseFails
      ensures old(conn.Takes(HEADER_SIZE)) ==> conn.out == old(conn.out) + GOODBYE
      ensures !old(conn.Takes(HEADER_SIZE)) ==>
                err == Some(WriteFailed) && conn.out == old(conn.out) + GOODBYE[..old(conn.quota).value]
      ensures conn.closed == (old(conn.closed) || (old(conn.Takes(HEADER_SIZE)) && conn.closer == Closes))
    {
      var ok := conn.Write(GOODBYE);
      if !ok {
        return Some(WriteFailed);
      }
      if conn.closer == CloseFails {
        return Some(Other("pkt-codec: failed to close underlying writer"));
      }
      if conn.closer == Closes {
        conn.closed := true;
      }
      return None;
    }
  }

  /** codec/reader.go: `input` is what the connection still delivers before it ends. */
  class Reader {
    var input: Bytes

    constructor (input: Bytes)
      ensures this.input == input
    {
      this.input := input;
    }

    method ReadHeader() returns (r: HeaderResult)
      modifies this
      ensures r == HeaderAt(old(input))
      ensures input == if |old(input)| < HEADER_SIZE then [] else old(input)[HEADER_SIZE..]
    {
      hide ScanHeader;
      if |input| < HEADER_SIZE {
        r := NoHeader(if input == [] then EOF else UnexpectedEOF);
        input := [];
        return;
      }
      var hdr := ScanHeader(input[..HEADER_SIZE]);
      input := input[HEADER_SIZE..];
      if hdr.flag == 0 && hdr.len == 0 && hdr.req == 0 {
        return NoHeader(EOF);
      }
      return GotHeader(hdr);
    }

    /** Draining the limited reader that NextBodyReader returns. */
    method Drain(len: uint32) returns (body: Bytes)
      modifies this
      ensures body + input == old(input)
      ensures |body| == Min(len, |old(input)|)
    {
      var n := Min(len, |input|);
      body := input[..n];
      input := input[n..];
    }

    method ReadBodyInto(len: uint32) returns (err: Option<Error>, body: Bytes)
      modifies this
      ensures body + input == old(input) && |body| == Min(len, |old(input)|)
      ensures err == if |old(input)| < len then Some(ShortBody) else None
    {
      body := Drain(len);
      err := if Wrap32(|body|) != len then Some(ShortBody) else None;
    }

    /** io.ReadFull on the body: nothing at all is EOF, a part is an unexpected EOF. */
    method ReadFull(len: uint32) returns (err: Option<Error>, body: Bytes)
      modifies this
      ensures body + input == old(input) && |body| == Min(len, |old(input)|)
      ensures err == if |old(input)| >= len then None
                     else if old(input) == [] then Some(EOF) else Some(UnexpectedEOF)
    {
      body := Drain(len);
      if |body| == len {
        return None, body;
      }
      return Some(if body == [] then EOF else UnexpectedEOF), body;
    }

    /** A packet that was printed whole is read back whole; a cut one is an error. */
    method ReadPacket() returns (err: Option<Error>, p: Option<Packet>)
      modifies this
      ensures err.None? <==> p.Some?
      ensures err.None? <==> exists q, t | Sendable(q) :: old(input) == Print(q) + t
      ensures p.Some? ==> Sendable(p.value) && old(input) == Print(p.value) + input
    {
      hide PrintHeader, ScanHeader;
      var r := ReadHeader();
      if r.NoHeader? {
        forall q, t | Sendable(q) ensures old(input) != Print(q) + t {
          PrintedHeader(q, t);
        }
        return Some(r.err), None;
      }
      var rest := input;
      var body;
      err, body := ReadFull(r.hdr.len);
      HeaderPrint(old(input)[..HEADER_SIZE]);
      if err.Some? {
        forall q, t | Sendable(q) ensures old(input) != Print(q) + t {
          PrintedHeader(q, t);
        }
        return err, None;
      }
      var q := Packet(r.hdr.flag, r.hdr.req, body);
      assert HeaderOf(q) == r.hdr;
      assert old(input) == old(input)[..HEADER_SIZE] + rest;
      assert old(input) == Print(q) + input;
      return None, Some(q);
    }

    /** codec/utils.go */
    method ReadAllPackets() returns (r: Parsed)
      modifies this
      ensures r == ParseAll(old(input))
      ensures r.Packets? ==> PrintAll(r.pkts) <= old(input)
    {
      hide PrintHeader, ScanHeader;
      var pkts: seq<Packet> := [];
      ghost var start := input;
      while true
        invariant ParseAll(start) ==
                  match ParseAll(input) { case Packets(qs) => Packets(pkts + qs) case Broken => Broken }
        decreases |input|
      {
        ghost var before := input;
        var h := ReadHeader();
        if h.NoHeader? {
          if h.err == EOF {
            break;
          }
          return Broken;
        }
        var err, body := ReadFull(h.hdr.len);
        if err.Some? {
          if err.value == EOF {
            break;
          }
          return Broken;
        }
        ghost var p := PacketBytes(before);
        var pkt := Packet(h.hdr.flag, h.hdr.req, body);
        assert before[HEADER_SIZE..] == body + input;
        assert pkt == p && input == before[HEADER_SIZE..][h.hdr.len..];
        ghost var sofar := pkts;
        pkts := pkts + [pkt];
        if ParseAll(input).Packets? {
          assert pkts + ParseAll(input).pkts == sofar + ([p] + ParseAll(input).pkts);
        }
      }
      assert pkts + [] == pkts;
      ParseConsumes(start);
      return Packets(pkts);
    }
  }
}
