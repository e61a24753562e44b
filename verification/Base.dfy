/** Vocabulary shared by every layer: bytes, machine integers, options and error values. */
module Base {

  type byte = x: int | 0 <= x < 0x100
  type uint32 = x: int | 0 <= x < 0x1_0000_0000
  type int32 = x: int | -0x8000_0000 <= x < 0x8000_0000
  type Bytes = seq<byte>

  const MAX_INT32: int := 0x7FFF_FFFF

  datatype Option<+T> = None | Some(value: T)

  /** The error values the session distinguishes; everything else is `Other`. */
  datatype Error =
    | EOF
    | Eos                            // luigi.EOS, the end in the old stream library
    | Canceled
    | SessionTerminated
    | NoSuchMethod(path: seq<string>)
    | CallError(name: string, message: string)
    | SourceCanceled(inner: Error)   // consume on a failed source; wraps the source's error
    | ShortBody                      // copyBody or ReadBodyInto got fewer bytes than announced
    | UnexpectedEOF                  // a header or body was cut in the middle
    | TooLarge
    | WriteFailed
    | NoRequestID
    | BadRequest
    | Other(text: string)

  /** Go's `errors.Is` for the two targets the sources look for. */
  predicate IsError(e: Error, target: Error) {
    e == target || (e.SourceCanceled? && IsError(e.inner, target))
  }

  /** `e` inside `n` layers of wrapping. */
  function Wrapped(n: nat, e: Error): Error { if n == 0 then e else SourceCanceled(Wrapped(n - 1, e)) }

  ghost predicate Wraps(e: Error, target: Error) { exists n: nat :: e == Wrapped(n, target) }

  /** IsError finds its target at any depth, and nothing else. */
  lemma {:induction false} IsErrorExactly(e: Error, target: Error)
    ensures IsError(e, target) <==> Wraps(e, target)
  {
    if IsError(e, target) {
      if e == target {
        assert e == Wrapped(0, target);
      } else {
        IsErrorExactly(e.inner, target);
        var n: nat :| e.inner == Wrapped(n, target);
        assert e == Wrapped(n + 1, target);
      }
    }
    forall n: nat | e == Wrapped(n, target)
      ensures IsError(e, target)
    {
      if n > 0 {
        assert e.inner == Wrapped(n - 1, target);
        IsErrorExactly(e.inner, target);
      }
    }
  }

  /** An error that means the regular end of a source: EOF or Canceled, however often wrapped. */
  ghost predicate MeansEnd(e: Error) { Wraps(e, EOF) || Wraps(e, Canceled) }

  lemma MeansEndExactly(e: Error)
    ensures MeansEnd(e) <==> IsError(e, EOF) || IsError(e, Canceled)
  {
    IsErrorExactly(e, EOF);
    IsErrorExactly(e, Canceled);
  }

  /** Unsigned 32-bit arithmetic wraps around. */
  function Wrap32(x: int): uint32 { x % 0x1_0000_0000 }

  /** Negating the smallest int32 gives the smallest int32 again. */
  function Neg32(x: int32): int32 { if x == -0x8000_0000 then x else -x }

  function Min(a: int, b: int): int { if a <= b then a else b }

  /** Concatenation of a list of byte strings. */
  function Flat(parts: seq<Bytes>): Bytes {
    if parts == [] then [] else parts[0] + Flat(parts[1..])
  }

  lemma {:induction false} FlatAppend(a: seq<Bytes>, b: seq<Bytes>)
    ensures Flat(a + b) == Flat(a) + Flat(b)
  {
    if a == [] {
      assert a + b == b;
    } else {
      assert (a + b)[1..] == a[1..] + b;
      FlatAppend(a[1..], b);
    }
  }

  lemma FlatSnoc(a: seq<Bytes>, x: Bytes)
    ensures Flat(a + [x]) == Flat(a) + x
  {
    FlatAppend(a, [x]);
    assert Flat([x]) == x + Flat([]);
  }

  /** Method.String: the path elements with dots between them. */
  function Join(path: seq<string>): string {
    if path == [] then "" else if |path| == 1 then path[0] else path[0] + "." + Join(path[1..])
  }

  // ---- four-byte integers ----

  /** The number whose base-256 digits are a (most significant), b, c, d. */
  function Weigh(a: int, b: int, c: int, d: int): int {
    a * 0x100_0000 + b * 0x1_0000 + c * 0x100 + d
  }

  function BE32(x: uint32): (r: Bytes)
    ensures |r| == 4
  {
    [x / 0x100_0000, x / 0x1_0000 % 0x100, x / 0x100 % 0x100, x % 0x100]
  }

  function FromBE32(s: Bytes): uint32
    requires |s| == 4
  {
    Weigh(s[0], s[1], s[2], s[3])
  }

  function LE32(x: uint32): (r: Bytes)
    ensures |r| == 4
  {
    [x % 0x100, x / 0x100 % 0x100, x / 0x1_0000 % 0x100, x / 0x100_0000]
  }

  function FromLE32(s: Bytes): uint32
    requires |s| == 4
  {
    Weigh(s[3], s[2], s[1], s[0])
  }

  lemma Digits(x: uint32)
    ensures Weigh(x / 0x100_0000, x / 0x1_0000 % 0x100, x / 0x100 % 0x100, x % 0x100) == x
  {
    var y := x / 0x100;
    var z := x / 0x1_0000;
    assert y / 0x100 == z;
    assert z / 0x100 == x / 0x100_0000;
    assert x == y * 0x100 + x % 0x100;
    assert y == z * 0x100 + y % 0x100;
    assert z == x / 0x100_0000 * 0x100 + z % 0x100;
  }

  lemma DigitsUnique(a: byte, b: byte, c: byte, d: byte)
    ensures var x := Weigh(a, b, c, d);
            x / 0x100_0000 == a && x / 0x1_0000 % 0x100 == b && x / 0x100 % 0x100 == c && x % 0x100 == d
  {
    var x := Weigh(a, b, c, d);
    var bc: int := b * 0x100 as int + c as int;
    assert x / 0x100_0000 == a;
    assert x / 0x1_0000 == a as int * 0x100 + b;
    assert x / 0x100 == a as int * 0x1_0000 + bc;
  }

  lemma BE32RoundTrip(x: uint32)
    ensures FromBE32(BE32(x)) == x
  {
    Digits(x);
  }

  lemma LE32RoundTrip(x: uint32)
    ensures FromLE32(LE32(x)) == x
  {
    Digits(x);
  }

  lemma BE32Print(s: Bytes)
    requires |s| == 4
    ensures BE32(FromBE32(s)) == s
  {
    DigitsUnique(s[0], s[1], s[2], s[3]);
  }
}
