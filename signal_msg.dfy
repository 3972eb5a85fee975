/**
 * The record `uv__signal_msg_t` that the signal handler writes into a loop's
 * pipe and `uv__signal_event` reads back, laid out as on x86-64 Linux: the
 * handle pointer in 8 little-endian bytes, the `int` signal number in 4
 * little-endian two's-complement bytes, and 4 bytes of padding that the
 * handler's `memset` leaves zero.
 */
module SignalMsg {
  newtype byte = x: int | 0 <= x < 256

  /** One message: which handle, which signal. */
  datatype Msg = Msg(handle: nat, signum: int)

  function Pow256(n: nat): (p: nat)
    ensures p >= 1
  {
    if n == 0 then 1 else 256 * Pow256(n - 1)
  }

  /** The `n`-byte little-endian form of `x`, least significant byte first. */
  function LittleEndian(x: nat, n: nat): (b: seq<byte>)
    ensures |b| == n
  {
    if n == 0 then [] else [(x % 256) as byte] + LittleEndian(x / 256, n - 1)
  }

  /** The number a little-endian byte string stands for. */
  function Value(b: seq<byte>): nat
  {
    if b == [] then 0 else b[0] as nat + 256 * Value(b[1..])
  }

  /** Reading back `n` little-endian bytes gives the number, when it fits in `n` bytes. */
  lemma {:induction false} LittleEndianRoundTrip(x: nat, n: nat)
    requires x < Pow256(n)
    ensures Value(LittleEndian(x, n)) == x
  {
    if n > 0 {
      var b := LittleEndian(x, n);
      assert b[1..] == LittleEndian(x / 256, n - 1);
      LittleEndianRoundTrip(x / 256, n - 1);
    }
  }

  /** A byte string of length `n` stands for a number below 256^n. */
  lemma {:induction false} ValueBound(b: seq<byte>)
    ensures Value(b) < Pow256(|b|)
  {
    if b != [] {
      ValueBound(b[1..]);
    }
  }

  /** `int` as the 32-bit pattern stored in memory. */
  function Unsigned32(s: int): (u: nat)
    requires -0x8000_0000 <= s < 0x8000_0000
    ensures u < 0x1_0000_0000
  {
    if s < 0 then s + 0x1_0000_0000 else s
  }

  /** The `int` a 32-bit pattern holds. */
  function Signed32(u: nat): int
  {
    if u >= 0x8000_0000 then u - 0x1_0000_0000 else u
  }

  /** Fits the struct: a 64-bit pointer and a 32-bit `int`. */
  predicate Representable(m: Msg)
  {
    m.handle < 0x1_0000_0000_0000_0000 && -0x8000_0000 <= m.signum < 0x8000_0000
  }

  /** The bytes the handler writes for `m`. */
  function Encode(m: Msg): (b: seq<byte>)
    requires Representable(m)
    ensures |b| == 16
  {
    LittleEndian(m.handle, 8) + LittleEndian(Unsigned32(m.signum), 4) + [0, 0, 0, 0]
  }

  /** The message the event reader sees in 16 bytes at `buf + i`. */
  function Decode(b: seq<byte>): (m: Msg)
    requires |b| == 16
    ensures Representable(m)
  {
    ValueBound(b[..8]);
    ValueBound(b[8..12]);
    assert Pow256(8) == 0x1_0000_0000_0000_0000 && Pow256(4) == 0x1_0000_0000;
    Msg(Value(b[..8]), Signed32(Value(b[8..12])))
  }

  /** Decoding what was encoded gives the message back. */
  lemma RoundTrip(m: Msg)
    requires Representable(m)
    ensures Decode(Encode(m)) == m
  {
    var b := Encode(m);
    assert b[..8] == LittleEndian(m.handle, 8);
    assert b[8..12] == LittleEndian(Unsigned32(m.signum), 4);
    assert Pow256(8) == 0x1_0000_0000_0000_0000 && Pow256(4) == 0x1_0000_0000;
    LittleEndianRoundTrip(m.handle, 8);
    LittleEndianRoundTrip(Unsigned32(m.signum), 4);
  }

  /** The bytes of several messages written one after another. */
  function EncodeAll(ms: seq<Msg>): (b: seq<byte>)
    requires forall i :: 0 <= i < |ms| ==> Representable(ms[i])
    ensures |b| == 16 * |ms|
  {
    if ms == [] then [] else Encode(ms[0]) + EncodeAll(ms[1..])
  }

  /** The messages in a byte string made of whole messages, in order. */
  function Frame(b: seq<byte>): seq<Msg>
    requires |b| % 16 == 0
    decreases |b|
  {
    if b == [] then [] else [Decode(b[..16])] + Frame(b[16..])
  }

  /** Framing the bytes of written messages recovers exactly those messages. */
  lemma {:induction false} FrameEncodeAll(ms: seq<Msg>)
    requires forall i :: 0 <= i < |ms| ==> Representable(ms[i])
    ensures Frame(EncodeAll(ms)) == ms
  {
    if ms != [] {
      var b := EncodeAll(ms);
      assert b[..16] == Encode(ms[0]) && b[16..] == EncodeAll(ms[1..]);
      RoundTrip(ms[0]);
      FrameEncodeAll(ms[1..]);
    }
  }

  /** Framing distributes over whole-message pieces. */
  lemma {:induction false} FrameConcat(a: seq<byte>, b: seq<byte>)
    requires |a| % 16 == 0 && |b| % 16 == 0
    ensures Frame(a + b) == Frame(a) + Frame(b)
    decreases |a|
  {
    if a == [] {
      assert a + b == b;
    } else {
      var rest := a[16..];
      assert |rest| % 16 == 0 by {
        assert |rest| == |a| - 16;
      }
      assert (a + b)[..16] == a[..16];
      assert (a + b)[16..] == rest + b;
      FrameConcat(rest, b);
    }
  }
}
