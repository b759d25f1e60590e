/** sockets/ws.go: the frame codec of sections 5.2 to 5.5 of RFC 6455, as a client
    that masks everything it sends, and the reader that puts messages back
    together while answering pings. */
module WebSocket {
  import opened Options
  import opened ByteStrings
  import opened RoundRobin

  // ----- lengths

  /** `n` in `w` bytes, the highest first. */
  function Big(n: nat, w: nat): (s: seq<byte>)
    ensures |s| == w
  {
    if w == 0 then [] else Big(n / 256, w - 1) + [n % 256]
  }

  function FromBig(s: seq<byte>): nat {
    if s == [] then 0 else FromBig(s[..|s| - 1]) * 256 + s[|s| - 1]
  }

  function Pow256(w: nat): nat {
    if w == 0 then 1 else 256 * Pow256(w - 1)
  }

  lemma {:induction false} BigBack(n: nat, w: nat)
    requires n < Pow256(w)
    ensures FromBig(Big(n, w)) == n
  {
    if w > 0 {
      BigBack(n / 256, w - 1);
      assert Big(n, w)[..w - 1] == Big(n / 256, w - 1);
    }
  }

  lemma {:induction false} BigBounded(s: seq<byte>)
    ensures FromBig(s) < Pow256(|s|)
  {
    if s != [] { BigBounded(s[..|s| - 1]); }
  }

  lemma Widths()
    ensures Pow256(2) == 0x1_0000 && Pow256(8) == 0x1_0000_0000_0000_0000
  {
    assert Pow256(4) == 0x1_0000_0000;
    assert Pow256(6) == 0x1_0000_0000_0000;
  }

  // ----- frames

  datatype Frame = Frame(final: bool, opcode: byte, payload: seq<byte>)

  /** A masking key, or none, which is how a server sends. */
  type Mask = m: Option<seq<byte>> | m.Some? ==> |m.value| == 4 witness None

  function Pow2(w: nat): nat {
    if w == 0 then 1 else 2 * Pow2(w - 1)
  }

  /** The exclusive or of the lowest `w` bits. */
  function XorBits(a: nat, b: nat, w: nat): (r: nat)
    requires a < Pow2(w) && b < Pow2(w)
    ensures r < Pow2(w)
  {
    if w == 0 then 0 else XorBits(a / 2, b / 2, w - 1) * 2 + (if a % 2 == b % 2 then 0 else 1)
  }

  lemma {:induction false} XorBitsTwice(a: nat, b: nat, w: nat)
    requires a < Pow2(w) && b < Pow2(w)
    ensures XorBits(XorBits(a, b, w), b, w) == a
  {
    if w > 0 {
      XorHalves(a, b, w);
      XorHalves(XorBits(a, b, w), b, w);
      XorBitsTwice(a / 2, b / 2, w - 1);
      hide XorBits;
    }
  }

  /** The lowest bit, and the others. */
  lemma XorHalves(a: nat, b: nat, w: nat)
    requires a < Pow2(w) && b < Pow2(w) && w > 0
    ensures var r := XorBits(a, b, w);
            r % 2 == (if a % 2 == b % 2 then 0 else 1) && r / 2 == XorBits(a / 2, b / 2, w - 1)
  {
  }

  lemma EightBits()
    ensures Pow2(8) == 256
  {
    assert Pow2(4) == 16;
  }

  function Xor(a: byte, b: byte): byte {
    EightBits();
    XorBits(a, b, 8)
  }

  function Unmask(payload: seq<byte>, mask: seq<byte>): (r: seq<byte>)
    requires |mask| == 4
    ensures |r| == |payload|
  {
    seq(|payload|, i requires 0 <= i < |payload| => Xor(payload[i], mask[i % 4]))
  }

  /** Masking twice with one key is no masking. */
  lemma UnmaskTwice(payload: seq<byte>, mask: seq<byte>)
    requires |mask| == 4
    ensures Unmask(Unmask(payload, mask), mask) == payload
  {
    forall i | 0 <= i < |payload| ensures Unmask(Unmask(payload, mask), mask)[i] == payload[i] {
      XorTwice(payload[i], mask[i % 4]);
    }
  }

  lemma XorTwice(a: byte, m: byte)
    ensures Xor(Xor(a, m), m) == a
  {
    EightBits();
    XorBitsTwice(a, m, 8);
  }

  /** Bit `b` of a number, the lowest first. */
  predicate Bit(x: nat, b: nat) {
    if b == 0 then x % 2 == 1 else Bit(x / 2, b - 1)
  }

  /** Section 5.3 of RFC 6455, bit by bit: byte `i` differs from byte `i` of the payload
      just where byte `i` modulo 4 of the key has a bit. */
  ghost predicate Masked(wire: seq<byte>, payload: seq<byte>, key: seq<byte>) {
    && |key| == 4 && |wire| == |payload|
    && forall i, b :: 0 <= i < |wire| && 0 <= b < 8 ==> (Bit(wire[i], b) <==> Bit(payload[i], b) != Bit(key[i % 4], b))
  }

  lemma {:induction false} XorBitsAt(a: nat, b: nat, w: nat, i: nat)
    requires a < Pow2(w) && b < Pow2(w) && i < w
    ensures Bit(XorBits(a, b, w), i) <==> Bit(a, i) != Bit(b, i)
  {
    if i > 0 { XorBitsAt(a / 2, b / 2, w - 1, i - 1); }
  }

  lemma UnmaskMasks(payload: seq<byte>, key: seq<byte>)
    requires |key| == 4
    ensures Masked(Unmask(payload, key), payload, key)
  {
    forall i, b | 0 <= i < |payload| && 0 <= b < 8
      ensures Bit(Unmask(payload, key)[i], b) <==> Bit(payload[i], b) != Bit(key[i % 4], b)
    {
      EightBits();
      XorBitsAt(payload[i], key[i % 4], 8, b);
    }
  }

  /** The byte with its top bit set. */
  function SetTop(b: byte): byte { if b >= 0x80 then b else b + 0x80 }

  predicate TopBit(b: byte) { b >= 0x80 }

  function Low4(b: byte): byte { b % 0x10 }

  function Low7(b: byte): (n: nat)
    ensures n < 128
  {
    b % 0x80
  }

  function Head0(final: bool, opcode: byte): byte {
    if final then SetTop(opcode) else opcode
  }

  function Head1(masked: bool, n7: nat): byte
    requires n7 < 128
  {
    if masked then SetTop(n7) else n7
  }

  lemma Head0Bits(final: bool, opcode: byte)
    requires opcode < 16
    ensures TopBit(Head0(final, opcode)) == final && Low4(Head0(final, opcode)) == opcode
  {
  }

  lemma Head1Bits(masked: bool, n7: nat)
    requires n7 < 128
    ensures TopBit(Head1(masked, n7)) == masked && Low7(Head1(masked, n7)) == n7
  {
  }

  /** The 7-bit length and what follows it. */
  function Length7(n: nat): (n7: nat)
    ensures n7 < 128
  {
    if n < 126 then n else if n < 0x1_0000 then 126 else 127
  }

  function Extended(n: nat): seq<byte> {
    if n < 126 then [] else if n < 0x1_0000 then Big(n, 2) else Big(n, 8)
  }

  function Body(f: Frame, mask: Mask): seq<byte> {
    if mask.Some? then mask.value + Unmask(f.payload, mask.value) else f.payload
  }

  function Encode(f: Frame, mask: Mask): seq<byte> {
    [Head0(f.final, f.opcode), Head1(mask.Some?, Length7(|f.payload|))] + Extended(|f.payload|) + Body(f, mask)
  }

  /** A payload no longer than a Go slice can be. */
  predicate Sendable(f: Frame) { f.opcode < 16 && |f.payload| < TOO_LONG }

  /** The first length no Go slice can have; making one panics. */
  const TOO_LONG: nat := 0x8000_0000_0000_0000

  /** What reading the front of an input comes to: the input ends first, the declared
      length cannot be allocated, or it is read and this is left. */
  datatype Got<T> = Ended | TooLong | Got(value: T, rest: seq<byte>)

  /** ReadFull: exactly `n` bytes and what is left, or not enough. */
  function Take(input: seq<byte>, n: nat): Option<(seq<byte>, seq<byte>)> {
    if |input| < n then None else Some((input[..n], input[n..]))
  }

  function Wide(n7: nat): nat {
    if n7 == 126 then 2 else if n7 == 127 then 8 else 0
  }

  function LengthOf(n7: nat, ext: seq<byte>): nat {
    if Wide(n7) == 0 then n7 else FromBig(ext)
  }

  /** A key if there is one, and `n` bytes of payload. */
  function ParseBody(masked: bool, n: nat, input: seq<byte>): Got<seq<byte>> {
    match Take(input, if masked then 4 else 0)
    case None => Ended
    case Some((mask, body)) =>
      if n >= TOO_LONG then TooLong
      else
        match Take(body, n)
        case None => Ended
        case Some((payload, rest)) => Got(if masked then Unmask(payload, mask) else payload, rest)
  }

  /** One frame off the front of the input, and the rest. */
  function Parse(input: seq<byte>): (r: Got<Frame>)
    ensures r.Got? ==> |r.rest| + |r.value.payload| < |input|
  {
    if |input| < 2 then Ended
    else
      var n7 := Low7(input[1]);
      match Take(input[2..], Wide(n7))
      case None => Ended
      case Some((ext, more)) =>
        match ParseBody(TopBit(input[1]), LengthOf(n7, ext), more)
        case Ended => Ended
        case TooLong => TooLong
        case Got(payload, rest) => Got(Frame(TopBit(input[0]), Low4(input[0]), payload), rest)
  }

  lemma TakeBack(a: seq<byte>, b: seq<byte>)
    ensures Take(a + b, |a|) == Some((a, b))
  {
  }

  lemma LengthBack(n: nat)
    requires n < TOO_LONG
    ensures |Extended(n)| == Wide(Length7(n)) && LengthOf(Length7(n), Extended(n)) == n
  {
    Widths();
    if 126 <= n < 0x1_0000 {
      BigBack(n, 2);
    } else if n >= 0x1_0000 {
      BigBack(n, 8);
    }
  }

  lemma BodyBack(f: Frame, mask: Mask, rest: seq<byte>)
    requires |f.payload| < TOO_LONG
    ensures ParseBody(mask.Some?, |f.payload|, Body(f, mask) + rest) == Got(f.payload, rest)
  {
    if mask.Some? {
      var masked := Unmask(f.payload, mask.value);
      assert Body(f, mask) + rest == mask.value + (masked + rest);
      TakeBack(mask.value, masked + rest);
      TakeBack(masked, rest);
      UnmaskTwice(f.payload, mask.value);
    } else {
      TakeBack([], f.payload + rest);
      TakeBack(f.payload, rest);
      assert [] + (f.payload + rest) == f.payload + rest;
    }
  }

  /** frame inverts write, for every payload and mask, and reads nothing past it. */
  lemma FrameRoundTrip(f: Frame, mask: Mask, rest: seq<byte>)
    requires Sendable(f)
    ensures Parse(Encode(f, mask) + rest) == Got(f, rest)
  {
    hide Head0, Head1, TopBit, Low4, Low7, Length7, Extended, Body, ParseBody, LengthOf, Wide;
    var n := |f.payload|;
    LengthBack(n);
    Head0Bits(f.final, f.opcode);
    Head1Bits(mask.Some?, Length7(n));
    var input, more := Encode(f, mask) + rest, Body(f, mask) + rest;
    assert input[2..] == Extended(n) + more;
    TakeBack(Extended(n), more);
    BodyBack(f, mask, rest);
  }

  /** No other encoding of the same frame is shorter. */
  lemma EncodingIsMinimal(input: seq<byte>, mask: Mask)
    requires Parse(input).Got?
    requires mask.Some? == TopBit(input[1])
    ensures |Encode(Parse(input).value, mask)| <= |input| - |Parse(input).rest|
  {
    hide Head0, Head1, TopBit, Low4, Low7, LengthOf, Extended, Wide, Unmask;
    var n7 := Low7(input[1]);
    ShortestLength(n7, input[2..][..Wide(n7)]);
  }

  /** No other form of a length is shorter. */
  lemma ShortestLength(n7: nat, ext: seq<byte>)
    requires n7 < 128 && |ext| == Wide(n7)
    ensures |Extended(LengthOf(n7, ext))| <= |ext|
  {
    Widths();
    BigBounded(ext);
  }

  lemma {:induction false} BigHead(s: seq<byte>)
    requires s != []
    ensures FromBig(s) == s[0] * Pow256(|s| - 1) + FromBig(s[1..])
  {
    var n := |s| - 1;
    if n > 0 {
      BigHead(s[..n]);
      assert s[..n][1..] == s[1..][..n - 1];
      var p, low := Pow256(n - 1), FromBig(s[..n][1..]);
      assert FromBig(s[1..]) == low * 256 + s[n] && Pow256(n) == 256 * p;
      hide FromBig, Pow256;
      OneByteUp(s[0], p, low);
    }
  }

  lemma OneByteUp(x: nat, p: nat, low: nat)
    ensures (x * p + low) * 256 == x * (256 * p) + low * 256
  {
  }

  /** Eight bytes are too long a length exactly when the first has its top bit set. */
  lemma TopLengthBit(ext: seq<byte>)
    requires |ext| == 8
    ensures FromBig(ext) >= TOO_LONG <==> TopBit(ext[0])
  {
    BigHead(ext);
    BigBounded(ext[1..]);
    assert Pow256(7) == 0x100_0000_0000_0000 by { Widths(); }
  }

  /** A frame makes the reader panic if and only if its length takes eight bytes with the
      top bit set, which section 5.2 of RFC 6455 forbids, and its key, if it has one, is
      there. */
  lemma PanicsIff(input: seq<byte>)
    ensures Parse(input).TooLong? <==>
            && |input| >= 10 && Low7(input[1]) == 127 && TopBit(input[2])
            && (TopBit(input[1]) ==> |input| >= 14)
  {
    if |input| >= 10 && Low7(input[1]) == 127 {
      TopLengthBit(input[2..][..8]);
    }
    if |input| >= 4 && Low7(input[1]) == 126 {
      BigBounded(input[2..][..2]);
      Widths();
    }
  }

  // ----- the bytes of a frame

  /** How many bytes stand in front of the key. */
  function HeadSize(n: nat): nat {
    if n < 126 then 2 else if n < 0x1_0000 then 4 else 10
  }

  /** What eight bytes say, the first highest. */
  function EightBytes(s: seq<byte>): nat
    requires |s| == 8
  {
    (s[0] as int * 0x100 + s[1]) * 0x1_0000_0000_0000 + (s[2] as int * 0x100 + s[3]) * 0x1_0000_0000
    + (s[4] as int * 0x100 + s[5]) * 0x1_0000 + (s[6] as int * 0x100 + s[7])
  }

  /** A length as section 5.2 of RFC 6455 spells it: in seven bits, or 126 and two bytes, or
      127 and eight. */
  predicate Declares(input: seq<byte>, n: nat) {
    && |input| >= 2
    && if input[1] % 0x80 < 126 then n == input[1] % 0x80
       else if input[1] % 0x80 == 126 then |input| >= 4 && n == input[2] as int * 0x100 + input[3]
       else |input| >= 10 && n == EightBytes(input[2..10])
  }

  lemma TwoBytesSay(s: seq<byte>)
    requires |s| == 2
    ensures FromBig(s) == s[0] as int * 0x100 + s[1]
  {
    assert s[..1][..0] == [] && FromBig(s[..1]) == s[0];
  }

  lemma EightBytesSay(s: seq<byte>)
    requires |s| == 8
    ensures FromBig(s) == EightBytes(s)
  {
    var a, b, c := s[..2], s[..4], s[..6];
    assert a == [s[0], s[1]];
    TwoBytesSay(a);
    TwoMore(b);
    TwoMore(c);
    TwoMore(s);
    assert b[..2] == a && c[..4] == b;
  }

  lemma TwoMore(s: seq<byte>)
    requires |s| >= 2
    ensures FromBig(s) == FromBig(s[..|s| - 2]) * 0x1_0000 + s[|s| - 2] as int * 0x100 + s[|s| - 1]
  {
    var init := s[..|s| - 1];
    assert init[..|init| - 1] == s[..|s| - 2];
  }

  /** A final masked frame on the wire, byte by byte. */
  ghost predicate IsClientFrame(sent: seq<byte>, opcode: byte, payload: seq<byte>, key: seq<byte>) {
    var n := |payload|;
    var h := HeadSize(n);
    && |sent| == h + 4 + n
    && (opcode < 16 ==> sent[0] == 0x80 + opcode)
    && sent[1] == 0x80 + (if n < 126 then n else if n < 0x1_0000 then 126 else 127)
    && (n < TOO_LONG ==> Declares(sent, n))
    && sent[h..h + 4] == key && Masked(sent[h + 4..], payload, key)
  }

  /** One such frame more is on the wire. */
  ghost predicate WroteFrame(was: seq<byte>, now: seq<byte>, opcode: byte, payload: seq<byte>, key: seq<byte>) {
    was <= now && IsClientFrame(now[|was|..], opcode, payload, key)
  }

  lemma ClientFrame(opcode: byte, payload: seq<byte>, key: seq<byte>)
    requires |key| == 4
    ensures IsClientFrame(Encode(Frame(true, opcode, payload), Some(key)), opcode, payload, key)
  {
    var n, body := |payload|, Unmask(payload, key);
    var sent, h := Encode(Frame(true, opcode, payload), Some(key)), HeadSize(n);
    var head := [SetTop(opcode), SetTop(Length7(n))] + Extended(n);
    UnmaskMasks(payload, key);
    hide Unmask, Masked, Big, EightBytes, Declares;
    assert |head| == h && sent == head + (key + body);
    assert sent[h..h + 4] == key && sent[h + 4..] == body;
    if n < TOO_LONG { LengthDeclared(n, sent); }
  }

  lemma LengthDeclared(n: nat, input: seq<byte>)
    requires n < TOO_LONG && |input| >= HeadSize(n) && input[1] == 0x80 + Length7(n) && input[2..HeadSize(n)] == Extended(n)
    ensures Declares(input, n)
  {
    LengthBack(n);
    hide Big;
    if 126 <= n < 0x1_0000 { TwoBytesSay(input[2..4]); }
    if n >= 0x1_0000 { EightBytesSay(input[2..10]); }
  }

  /** What a frame that was read says, bit by bit: the top bit of the first byte is the last
      fragment's, its lowest four are the opcode, and the payload is the bytes declared behind
      the key, if the top bit of the second byte says there is one. */
  lemma FrameBits(input: seq<byte>)
    requires Parse(input).Got?
    ensures var f, n := Parse(input).value, |Parse(input).value.payload|;
            var h := |input| - |Parse(input).rest| - n;
            && (f.final <==> Bit(input[0], 7)) && (forall b: nat :: b < 8 ==> (Bit(f.opcode, b) <==> b < 4 && Bit(input[0], b)))
            && Declares(input, n) && Parse(input).rest == input[h + n..]
            && (if Bit(input[1], 7) then h >= 6 && Masked(f.payload, input[h..h + n], input[h - 4..h])
                else f.payload == input[h..h + n])
  {
    TopBitIs(input[0]);
    TopBitIs(input[1]);
    Low4Bits(input[0]);
    ParsedParts(input);
  }

  lemma {:induction false} HighBit(x: nat, w: nat)
    requires x < 2 * Pow2(w)
    ensures Bit(x, w) <==> x >= Pow2(w)
  {
    if w > 0 { HighBit(x / 2, w - 1); }
  }

  lemma TopBitIs(x: byte)
    ensures TopBit(x) <==> Bit(x, 7)
  {
    EightBits();
    HighBit(x, 7);
  }

  lemma {:induction false} NoBits(b: nat)
    ensures !Bit(0, b)
  {
    if b > 0 { NoBits(b - 1); }
  }

  lemma HalfOfLow(x: nat, m: nat)
    requires m > 0
    ensures x % (2 * m) % 2 == x % 2 && x % (2 * m) / 2 == x / 2 % m
  {
    var q, r := x / (2 * m), x % (2 * m);
    assert x == q * (2 * m) + r;
    assert x == 2 * (q * m) + r;
    QuotRem(x / 2, m, q, r / 2);
  }

  lemma {:induction false} LowBits(x: nat, w: nat, b: nat)
    requires Pow2(w) > 0
    ensures Bit(x % Pow2(w), b) <==> b < w && Bit(x, b)
  {
    if w == 0 {
      NoBits(b);
    } else {
      HalfOfLow(x, Pow2(w - 1));
      if b > 0 { LowBits(x / 2, w - 1, b - 1); }
    }
  }

  lemma Low4Bits(x: byte)
    ensures forall b: nat :: b < 8 ==> (Bit(Low4(x), b) <==> b < 4 && Bit(x, b))
  {
    assert Pow2(4) == 16;
    forall b: nat | b < 8 ensures Bit(Low4(x), b) <==> b < 4 && Bit(x, b) {
      LowBits(x, 4, b);
    }
  }

  lemma ParsedParts(input: seq<byte>)
    requires Parse(input).Got?
    ensures var f, n := Parse(input).value, |Parse(input).value.payload|;
            var h := |input| - |Parse(input).rest| - n;
            && f.final == TopBit(input[0]) && f.opcode == Low4(input[0])
            && Declares(input, n) && Parse(input).rest == input[h + n..]
            && (if TopBit(input[1]) then h >= 6 && Masked(f.payload, input[h..h + n], input[h - 4..h])
                else f.payload == input[h..h + n])
  {
    var n7 := Low7(input[1]);
    var w := Wide(n7);
    var ext, more := input[2..][..w], input[2..][w..];
    var n, at := LengthOf(n7, ext), if TopBit(input[1]) then 4 else 0;
    ReadLength(input);
    hide Declares, ParseBody, LengthOf, Low7, Low4, Masked, Wide;
    BodyParts(TopBit(input[1]), n, more);
    hide TopBit;
    assert more == input[2 + w..];
    Within(input, 2 + w, 0, at);
    Within(input, 2 + w, at, at + n);
    Within(input, 2 + w, at + n, |more|);
  }

  lemma ReadLength(input: seq<byte>)
    requires |input| >= 2 && |input| >= 2 + Wide(Low7(input[1]))
    ensures var w := Wide(Low7(input[1])); Declares(input, LengthOf(Low7(input[1]), input[2..][..w]))
  {
    hide FromBig, EightBytes;
    var n7 := Low7(input[1]);
    if n7 == 126 { TwoBytesSay(input[2..][..2]); }
    if n7 == 127 {
      EightBytesSay(input[2..][..8]);
      assert input[2..][..8] == input[2..10];
    }
  }

  lemma Within(s: seq<byte>, a: nat, i: nat, j: nat)
    requires i <= j <= |s| - a
    ensures s[a..][i..j] == s[a + i..a + j]
  {
  }

  lemma BodyParts(masked: bool, n: nat, input: seq<byte>)
    requires ParseBody(masked, n, input).Got?
    ensures var p, h := ParseBody(masked, n, input), if masked then 4 else 0;
            && |input| >= h + n && |p.value| == n && p.rest == input[h + n..|input|]
            && (if masked then Masked(p.value, input[h..h + n], input[0..h]) else p.value == input[h..h + n])
  {
    hide Unmask, Masked;
    if masked {
      UnmaskMasks(input[4..][..n], input[..4]);
      assert input[4..][..n] == input[4..4 + n] && input[..4] == input[0..4];
    }
  }

  // ----- messages

  const CONTINUATION: byte := 0x0
  const TEXT: byte := 0x1
  const BINARY: byte := 0x2
  const CLOSE: byte := 0x8
  const PING: byte := 0x9
  const PONG: byte := 0xA

  datatype Outcome = Message(data: seq<byte>) | Eof | Short | Unknown(opcode: byte) | WriteFailed | Panic

  datatype Reading = Reading(outcome: Outcome, rest: seq<byte>, sent: seq<byte>)

  predicate IsData(f: Frame) { f.opcode == CONTINUATION || f.opcode == TEXT || f.opcode == BINARY }

  function Sent(writable: bool, f: Frame, mask: Mask): seq<byte> {
    if writable then Encode(f, mask) else []
  }

  /** Read from a given input: `whole` is what earlier fragments left. */
  function ReadFrom(input: seq<byte>, whole: seq<byte>, mask: Mask, writable: bool): Reading
    decreases |input|
  {
    match Parse(input)
    case Ended => Reading(Short, [], [])
    case TooLong => Reading(Panic, [], [])
    case Got(f, rest) =>
      if f.opcode == PING then
        if !writable then Reading(WriteFailed, rest, [])
        else
          var next := ReadFrom(rest, whole, mask, writable);
          next.(sent := Encode(Frame(true, PONG, f.payload), mask) + next.sent)
      else if f.opcode == PONG then ReadFrom(rest, whole, mask, writable)
      else if f.opcode == CLOSE then Reading(Eof, rest, Sent(writable, Frame(true, CLOSE, []), mask))
      else if IsData(f) then
        if f.final then Reading(Message(whole + f.payload), rest, [])
        else ReadFrom(rest, whole + f.payload, mask, writable)
      else Reading(Unknown(f.opcode), rest, [])
  }

  /** One frame of a read. */
  lemma ReadOnce(input: seq<byte>, whole: seq<byte>, mask: Mask, writable: bool)
    ensures var p, r := Parse(input), ReadFrom(input, whole, mask, writable);
            && (p.Ended? ==> r == Reading(Short, [], []))
            && (p.TooLong? ==> r == Reading(Panic, [], []))
            && (p.Got? ==>
                  var skip, more := ReadFrom(p.rest, whole, mask, writable), ReadFrom(p.rest, whole + p.value.payload, mask, writable);
                  r == if p.value.opcode == PING then
                         if !writable then Reading(WriteFailed, p.rest, [])
                         else skip.(sent := Encode(Frame(true, PONG, p.value.payload), mask) + skip.sent)
                       else if p.value.opcode == PONG then skip
                       else if p.value.opcode == CLOSE then Reading(Eof, p.rest, Sent(writable, Frame(true, CLOSE, []), mask))
                       else if !IsData(p.value) then Reading(Unknown(p.value.opcode), p.rest, [])
                       else if p.value.final then Reading(Message(whole + p.value.payload), p.rest, [])
                       else more)
  {
    hide Parse, Encode;
  }

  /** An empty final frame on the wire, from a server and from a client. */
  lemma EmptyFrame(opcode: byte, rest: seq<byte>, key: seq<byte>)
    requires opcode < 16 && |key| == 4
    ensures Parse([0x80 + opcode, 0] + rest) == Got(Frame(true, opcode, []), rest)
    ensures Encode(Frame(true, opcode, []), Some(key)) == [0x80 + opcode, 0x80] + key
  {
    var f := Frame(true, opcode, []);
    FrameRoundTrip(f, None, rest);
    assert Encode(f, None) == [0x80 + opcode, 0];
    assert Unmask([], key) == [];
  }

  /** What each opcode does to a read, on a frame that is final and empty: 0x0 to 0x2 are data,
      0x8 ends it and is answered, 0x9 is answered by 0xA, 0xA is passed over, and no other is
      known. */
  lemma Opcodes(opcode: byte, rest: seq<byte>, whole: seq<byte>, key: seq<byte>)
    requires opcode < 16 && |key| == 4
    ensures var r, next := ReadFrom([0x80 + opcode, 0] + rest, whole, Some(key), true), ReadFrom(rest, whole, Some(key), true);
            r == if opcode <= 0x2 then Reading(Message(whole), rest, [])
                 else if opcode == 0x8 then Reading(Eof, rest, [0x88, 0x80] + key)
                 else if opcode == 0x9 then next.(sent := [0x8A, 0x80] + key + next.sent)
                 else if opcode == 0xA then next
                 else Reading(Unknown(opcode), rest, [])
  {
    EmptyFrame(opcode, rest, key);
    EmptyFrame(PONG, rest, key);
    EmptyFrame(CLOSE, rest, key);
    ReadOnce([0x80 + opcode, 0] + rest, whole, Some(key), true);
    assert whole + [] == whole;
    hide Parse, Encode, ReadFrom;
  }

  /** A message in fragments, with pings and pongs anywhere between them. */
  predicate IsMessage(frames: seq<Frame>) {
    && frames != [] && IsData(frames[|frames| - 1]) && frames[|frames| - 1].final
    && (forall i :: 0 <= i < |frames| ==> Sendable(frames[i]))
    && forall i :: 0 <= i < |frames| - 1 ==>
         frames[i].opcode == PING || frames[i].opcode == PONG || (IsData(frames[i]) && !frames[i].final)
  }

  function Wire(frames: seq<Frame>, masks: seq<Mask>): seq<byte>
    requires |frames| == |masks|
  {
    if frames == [] then [] else Encode(frames[0], masks[0]) + Wire(frames[1..], masks[1..])
  }

  function Data(frames: seq<Frame>): seq<byte> {
    if frames == [] then [] else (if IsData(frames[0]) then frames[0].payload else []) + Data(frames[1..])
  }

  /** One pong for each ping, in order, with the same payload. */
  function Pongs(frames: seq<Frame>, mask: Mask): seq<byte> {
    if frames == [] then []
    else (if frames[0].opcode == PING then Encode(Frame(true, PONG, frames[0].payload), mask) else []) + Pongs(frames[1..], mask)
  }

  /** What one frame at the front of the input does to a read. */
  lemma ReadStep(f: Frame, m: Mask, after: seq<byte>, whole: seq<byte>, mask: Mask)
    requires Sendable(f)
    ensures var r := ReadFrom(Encode(f, m) + after, whole, mask, true);
            var on := ReadFrom(after, if IsData(f) then whole + f.payload else whole, mask, true);
            && (f.opcode == PING ==> r == on.(sent := Encode(Frame(true, PONG, f.payload), mask) + on.sent))
            && (f.opcode == PONG ==> r == on)
            && (IsData(f) && !f.final ==> r == on)
            && (IsData(f) && f.final ==> r == Reading(Message(whole + f.payload), after, []))
  {
    hide Parse, Encode;
    FrameRoundTrip(f, m, after);
  }

  /** However a message is cut and interleaved, and whether or not its frames are
      masked, reading it gives the fragments joined, every ping answered once, and
      nothing after its last frame touched. */
  lemma {:induction false} MessageRoundTrip(frames: seq<Frame>, masks: seq<Mask>, whole: seq<byte>, rest: seq<byte>,
                                            mask: Mask)
    requires IsMessage(frames) && |masks| == |frames|
    ensures ReadFrom(Wire(frames, masks) + rest, whole, mask, true)
         == Reading(Message(whole + Data(frames)), rest, Pongs(frames, mask))
    decreases |frames|
  {
    hide ReadFrom, Encode, Wire, Data, Pongs;
    var f, later, after := frames[0], frames[1..], Wire(frames[1..], masks[1..]) + rest;
    FirstOnTheWire(frames, masks, rest, whole, mask);
    ReadStep(f, masks[0], after, whole, mask);
    if |frames| > 1 {
      assert later[|later| - 1] == frames[|frames| - 1];
      MessageRoundTrip(later, masks[1..], if IsData(f) then whole + f.payload else whole, rest, mask);
    }
  }

  /** A message's first frame, apart from the rest of it. */
  lemma FirstOnTheWire(frames: seq<Frame>, masks: seq<Mask>, rest: seq<byte>, whole: seq<byte>, mask: Mask)
    requires frames != [] && |masks| == |frames|
    ensures var f, later := frames[0], frames[1..];
            var sofar := if IsData(f) then whole + f.payload else whole;
            && Wire(frames, masks) + rest == Encode(f, masks[0]) + (Wire(later, masks[1..]) + rest)
            && whole + Data(frames) == sofar + Data(later)
            && Pongs(frames, mask) ==
               (if f.opcode == PING then Encode(Frame(true, PONG, f.payload), mask) + Pongs(later, mask) else Pongs(later, mask))
            && (|frames| == 1 ==>
                  Wire(later, masks[1..]) + rest == rest && sofar + Data(later) == sofar && Pongs(later, mask) == [])
  {
    hide Encode, Wire, Data, Pongs;
    FirstBytes(frames, masks, rest);
    FirstData(frames, whole);
    FirstPong(frames, mask);
  }

  lemma FirstBytes(frames: seq<Frame>, masks: seq<Mask>, rest: seq<byte>)
    requires frames != [] && |masks| == |frames|
    ensures var later := Wire(frames[1..], masks[1..]);
            && Wire(frames, masks) + rest == Encode(frames[0], masks[0]) + (later + rest)
            && (|frames| == 1 ==> later + rest == rest)
  {
    hide Encode;
  }

  lemma FirstData(frames: seq<Frame>, whole: seq<byte>)
    requires frames != []
    ensures var sofar := if IsData(frames[0]) then whole + frames[0].payload else whole;
            && whole + Data(frames) == sofar + Data(frames[1..])
            && (|frames| == 1 ==> sofar + Data(frames[1..]) == sofar)
  {
    var f, later := frames[0], Data(frames[1..]);
    assert Data(frames) == (if IsData(f) then f.payload else []) + later;
    hide Data, IsData;
    Regroup(whole, f.payload, later);
    assert [] + later == later;
    assert later == [] ==> whole + f.payload + later == whole + f.payload && whole + later == whole;
    NoFrames(frames[1..]);
  }

  lemma NoFrames(frames: seq<Frame>)
    ensures frames == [] ==> Data(frames) == []
  {
  }

  lemma Regroup(a: seq<byte>, b: seq<byte>, c: seq<byte>)
    ensures a + (b + c) == a + b + c
  {
  }

  lemma FirstPong(frames: seq<Frame>, mask: Mask)
    requires frames != []
    ensures var f, later := frames[0], Pongs(frames[1..], mask);
            && Pongs(frames, mask) == (if f.opcode == PING then Encode(Frame(true, PONG, f.payload), mask) + later else later)
            && (|frames| == 1 ==> later == [])
  {
    hide Encode;
    assert [] + Pongs(frames[1..], mask) == Pongs(frames[1..], mask);
  }

  // ----- the connection

  class Conn {
    const mask: seq<byte>
    /** Bytes not yet read, bytes written, and whether writes still succeed. */
    var input: seq<byte>
    var output: seq<byte>
    var writable: bool

    constructor (mask: seq<byte>, input: seq<byte>, writable: bool)
      requires |mask| == 4
      ensures this.mask == mask && this.input == input && this.output == [] && this.writable == writable
    {
      this.mask, this.input, this.output, this.writable := mask, input, [], writable;
    }

    method Write(opcode: byte, payload: seq<byte>) returns (ok: bool)
      requires |mask| == 4
      modifies this`output
      ensures ok == writable
      ensures ok ==> WroteFrame(old(output), output, opcode, payload, mask)
      ensures output == old(output) + Sent(writable, Frame(true, opcode, payload), Some(mask))
    {
      var head := Header(opcode, |payload|);
      var body := UnmaskInPlace(payload, mask);
      ok := writable;
      if ok {
        ghost var sent := Encode(Frame(true, opcode, payload), Some(mask));
        assert head + mask + body == sent;
        output := output + (head + mask + body);
        ClientFrame(opcode, payload, mask);
        assert output[|old(output)|..] == sent;
      }
    }

    /** Exactly `n` bytes; a short read takes what there is. */
    method ReadFull(n: nat) returns (r: Option<seq<byte>>)
      modifies this`input
      ensures r.Some? <==> n <= |old(input)|
      ensures r.Some? ==> r.value == old(input)[..n] && input == old(input)[n..]
      ensures r.None? ==> input == []
    {
      if |input| < n {
        input := [];
        return None;
      }
      r := Some(input[..n]);
      input := input[n..];
    }

    method ReadFrame() returns (r: Got<Frame>)
      modifies this`input
      ensures r == Parse(old(input))
      ensures r.Got? ==> input == r.rest
      ensures r.Ended? ==> input == []
      ensures r.Got? ==> forall b: nat :: b < 8 ==> (Bit(r.value.opcode, b) <==> b < 4 && Bit(old(input)[0], b))
      ensures r.Got? ==> (r.value.final <==> Bit(old(input)[0], 7)) && Declares(old(input), |r.value.payload|)
    {
      ghost var was := input;
      assert Parse(was).Got? ==>
               && (Parse(was).value.final <==> Bit(was[0], 7)) && Declares(was, |Parse(was).value.payload|)
               && forall b: nat :: b < 8 ==> (Bit(Parse(was).value.opcode, b) <==> b < 4 && Bit(was[0], b)) by {
        if Parse(was).Got? { FrameBits(was); }
      }
      var head := ReadFull(2);
      if head.None? { return Ended; }
      hide TopBit, Low4, Low7, FromBig, ParseBody;
      var final, opcode := TopBit(head.value[0]), Low4(head.value[0]);
      var masked, n7 := TopBit(head.value[1]), Low7(head.value[1]);
      var n: nat := n7;
      var wide := ReadFull(Wide(n7));
      if wide.None? { return Ended; }
      if n7 == 126 || n7 == 127 {
        n := FromBig(wide.value);
      }
      var body := ReadBody(masked, n);
      if body.Ended? { return Ended; }
      if body.TooLong? { return TooLong; }
      return Got(Frame(final, opcode, body.value), input);
    }

    /** The key, if there is one, and the payload. */
    method ReadBody(masked: bool, n: nat) returns (r: Got<seq<byte>>)
      modifies this`input
      ensures r == ParseBody(masked, n, old(input))
      ensures r.Got? ==> input == r.rest
      ensures r.Ended? ==> input == []
      ensures r.Got? && masked ==> |old(input)| >= n + 4 && Masked(r.value, old(input)[4..4 + n], old(input)[..4])
      ensures r.Got? && !masked ==> |old(input)| >= n && r.value == old(input)[..n]
    {
      hide Unmask, Masked;
      var mask := ReadFull(if masked then 4 else 0);
      if mask.None? { return Ended; }
      if n >= TOO_LONG { return TooLong; }
      var got := ReadFull(n);
      if got.None? { return Ended; }
      var payload := got.value;
      if masked {
        payload := UnmaskInPlace(got.value, mask.value);
        UnmaskMasks(got.value, mask.value);
        assert old(input)[4..][..n] == old(input)[4..4 + n];
      }
      return Got(payload, input);
    }

    /** Read: the next message, answering pings on the way. */
    method Read() returns (out: Outcome)
      requires |mask| == 4
      modifies this`input, this`output
      ensures var r := ReadFrom(old(input), [], Some(mask), writable);
              && out == r.outcome && output == old(output) + r.sent
              && (out != Panic ==> input == r.rest)
    {
      hide Parse, Encode, ReadFrom, WroteFrame, Declares, Bit;
      var whole: seq<byte> := [];
      ghost var all := ReadFrom(input, [], Some(mask), writable);
      ghost var sent: seq<byte> := [];
      while true
        invariant output == old(output) + sent
        invariant var next := ReadFrom(input, whole, Some(mask), writable);
                  all == Reading(next.outcome, next.rest, sent + next.sent)
        decreases |input|
      {
        ReadOnce(input, whole, Some(mask), writable);
        var r := ReadFrame();
        if r.Ended? { return Short; }
        if r.TooLong? { return Panic; }
        var f := r.value;
        if f.opcode == PING {
          var ok := Write(PONG, f.payload);
          if !ok { return WriteFailed; }
          ghost var pong := Encode(Frame(true, PONG, f.payload), Some(mask));
          Regroup(sent, pong, ReadFrom(input, whole, Some(mask), writable).sent);
          Regroup(old(output), sent, pong);
          sent := sent + pong;
        } else if f.opcode == PONG {
        } else if f.opcode == CLOSE {
          var _ := Write(CLOSE, []);
          return Eof;
        } else if IsData(f) {
          whole := whole + f.payload;
          if f.final { return Message(whole); }
        } else {
          return Unknown(f.opcode);
        }
      }
    }
  }

  /** The bytes before the key: opcode, and the shortest length that will do. */
  method Header(opcode: byte, n: nat) returns (head: seq<byte>)
    ensures head == [Head0(true, opcode), Head1(true, Length7(n))] + Extended(n)
  {
    hide Big;
    head := [SetTop(opcode)];
    if n < 126 {
      head := head + [SetTop(n)];
    } else if n < 0x1_0000 {
      Low16(n);
      head := head + [SetTop(126), n / 256 % 256, n % 256];
    } else {
      head := head + [SetTop(127)] + Big(n, 8);
    }
  }

  lemma Low16(n: nat)
    ensures Big(n, 2) == [n / 256 % 256, n % 256]
  {
    assert Big(n / 256, 1) == Big(n / 256 / 256, 0) + [n / 256 % 256];
  }

  method UnmaskInPlace(payload: seq<byte>, mask: seq<byte>) returns (r: seq<byte>)
    requires |mask| == 4
    ensures r == Unmask(payload, mask) && Masked(r, payload, mask)
  {
    UnmaskMasks(payload, mask);
    hide Masked;
    var a := new byte[|payload|](i requires 0 <= i < |payload| => payload[i]);
    for i := 0 to a.Length
      invariant forall k :: 0 <= k < i ==> a[k] == Xor(payload[k], mask[k % 4])
      invariant forall k :: i <= k < a.Length ==> a[k] == payload[k]
    {
      a[i] := Xor(a[i], mask[i % 4]);
    }
    r := a[..];
  }
}
