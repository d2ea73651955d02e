/** WebSocket frames (RFC 6455, section 5.2) as both ends of the repository write and read them. */
module WsFrames {

  type Byte = n: nat | n < 256

  const CONTINUATION := 0
  const TEXT := 1
  const BINARY := 2
  const CLOSE := 8
  const PING := 9
  const PONG := 10

  // -- big integers as bytes --

  function Pow(n: nat): (p: nat)
    ensures p > 0
  {
    if n == 0 then 1 else 256 * Pow(n - 1)
  }

  function FromLittle(b: seq<Byte>): nat {
    if b == [] then 0 else b[0] + 256 * FromLittle(b[1..])
  }

  function ToLittle(v: nat, n: nat): (b: seq<Byte>)
    ensures |b| == n
  {
    if n == 0 then [] else [v % 256] + ToLittle(v / 256, n - 1)
  }

  function FromBig(b: seq<Byte>): nat {
    if b == [] then 0 else 256 * FromBig(b[..|b| - 1]) + b[|b| - 1]
  }

  function ToBig(v: nat, n: nat): (b: seq<Byte>)
    ensures |b| == n
  {
    if n == 0 then [] else ToBig(v / 256, n - 1) + [v % 256]
  }

  lemma {:induction false} BigRoundTrip(v: nat, n: nat)
    requires v < Pow(n)
    ensures FromBig(ToBig(v, n)) == v
  {
    if n > 0 {
      BigRoundTrip(v / 256, n - 1);
      assert ToBig(v, n)[..n - 1] == ToBig(v / 256, n - 1);
    }
  }

  lemma DivideTwice(v: nat, p: nat)
    requires p > 0
    ensures v / 256 / p == v / (256 * p)
  {
    var q, r := v / 256 / p, v / 256 % p;
    var low := v % 256;
    assert v == 256 * (p * q + r) + low;
    assert v == (256 * p) * q + (256 * r + low);
    assert 256 * r + low < 256 * p;
    QuotientIs(v, 256 * p, q, 256 * r + low);
  }

  lemma {:induction false} TimesMore(d: nat, a: nat, b: nat)
    requires a < b
    ensures d * a + d <= d * b
  {
    var k := b - a - 1;
    assert d * (a + 1 + k) == d * a + d + d * k;
  }

  lemma QuotientIs(v: nat, d: nat, q: nat, r: nat)
    requires d > 0 && v == d * q + r && r < d
    ensures v / d == q
  {
    var found := v / d;
    var left := v % d;
    assert v == d * found + left && left < d;
    if found < q { TimesMore(d, found, q); }
    if q < found { TimesMore(d, q, found); }
  }

  /** Network byte order: the most significant byte first. */
  lemma {:induction false} BigEndian(v: nat, n: nat, i: nat)
    requires i < n
    ensures ToBig(v, n)[i] == v / Pow(n - 1 - i) % 256
  {
    if i < n - 1 {
      BigEndian(v / 256, n - 1, i);
      DivideTwice(v, Pow(n - 2 - i));
    }
  }

  // -- exclusive or --

  function Xor(a: nat, b: nat): nat
    decreases a + b
  {
    if a == 0 && b == 0 then 0
    else (if a % 2 != b % 2 then 1 else 0) + 2 * Xor(a / 2, b / 2)
  }

  /** `a` shifted left by `k` bits. */
  function Shift(k: nat, a: nat): nat {
    if k == 0 then a else 2 * Shift(k - 1, a)
  }

  /** Low bits and high bits combine independently. */
  lemma {:induction false} XorSplit(k: nat, x: nat, y: nat, a: nat, b: nat)
    requires x < Shift(k, 1) && y < Shift(k, 1)
    ensures Xor(x, y) < Shift(k, 1)
    ensures Xor(x + Shift(k, a), y + Shift(k, b)) == Xor(x, y) + Shift(k, Xor(a, b))
  {
    if k > 0 {
      XorSplit(k - 1, x / 2, y / 2, a, b);
      XorHalves(x, y, Shift(k - 1, a), Shift(k - 1, b));
    }
  }

  lemma XorHalves(x: nat, y: nat, ta: nat, tb: nat)
    ensures Xor(x + 2 * ta, y + 2 * tb) == (if x % 2 != y % 2 then 1 else 0) + 2 * Xor(x / 2 + ta, y / 2 + tb)
    ensures Xor(x, y) == (if x % 2 != y % 2 then 1 else 0) + 2 * Xor(x / 2, y / 2)
  {
    XorUnfold(x + 2 * ta, y + 2 * tb);
    XorUnfold(x, y);
  }

  lemma XorUnfold(a: nat, b: nat)
    ensures Xor(a, b) == (if a % 2 != b % 2 then 1 else 0) + 2 * Xor(a / 2, b / 2)
  {
  }

  lemma {:induction false} XorTwice(x: nat, m: nat)
    ensures Xor(Xor(x, m), m) == x
    decreases x + m
  {
    if x != 0 || m != 0 {
      XorTwice(x / 2, m / 2);
      var z := Xor(x, m);
      XorUnfold(x, m);
      assert z / 2 == Xor(x / 2, m / 2) && z % 2 == if x % 2 != m % 2 then 1 else 0;
      XorUnfold(z, m);
    }
  }

  lemma {:induction false} XorZero(x: nat)
    ensures Xor(x, 0) == x
  {
    if x != 0 { XorZero(x / 2); }
  }

  lemma ShiftEight(a: nat)
    ensures Shift(8, a) == 256 * a
  {
    assert Shift(1, a) == 2 * a;
    assert Shift(2, a) == 2 * Shift(1, a);
    assert Shift(3, a) == 2 * Shift(2, a);
    assert Shift(4, a) == 2 * Shift(3, a);
    assert Shift(5, a) == 2 * Shift(4, a);
    assert Shift(6, a) == 2 * Shift(5, a);
    assert Shift(7, a) == 2 * Shift(6, a);
  }

  function XorByte(a: Byte, b: Byte): (r: Byte) {
    ShiftEight(1);
    XorSplit(8, a, b, 0, 0);
    Xor(a, b)
  }

  lemma XorLowByte(x: Byte, y: Byte, a: nat, b: nat)
    ensures Xor(x + 256 * a, y + 256 * b) == XorByte(x, y) + 256 * Xor(a, b)
  {
    ShiftEight(1);
    ShiftEight(a);
    ShiftEight(b);
    ShiftEight(Xor(a, b));
    XorSplit(8, x, y, a, b);
  }

  /** The exclusive or of two equally long little-endian integers fits their length, and is the
      exclusive or of their bytes. */
  lemma {:induction false} XorBytes(p: seq<Byte>, q: seq<Byte>)
    requires |p| == |q|
    ensures Xor(FromLittle(p), FromLittle(q)) < Pow(|p|)
    ensures forall i :: 0 <= i < |p| ==> ToLittle(Xor(FromLittle(p), FromLittle(q)), |p|)[i] == XorByte(p[i], q[i])
  {
    if p != [] {
      XorBytes(p[1..], q[1..]);
      XorLowByte(p[0], q[0], FromLittle(p[1..]), FromLittle(q[1..]));
      var low, hi := XorByte(p[0], q[0]), Xor(FromLittle(p[1..]), FromLittle(q[1..]));
      ToLittleSplit(low, hi, |p|);
      forall i | 0 <= i < |p|
        ensures ([low] + ToLittle(hi, |p| - 1))[i] == XorByte(p[i], q[i])
      {
      }
    }
  }

  lemma ToLittleSplit(low: Byte, hi: nat, n: nat)
    requires n > 0
    ensures ToLittle(low + 256 * hi, n) == [low] + ToLittle(hi, n - 1)
  {
    assert (low + 256 * hi) % 256 == low && (low + 256 * hi) / 256 == hi;
  }

  // -- masking --

  function Repeat(mask: seq<Byte>, k: nat): seq<Byte> {
    if k == 0 then [] else mask + Repeat(mask, k - 1)
  }

  lemma {:induction false} RepeatAt(mask: seq<Byte>, k: nat, i: nat)
    requires |mask| == 4 && i < 4 * k
    ensures |Repeat(mask, k)| == 4 * k && Repeat(mask, k)[i] == mask[i % 4]
  {
    RepeatSize(mask, k);
    RepeatSize(mask, k - 1);
    if i >= 4 {
      RepeatAt(mask, k - 1, i - 4);
    }
  }

  lemma {:induction false} RepeatSize(mask: seq<Byte>, k: nat)
    requires |mask| == 4
    ensures |Repeat(mask, k)| == 4 * k
  {
    if k > 0 {
      RepeatSize(mask, k - 1);
    }
  }

  /** One exclusive or of two big integers, as the client masks and the server unmasks. */
  function Mask(payload: seq<Byte>, mask: seq<Byte>): (r: seq<Byte>)
    requires |mask| == 4
    ensures |r| == |payload|
  {
    var n := |payload|;
    RepeatSize(mask, n / 4 + 1);
    var repeated := Repeat(mask, n / 4 + 1)[..n];
    ToLittle(Xor(FromLittle(payload), FromLittle(repeated)), n)
  }

  /** The big-integer form is the byte-wise one of RFC 6455, section 5.3. */
  lemma MaskIsBytewise(payload: seq<Byte>, mask: seq<Byte>)
    requires |mask| == 4
    ensures forall i :: 0 <= i < |payload| ==> Mask(payload, mask)[i] == XorByte(payload[i], mask[i % 4])
  {
    var n := |payload|;
    RepeatSize(mask, n / 4 + 1);
    var repeated := Repeat(mask, n / 4 + 1)[..n];
    XorBytes(payload, repeated);
    forall i | 0 <= i < n
      ensures repeated[i] == mask[i % 4]
    {
      RepeatAt(mask, n / 4 + 1, i);
    }
  }

  lemma MaskTwice(payload: seq<Byte>, mask: seq<Byte>)
    requires |mask| == 4
    ensures Mask(Mask(payload, mask), mask) == payload
  {
    MaskIsBytewise(payload, mask);
    MaskIsBytewise(Mask(payload, mask), mask);
    forall i | 0 <= i < |payload|
      ensures Mask(Mask(payload, mask), mask)[i] == payload[i]
    {
      XorTwice(payload[i], mask[i % 4]);
    }
  }

  // -- writing frames --

  /** `maskBit` is 128 on the client's side and 0 on the server's. */
  function Header(opcode: nat, maskBit: nat, length: nat): seq<Byte>
    requires opcode < 16 && (maskBit == 0 || maskBit == 128) && length < Pow(8)
  {
    if length < 126 then [128 + opcode, maskBit + length]
    else if length < 65536 then [128 + opcode, maskBit + 126] + ToBig(length, 2)
    else [128 + opcode, maskBit + 127] + ToBig(length, 8)
  }

  function ClientFrame(opcode: nat, payload: seq<Byte>, mask: seq<Byte>): seq<Byte>
    requires opcode < 16 && |mask| == 4 && |payload| < Pow(8)
  {
    Header(opcode, 128, |payload|) + mask + Mask(payload, mask)
  }

  function ServerFrame(opcode: nat, payload: seq<Byte>): seq<Byte>
    requires opcode < 16 && |payload| < Pow(8)
  {
    Header(opcode, 0, |payload|) + payload
  }

  // -- reading frames from a stream of bytes --

  datatype Frame = Frame(final: bool, opcode: nat, payload: seq<Byte>)

  datatype Read =
    | Got(frame: Frame, rest: seq<Byte>)
    | Lost       // the stream ended inside the frame
    | Violation
    | TooBig

  /** The first two bytes, and the length after its extension. */
  datatype Start = Start(first: Byte, second: Byte, length: nat, rest: seq<Byte>) | NoStart

  function ReadStart(bytes: seq<Byte>): (s: Start)
    ensures s.Start? ==> |s.rest| + 2 <= |bytes|
  {
    if |bytes| < 2 then NoStart else
    var n := bytes[1] % 128;
    var extra := if n == 126 then 2 else if n == 127 then 8 else 0;
    if |bytes| < 2 + extra then NoStart
    else Start(bytes[0], bytes[1], if extra == 0 then n else FromBig(bytes[2..2 + extra]), bytes[2 + extra..])
  }

  /** The client's reader. Bits are read with division: 0x70 is `/ 16 % 8`, 0x0f is `% 16`. */
  function ClientRead(bytes: seq<Byte>, maxSize: nat): (r: Read)
    ensures r.Got? ==> |r.rest| < |bytes| && r.frame.opcode < 16
  {
    if |bytes| < 2 then Lost
    else if bytes[0] / 16 % 8 != 0 then Violation
    else if bytes[1] >= 128 then Violation
    else
      var s := ReadStart(bytes);
      if s.NoStart? then Lost else
      var opcode := s.first % 16;
      if opcode >= CLOSE && (s.length > 125 || s.first < 128) then Violation
      else if s.length > maxSize then TooBig
      else if |s.rest| < s.length then Lost
      else Got(Frame(s.first >= 128, opcode, s.rest[..s.length]), s.rest[s.length..])
  }

  /** A frame that the client takes: no reserved bit, no mask, control frames short and unfragmented, and the
      payload of the announced length after the header. */
  lemma ClientReadMeans(bytes: seq<Byte>, maxSize: nat)
    ensures |bytes| >= 2 && (bytes[0] % 128 >= 16 || bytes[1] >= 128) ==> ClientRead(bytes, maxSize) == Violation
    ensures ClientRead(bytes, maxSize).Got? ==>
              var f, rest := ClientRead(bytes, maxSize).frame, ClientRead(bytes, maxSize).rest;
              var h := if bytes[1] < 126 then 2 else if bytes[1] == 126 then 4 else 10;
              && bytes[0] % 128 < 16 && bytes[1] < 128
              && f.final == (bytes[0] >= 128) && f.opcode == bytes[0] % 16
              && (f.opcode >= 8 ==> f.final && |f.payload| <= 125) && |f.payload| <= maxSize
              && |bytes| >= h && bytes[h..] == f.payload + rest
              && (bytes[1] < 126 ==> |f.payload| == bytes[1])
              && (bytes[1] == 126 ==> |f.payload| == bytes[2] as nat * 256 + bytes[3])
  {
    var r := ClientRead(bytes, maxSize);
    if r.Got? && bytes[1] == 126 {
      var b := bytes[2..4];
      assert b[..1] == [bytes[2]] && b[..1][..0] == [];
      assert FromBig(b[..1]) == bytes[2];
    }
  }

  const MAX_BODY := 256 * 1024 * 1024

  /** The server's reader: it accepts masked and unmasked frames and no reserved-bit check. */
  function ServerRead(bytes: seq<Byte>): (r: Read)
    ensures r.Got? ==> |r.rest| < |bytes| && r.frame.opcode < 16 && |r.frame.payload| <= 268435456
  {
    var s := ReadStart(bytes);
    if s.NoStart? then Lost
    else if s.length > MAX_BODY then TooBig
    else ServerBody(s)
  }

  /** The mask, when there is one, and the unmasked payload. */
  function ServerBody(s: Start): (r: Read)
    requires s.Start?
    ensures r.Got? ==> |r.rest| <= |s.rest| && r.frame.opcode < 16 && |r.frame.payload| == s.length
  {
    if s.second >= 128 && |s.rest| < 4 then Lost
    else
      var mask: seq<Byte> := if s.second >= 128 then s.rest[..4] else [0, 0, 0, 0];
      var body := if s.second >= 128 then s.rest[4..] else s.rest;
      if |body| < s.length then Lost
      else Got(Frame(s.first >= 128, s.first % 16, Mask(body[..s.length], mask)), body[s.length..])
  }

  lemma PowValues()
    ensures Pow(2) == 65536 && Pow(4) == 4294967296 && Pow(8) == 18446744073709551616
  {
    assert Pow(1) == 256;
    assert Pow(3) == 16777216;
    assert Pow(5) == 256 * Pow(4) && Pow(6) == 256 * Pow(5) && Pow(7) == 256 * Pow(6);
  }

  lemma StartOfHeader(opcode: nat, maskBit: nat, length: nat, rest: seq<Byte>)
    requires opcode < 16 && (maskBit == 0 || maskBit == 128) && length < Pow(8)
    ensures var s := ReadStart(Header(opcode, maskBit, length) + rest);
            s.Start? && s.first == 128 + opcode && s.second >= maskBit && s.second < maskBit + 128 &&
            s.length == length && s.rest == rest
  {
    PowValues();
    if length < 126 {
      assert (Header(opcode, maskBit, length) + rest)[2..] == rest;
    } else if length < 65536 {
      StartOfLong(128 + opcode, maskBit, length, 126, 2, rest);
    } else {
      StartOfLong(128 + opcode, maskBit, length, 127, 8, rest);
    }
  }

  lemma StartOfLong(first: Byte, maskBit: nat, length: nat, mark: nat, size: nat, rest: seq<Byte>)
    requires (maskBit == 0 || maskBit == 128) && length < Pow(size)
    requires (mark == 126 && size == 2) || (mark == 127 && size == 8)
    ensures ReadStart([first, maskBit + mark] + ToBig(length, size) + rest) == Start(first, maskBit + mark, length, rest)
  {
    var bytes := [first, maskBit + mark] + ToBig(length, size) + rest;
    BigRoundTrip(length, size);
    assert bytes[2..2 + size] == ToBig(length, size) && bytes[2 + size..] == rest;
    assert bytes[1] % 128 == mark;
  }

  /** What the client sends, the server reads back, and no byte more. */
  lemma ClientToServer(opcode: nat, payload: seq<Byte>, mask: seq<Byte>, rest: seq<Byte>)
    requires opcode < 16 && |mask| == 4 && |payload| <= MAX_BODY && |payload| < Pow(8)
    ensures ServerRead(ClientFrame(opcode, payload, mask) + rest) == Got(Frame(true, opcode, payload), rest)
  {
    var masked := Mask(payload, mask);
    var tail := mask + masked + rest;
    Regrouped(Header(opcode, 128, |payload|), mask, masked, rest);
    StartOfHeader(opcode, 128, |payload|, tail);
    MaskedBody(ReadStart(Header(opcode, 128, |payload|) + tail), masked, mask, rest);
    MaskTwice(payload, mask);
  }

  lemma Regrouped(header: seq<Byte>, mask: seq<Byte>, masked: seq<Byte>, rest: seq<Byte>)
    ensures header + mask + masked + rest == header + (mask + masked + rest)
  {
  }

  lemma MaskedBody(s: Start, masked: seq<Byte>, mask: seq<Byte>, rest: seq<Byte>)
    requires s.Start? && s.first >= 128 && s.second >= 128 && s.length == |masked|
    requires |mask| == 4 && s.rest == mask + masked + rest
    ensures ServerBody(s) == Got(Frame(true, s.first % 16, Mask(masked, mask)), rest)
  {
    assert s.rest[..4] == mask && s.rest[4..] == masked + rest;
    var body := masked + rest;
    assert body[..|masked|] == masked && body[|masked|..] == rest;
  }

  /** What the server sends, the client reads back, within its size limit and the rules for control frames. */
  lemma ServerToClient(opcode: nat, payload: seq<Byte>, rest: seq<Byte>, maxSize: nat)
    requires opcode < 16 && |payload| <= maxSize && |payload| < Pow(8)
    requires opcode >= CLOSE ==> |payload| <= 125
    ensures ClientRead(ServerFrame(opcode, payload) + rest, maxSize) == Got(Frame(true, opcode, payload), rest)
  {
    var tail := payload + rest;
    var bytes := ServerFrame(opcode, payload) + rest;
    assert bytes == Header(opcode, 0, |payload|) + tail;
    StartOfHeader(opcode, 0, |payload|, tail);
    assert bytes[0] == 128 + opcode;
    assert tail[..|payload|] == payload && tail[|payload|..] == rest;
  }

  /** An unmasked payload reads as it is. */
  lemma MaskNothing(payload: seq<Byte>)
    ensures Mask(payload, [0, 0, 0, 0]) == payload
  {
    MaskIsBytewise(payload, [0, 0, 0, 0]);
    forall i | 0 <= i < |payload|
      ensures Mask(payload, [0, 0, 0, 0])[i] == payload[i]
    {
      XorZero(payload[i]);
    }
  }
}
