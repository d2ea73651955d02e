/** A peer that keeps to RFC 6455, as the bytes it sends: whole messages, cut into frames as it likes, control
    frames between them, and an end. Opcodes are written as the numbers of section 5.2. */
module WsPeer {
  import opened Wrappers
  import opened WsFrames

  /** A message, in the parts it is sent in. */
  datatype Sent = Sent(text: bool, parts: seq<seq<Byte>>)

  /** The stream breaks off inside a frame, or a close frame comes and whatever follows it. */
  datatype Ending = BreaksOff(frame: Frame, size: nat) | Closes(payload: seq<Byte>, after: seq<Byte>)

  datatype Peer = Peer(messages: seq<Sent>, frames: seq<Frame>, ending: Ending)

  // -- frames as bytes --

  function LengthBytes(n: nat): seq<Byte> {
    if n < 126 then [n] else if n < 65536 then [126, n / 256, n % 256] else [127] + seq(8, i requires 0 <= i < 8 => n / Pow(7 - i) % 256)
  }

  predicate Fits(f: Frame, maxSize: nat) {
    && f.opcode < 16 && |f.payload| <= maxSize && |f.payload| < Pow(8)
    && (f.opcode >= 8 ==> f.final && |f.payload| <= 125)
  }

  function Wire(f: Frame): seq<Byte>
    requires f.opcode < 16
  {
    [(if f.final then 128 else 0) + f.opcode] + LengthBytes(|f.payload|) + f.payload
  }

  function Wires(fs: seq<Frame>): seq<Byte>
    requires forall i :: 0 <= i < |fs| ==> fs[i].opcode < 16
  {
    if fs == [] then [] else Wire(fs[0]) + Wires(fs[1..])
  }

  // -- messages as frames --

  /** One frame a part: the first names the kind, the others continue it, the last is final. */
  function FramesOf(m: Sent): seq<Frame> {
    seq(|m.parts|, i requires 0 <= i < |m.parts| =>
      Frame(i == |m.parts| - 1, if i > 0 then 0 else if m.text then 1 else 2, m.parts[i]))
  }

  function AllFrames(ms: seq<Sent>): seq<Frame> {
    if ms == [] then [] else AllFrames(ms[..|ms| - 1]) + FramesOf(ms[|ms| - 1])
  }

  function Joined(parts: seq<seq<Byte>>): seq<Byte> {
    if parts == [] then [] else Joined(parts[..|parts| - 1]) + parts[|parts| - 1]
  }

  /** The frames that are neither pings nor pongs. */
  function Others(fs: seq<Frame>): seq<Frame> {
    if fs == [] then []
    else Others(fs[..|fs| - 1]) + if fs[|fs| - 1].opcode == 9 || fs[|fs| - 1].opcode == 10 then [] else [fs[|fs| - 1]]
  }

  predicate Proper(e: Ending, maxSize: nat) {
    match e
    case BreaksOff(f, n) => Fits(f, maxSize) && n < |Wire(f)|
    case Closes(payload, _) => |payload| <= 125 && |payload| <= maxSize
  }

  /** Pings and pongs come anywhere between the frames of the messages, which come in order; every message is
      within the client's limit, and its text decodes. */
  ghost predicate Legal(p: Peer, maxSize: nat, utf8: seq<Byte> -> bool) {
    && Others(p.frames) == AllFrames(p.messages)
    && (forall i :: 0 <= i < |p.frames| ==> Fits(p.frames[i], maxSize))
    && (forall m <- p.messages :: m.parts != [] && |Joined(m.parts)| <= maxSize && (m.text ==> utf8(Joined(m.parts))))
    && Proper(p.ending, maxSize)
  }

  function EndBytes(e: Ending): seq<Byte>
    requires if e.BreaksOff? then e.frame.opcode < 16 && e.size < |Wire(e.frame)| else |e.payload| <= 125
  {
    match e
    case BreaksOff(f, n) => Wire(f)[..n]
    case Closes(payload, after) => [136, |payload|] + payload + after
  }

  ghost function Bytes(p: Peer, maxSize: nat, utf8: seq<Byte> -> bool): seq<Byte>
    requires Legal(p, maxSize, utf8)
  {
    Wires(p.frames) + EndBytes(p.ending)
  }

  /** Lost connections close with 1006. A close frame's code is its first two bytes; none, or 1005, reads as 1000. */
  function EndsWith(e: Ending): nat {
    match e
    case BreaksOff(_, _) => 1006
    case Closes(payload, _) =>
      if |payload| < 2 then 1000 else
      var code := payload[0] as nat * 256 + payload[1];
      if code == 1005 then 1000 else code
  }

  /** What the client owes the peer: a pong with the payload of each ping, in order, and the echo of a close. */
  function Pongs(fs: seq<Frame>): seq<(nat, seq<Byte>)> {
    if fs == [] then []
    else Pongs(fs[..|fs| - 1]) + if fs[|fs| - 1].opcode == 9 then [(10, fs[|fs| - 1].payload)] else []
  }

  function Echo(e: Ending): seq<(nat, seq<Byte>)> {
    if e.BreaksOff? then [] else if |e.payload| < 2 then [(8, e.payload)] else [(8, [e.payload[0], e.payload[1]])]
  }

  // -- the client reads a peer's frames back --

  lemma LengthsAre(n: nat)
    requires n < Pow(8)
    ensures LengthBytes(n) == if n < 126 then [n] else if n < 65536 then [126] + ToBig(n, 2) else [127] + ToBig(n, 8)
  {
    PowValues();
    if 126 <= n < 65536 { TwoBytes(n); } else if n >= 65536 { EightBytes(n); }
  }

  lemma TwoBytes(n: nat)
    requires n < 65536
    ensures [126, n / 256, n % 256] == [126] + ToBig(n, 2)
  {
    assert Pow(0) == 1 && Pow(1) == 256;
    BigEndian(n, 2, 0);
    BigEndian(n, 2, 1);
  }

  lemma EightBytes(n: nat)
    ensures seq(8, i requires 0 <= i < 8 => n / Pow(7 - i) % 256) == ToBig(n, 8)
  {
    forall i | 0 <= i < 8
      ensures ToBig(n, 8)[i] == n / Pow(7 - i) % 256
    {
      BigEndian(n, 8, i);
    }
  }

  function FirstByte(f: Frame): Byte
    requires f.opcode < 16
  {
    (if f.final then 128 else 0) + f.opcode
  }

  lemma Regroup(x: Byte, y: Byte, b: seq<Byte>, p: seq<Byte>, r: seq<Byte>)
    ensures [x] + ([y] + b) + p + r == [x, y] + b + (p + r)
  {
  }

  lemma ShortStart(x: Byte, n: Byte, p: seq<Byte>, r: seq<Byte>)
    requires n < 126
    ensures ReadStart([x] + [n] + p + r) == Start(x, n, n, p + r)
  {
    assert ([x] + [n] + p + r)[2..] == p + r;
  }

  lemma LongStart(x: Byte, n: nat, mark: Byte, size: nat, p: seq<Byte>, r: seq<Byte>)
    requires n < Pow(size) && ((mark == 126 && size == 2) || (mark == 127 && size == 8))
    ensures ReadStart([x] + ([mark] + ToBig(n, size)) + p + r) == Start(x, mark, n, p + r)
  {
    Regroup(x, mark, ToBig(n, size), p, r);
    StartOfLong(x, 0, n, mark, size, p + r);
  }

  lemma StartOfWire(f: Frame, rest: seq<Byte>, maxSize: nat)
    requires Fits(f, maxSize)
    ensures ReadStart(Wire(f) + rest) == Start(FirstByte(f), LengthBytes(|f.payload|)[0], |f.payload|, f.payload + rest)
    ensures LengthBytes(|f.payload|)[0] < 128
  {
    var n := |f.payload|;
    LengthsAre(n);
    PowValues();
    if n < 126 { ShortStart(FirstByte(f), n, f.payload, rest); }
    else if n < 65536 { LongStart(FirstByte(f), n, 126, 2, f.payload, rest); }
    else { LongStart(FirstByte(f), n, 127, 8, f.payload, rest); }
  }

  lemma ReadBack(f: Frame, rest: seq<Byte>, maxSize: nat)
    requires Fits(f, maxSize)
    ensures ClientRead(Wire(f) + rest, maxSize) == Got(f, rest)
  {
    StartOfWire(f, rest, maxSize);
    var bytes, tail := Wire(f) + rest, f.payload + rest;
    assert bytes[0] == FirstByte(f) && bytes[1] == LengthBytes(|f.payload|)[0];
    assert tail[..|f.payload|] == f.payload && tail[|f.payload|..] == rest;
  }

  /** The server reads an unmasked frame as the client does. */
  lemma ReadBackByServer(f: Frame, rest: seq<Byte>)
    requires Fits(f, MAX_BODY)
    ensures ServerRead(Wire(f) + rest) == Got(f, rest)
  {
    StartOfWire(f, rest, MAX_BODY);
    MaskNothing(f.payload);
    var tail := f.payload + rest;
    assert tail[..|f.payload|] == f.payload && tail[|f.payload|..] == rest;
  }

  /** A frame that breaks off is lost. */
  lemma CutOff(bytes: seq<Byte>, n: nat, maxSize: nat)
    requires ClientRead(bytes, maxSize).Got? && ClientRead(bytes, maxSize).rest == [] && n < |bytes|
    ensures ClientRead(bytes[..n], maxSize) == Lost
  {
    var cut := bytes[..n];
    if n >= 2 {
      assert cut[0] == bytes[0] && cut[1] == bytes[1];
      var s, t := ReadStart(bytes), ReadStart(cut);
      if t.Start? {
        var h := n - |t.rest|;
        assert cut[2..h] == bytes[2..h];
        assert t.length == s.length;
      }
    }
  }
}
