/** The client's read loop: reassembling messages from frames (RFC 6455, sections 5.4 and 5.5). */
module WsReader {
  import opened Wrappers
  import opened WsFrames
  import opened WsPeer

  const NORMAL := 1000
  const PROTOCOL_ERROR := 1002
  const NO_CODE := 1005
  const ABNORMAL := 1006
  const BAD_SIZE := 1009

  /** What the application receives: messages, then why the connection closed. */
  datatype Item = Message(text: bool, data: seq<Byte>) | Closed(code: nat)

  predicate IsControl(f: Frame) {
    f.opcode == PING || f.opcode == PONG
  }

  predicate IsStart(f: Frame) {
    f.opcode == TEXT || f.opcode == BINARY
  }

  predicate IsData(f: Frame) {
    IsStart(f) || f.opcode == CONTINUATION
  }

  /** The frames of a stream up to where it ends or stops being well formed. */
  datatype Stream = Stream(frames: seq<Frame>, end: Read)

  function Frames(bytes: seq<Byte>, maxSize: nat): (s: Stream)
    ensures !s.end.Got?
    decreases |bytes|
  {
    var r := ClientRead(bytes, maxSize);
    if r.Got? then
      var s := Frames(r.rest, maxSize);
      Stream([r.frame] + s.frames, s.end)
    else Stream([], r)
  }

  /** Pings and pongs may appear anywhere, inside fragmented messages too. */
  function Data(fs: seq<Frame>): seq<Frame> {
    if fs == [] then []
    else Data(fs[..|fs| - 1]) + if IsControl(fs[|fs| - 1]) then [] else [fs[|fs| - 1]]
  }

  function Pings(fs: seq<Frame>): seq<(nat, seq<Byte>)> {
    if fs == [] then []
    else Pings(fs[..|fs| - 1]) + if fs[|fs| - 1].opcode == PING then [(PONG, fs[|fs| - 1].payload)] else []
  }

  // -- what a fragmented message is --

  /** Frames of one message so far: a start frame, then continuations. */
  predicate Fragments(g: seq<Frame>) {
    |g| > 0 && IsStart(g[0]) && forall i :: 0 < i < |g| ==> g[i].opcode == CONTINUATION
  }

  /** No fragment yet, or none of them final. */
  predicate Open(g: seq<Frame>) {
    g == [] || (Fragments(g) && forall i :: 0 <= i < |g| ==> !g[i].final)
  }

  /** All fragments of a message: the last one, and only it, is final. */
  predicate Whole(g: seq<Frame>) {
    Fragments(g) && g[|g| - 1].final && forall i :: 0 <= i < |g| - 1 ==> !g[i].final
  }

  function Payload(g: seq<Frame>): seq<Byte> {
    if g == [] then [] else Payload(g[..|g| - 1]) + g[|g| - 1].payload
  }

  function Flatten(gs: seq<seq<Frame>>): seq<Frame> {
    if gs == [] then [] else Flatten(gs[..|gs| - 1]) + gs[|gs| - 1]
  }

  function MessageOf(g: seq<Frame>): Item
    requires |g| > 0
  {
    Message(g[0].opcode == TEXT, Payload(g))
  }

  function Messages(gs: seq<seq<Frame>>): seq<Item>
    requires forall i :: 0 <= i < |gs| ==> |gs[i]| > 0
  {
    seq(|gs|, i requires 0 <= i < |gs| => MessageOf(gs[i]))
  }

  /** A message within the limit, and valid UTF-8 when it is text. */
  predicate Acceptable(g: seq<Frame>, maxSize: nat, utf8: seq<Byte> -> bool) {
    |g| > 0 && |Payload(g)| <= maxSize && (g[0].opcode == TEXT ==> utf8(Payload(g)))
  }

  /** `fs` is exactly these whole messages and an unfinished one, control frames apart. */
  ghost predicate Reassembles(fs: seq<Frame>, gs: seq<seq<Frame>>, open: seq<Frame>) {
    && Data(fs) == Flatten(gs) + open
    && (forall i :: 0 <= i < |gs| ==> Whole(gs[i]))
    && Open(open)
  }

  ghost predicate Delivers(fs: seq<Frame>, gs: seq<seq<Frame>>, open: seq<Frame>, maxSize: nat, utf8: seq<Byte> -> bool) {
    && Reassembles(fs, gs, open)
    && (forall i :: 0 <= i < |gs| ==> Acceptable(gs[i], maxSize, utf8))
    && |Payload(open)| <= maxSize
  }

  /** The code a close frame carries; no code, or the reserved 1005, reads as a normal closure. */
  function CloseCode(payload: seq<Byte>): nat {
    if |payload| < 2 || FromBig(payload[..2]) == NO_CODE then NORMAL else FromBig(payload[..2])
  }

  /** Why fragments whose last one just arrived break the protocol, if they do. */
  function DataCode(g: seq<Frame>, maxSize: nat, utf8: seq<Byte> -> bool): Option<nat>
    requires |g| > 0
  {
    var f := g[|g| - 1];
    if (f.opcode == CONTINUATION) != (|g| > 1) then Some(PROTOCOL_ERROR)
    else if |Payload(g)| > maxSize then Some(BAD_SIZE)
    else if f.final && g[0].opcode == TEXT && !utf8(Payload(g)) then Some(PROTOCOL_ERROR)
    else None
  }

  /** Why frame `f`, arriving after the fragments `open`, ends the connection, if it does. */
  function CodeOf(f: Frame, open: seq<Frame>, maxSize: nat, utf8: seq<Byte> -> bool): Option<nat> {
    if IsControl(f) then None
    else if f.opcode == CLOSE then Some(CloseCode(f.payload))
    else if !IsData(f) then Some(PROTOCOL_ERROR)
    else DataCode(open + [f], maxSize, utf8)
  }

  function EndCode(end: Read): nat {
    match end
    case Violation => PROTOCOL_ERROR
    case TooBig => BAD_SIZE
    case _ => ABNORMAL
  }

  /** The close frame's payload, but for the text of a reason: a peer's code is echoed, any other stop names its own. */
  function Farewell(f: Frame, code: nat): seq<Byte> {
    if f.opcode != CLOSE then ToBig(code, 2) else if |f.payload| < 2 then f.payload else f.payload[..2]
  }

  /** What is sent at the stop: one close frame, unless the connection is lost. */
  function LastSent(s: Stream, k: nat, code: nat): seq<(nat, seq<Byte>)> {
    if k < |s.frames| then [(CLOSE, Farewell(s.frames[k], code))]
    else if s.end.Lost? then [] else [(CLOSE, ToBig(code, 2))]
  }

  /** The first stop: everything before it was delivered or answered, and `code` says what it was. */
  ghost predicate StopsAt(s: Stream, k: nat, open: seq<Frame>, code: nat, maxSize: nat, utf8: seq<Byte> -> bool) {
    && k <= |s.frames|
    && (k == |s.frames| ==> code == EndCode(s.end))
    && (k < |s.frames| ==> CodeOf(s.frames[k], open, maxSize, utf8) == Some(code))
  }

  // -- the decomposition into messages is unique --

  lemma FlattenLast(gs: seq<seq<Frame>>, g: seq<Frame>)
    ensures Flatten(gs + [g]) == Flatten(gs) + g
  {
    assert (gs + [g])[..|gs|] == gs;
  }

  lemma {:induction false} FlattenFirst(gs: seq<seq<Frame>>)
    requires gs != []
    ensures Flatten(gs) == gs[0] + Flatten(gs[1..])
  {
    var init, last := gs[..|gs| - 1], gs[|gs| - 1];
    if init == [] {
      assert Flatten(gs[1..]) == [] && Flatten(init) == [];
    } else {
      FlattenFirst(init);
      assert gs[1..] == init[1..] + [last];
      FlattenLast(init[1..], last);
      Associate(init[0], Flatten(init[1..]), last);
    }
  }

  lemma Associate<T>(a: seq<T>, b: seq<T>, c: seq<T>)
    ensures (a + b) + c == a + (b + c)
  {
  }

  /** Two readings of the same frames agree on where the first message ends. */
  lemma FirstWhole(g: seq<Frame>, rest: seq<Frame>, g': seq<Frame>, rest': seq<Frame>)
    requires Whole(g) && Whole(g') && g + rest == g' + rest'
    ensures g == g' && rest == rest'
  {
    var all := g + rest;
    assert forall i :: 0 <= i < |g| ==> all[i] == g[i];
    assert forall i :: 0 <= i < |g'| ==> all[i] == g'[i];
    assert g[|g| - 1] == all[|g| - 1] && g'[|g'| - 1] == all[|g'| - 1];
    assert |g| == |g'|;
    assert g == all[..|g|] == g';
    assert rest == all[|g|..] == rest';
  }

  lemma NotOpen(gs: seq<seq<Frame>>, rest: seq<Frame>, open: seq<Frame>)
    requires gs != [] && Whole(gs[0]) && Open(open)
    ensures Flatten(gs) + rest != open
  {
    FlattenFirst(gs);
    var g := gs[0];
    assert (Flatten(gs) + rest)[|g| - 1] == g[|g| - 1];
  }

  lemma {:induction false} ReassemblyUnique(fs: seq<Frame>, fs': seq<Frame>, gs: seq<seq<Frame>>, open: seq<Frame>,
                                            gs': seq<seq<Frame>>, open': seq<Frame>)
    requires Reassembles(fs, gs, open) && Reassembles(fs', gs', open') && Data(fs) == Data(fs')
    ensures gs == gs' && open == open'
    decreases |gs|
  {
    UniqueParts(gs, open, gs', open');
  }

  lemma {:induction false} UniqueParts(gs: seq<seq<Frame>>, open: seq<Frame>, gs': seq<seq<Frame>>, open': seq<Frame>)
    requires Flatten(gs) + open == Flatten(gs') + open' && Open(open) && Open(open')
    requires (forall i :: 0 <= i < |gs| ==> Whole(gs[i])) && (forall i :: 0 <= i < |gs'| ==> Whole(gs'[i]))
    ensures gs == gs' && open == open'
    decreases |gs|
  {
    if gs == [] && gs' == [] {
      assert Flatten(gs) + open == open && Flatten(gs') + open' == open';
    } else if gs == [] {
      assert Flatten(gs) + open == open;
      NotOpen(gs', open', open);
    } else if gs' == [] {
      assert Flatten(gs') + open' == open';
      NotOpen(gs, open, open');
    } else {
      FlattenFirst(gs);
      FlattenFirst(gs');
      assert Flatten(gs) + open == gs[0] + (Flatten(gs[1..]) + open);
      assert Flatten(gs') + open' == gs'[0] + (Flatten(gs'[1..]) + open');
      FirstWhole(gs[0], Flatten(gs[1..]) + open, gs'[0], Flatten(gs'[1..]) + open');
      UniqueParts(gs[1..], open, gs'[1..], open');
      assert gs == [gs[0]] + gs[1..] && gs' == [gs'[0]] + gs'[1..];
    }
  }

  // -- one more frame --

  lemma DataStep(fs: seq<Frame>, f: Frame)
    ensures Data(fs + [f]) == Data(fs) + if IsControl(f) then [] else [f]
    ensures Pings(fs + [f]) == Pings(fs) + if f.opcode == PING then [(PONG, f.payload)] else []
  {
    assert (fs + [f])[..|fs|] == fs;
  }

  lemma PayloadStep(g: seq<Frame>, f: Frame)
    ensures Payload(g + [f]) == Payload(g) + f.payload
  {
    assert (g + [f])[..|g|] == g;
  }

  /** When a data frame stops the loop, in terms of the loop's variables. */
  lemma DataStop(f: Frame, open: seq<Frame>, maxSize: nat, utf8: seq<Byte> -> bool)
    requires IsData(f)
    ensures CodeOf(f, open, maxSize, utf8) ==
              if (f.opcode == CONTINUATION) != (open != []) then Some(PROTOCOL_ERROR)
              else if |Payload(open)| + |f.payload| > maxSize then Some(BAD_SIZE)
              else if f.final && (if open == [] then f.opcode else open[0].opcode) == TEXT
                      && !utf8(Payload(open) + f.payload) then Some(PROTOCOL_ERROR)
              else None
  {
    PayloadStep(open, f);
  }

  lemma NextFrame(bytes: seq<Byte>, maxSize: nat, s: Stream, k: nat)
    requires k <= |s.frames| && Frames(bytes, maxSize) == Stream(s.frames[k..], s.end)
    ensures var r := ClientRead(bytes, maxSize);
            if !r.Got? then k == |s.frames| && s.end == r
            else k < |s.frames| && s.frames[k] == r.frame && s.frames[..k + 1] == s.frames[..k] + [r.frame]
                 && Frames(r.rest, maxSize) == Stream(s.frames[k + 1..], s.end)
  {
    var r := ClientRead(bytes, maxSize);
    if r.Got? {
      var t := Frames(r.rest, maxSize);
      assert s.frames[k..] == [r.frame] + t.frames;
      assert s.frames[k..][1..] == s.frames[k + 1..];
    }
  }

  /** A data frame that doesn't stop the loop extends the open message, or completes it. */
  lemma Extend(fs: seq<Frame>, gs: seq<seq<Frame>>, open: seq<Frame>, f: Frame, maxSize: nat, utf8: seq<Byte> -> bool)
    requires Delivers(fs, gs, open, maxSize, utf8) && IsData(f) && CodeOf(f, open, maxSize, utf8) == None
    ensures f.final ==> Delivers(fs + [f], gs + [open + [f]], [], maxSize, utf8)
    ensures !f.final ==> Delivers(fs + [f], gs, open + [f], maxSize, utf8)
  {
    var g := open + [f];
    DataStop(f, open, maxSize, utf8);
    ExtendFragments(open, f);
    PayloadStep(open, f);
    ExtendData(fs, gs, open, f);
    if f.final {
      assert Acceptable(g, maxSize, utf8);
      Complete(fs + [f], gs, g, maxSize, utf8);
    } else {
      assert Reassembles(fs + [f], gs, g);
    }
  }

  lemma ExtendData(fs: seq<Frame>, gs: seq<seq<Frame>>, open: seq<Frame>, f: Frame)
    requires Data(fs) == Flatten(gs) + open && IsData(f)
    ensures Data(fs + [f]) == Flatten(gs) + (open + [f])
  {
    DataStep(fs, f);
    Associate(Flatten(gs), open, [f]);
  }

  lemma Complete(fs: seq<Frame>, gs: seq<seq<Frame>>, g: seq<Frame>, maxSize: nat, utf8: seq<Byte> -> bool)
    requires Data(fs) == Flatten(gs) + g && (forall i :: 0 <= i < |gs| ==> Whole(gs[i]) && Acceptable(gs[i], maxSize, utf8))
    requires Whole(g) && Acceptable(g, maxSize, utf8)
    ensures Delivers(fs, gs + [g], [], maxSize, utf8)
  {
    FlattenLast(gs, g);
    assert Flatten(gs + [g]) + [] == Flatten(gs) + g;
  }

  lemma ExtendFragments(open: seq<Frame>, f: Frame)
    requires Open(open) && IsData(f) && (f.opcode == CONTINUATION) == (open != [])
    ensures f.final ==> Whole(open + [f])
    ensures !f.final ==> Open(open + [f])
  {
  }

  lemma ExtendControl(fs: seq<Frame>, gs: seq<seq<Frame>>, open: seq<Frame>, f: Frame, maxSize: nat, utf8: seq<Byte> -> bool)
    requires Delivers(fs, gs, open, maxSize, utf8) && IsControl(f)
    ensures Delivers(fs + [f], gs, open, maxSize, utf8)
  {
    DataStep(fs, f);
  }

  // -- a peer that keeps to the protocol is heard to its end --

  lemma {:induction false} OthersAreData(fs: seq<Frame>)
    ensures Others(fs) == Data(fs) && Pongs(fs) == Pings(fs)
  {
    if fs != [] {
      OthersAreData(fs[..|fs| - 1]);
    }
  }

  lemma FramesOfMore(f: Frame, more: seq<Byte>, maxSize: nat)
    requires Fits(f, maxSize)
    ensures Frames(Wire(f) + more, maxSize) == Stream([f] + Frames(more, maxSize).frames, Frames(more, maxSize).end)
  {
    ReadBack(f, more, maxSize);
  }

  lemma WiresFirst(fs: seq<Frame>, rest: seq<Byte>)
    requires fs != [] && forall i :: 0 <= i < |fs| ==> fs[i].opcode < 16
    ensures Wires(fs) + rest == Wire(fs[0]) + (Wires(fs[1..]) + rest)
  {
    Associate(Wire(fs[0]), Wires(fs[1..]), rest);
  }

  lemma FramesJoin(f: Frame, fs: seq<Frame>, more: seq<Byte>, after: Stream, maxSize: nat)
    requires Fits(f, maxSize) && Frames(more, maxSize) == Stream(fs + after.frames, after.end)
    ensures Frames(Wire(f) + more, maxSize) == Stream([f] + fs + after.frames, after.end)
  {
    FramesOfMore(f, more, maxSize);
    assert [f] + fs + after.frames == [f] + (fs + after.frames);
  }

  /** The frames a stream of bytes begins with, when they are `fs`. */
  ghost predicate Begins(bytes: seq<Byte>, fs: seq<Frame>, after: Stream, maxSize: nat) {
    Frames(bytes, maxSize) == Stream(fs + after.frames, after.end)
  }

  lemma BeginsNone(bytes: seq<Byte>, after: Stream, maxSize: nat)
    requires Frames(bytes, maxSize) == after
    ensures Begins(bytes, [], after, maxSize)
  {
    assert [] + after.frames == after.frames;
  }

  lemma BeginsMore(fs: seq<Frame>, f: Frame, rest: seq<Frame>, bytes: seq<Byte>, more: seq<Byte>, after: Stream, maxSize: nat)
    requires Fits(f, maxSize) && fs == [f] + rest && bytes == Wire(f) + more && Begins(more, rest, after, maxSize)
    ensures Begins(bytes, fs, after, maxSize)
  {
    FramesJoin(f, rest, more, after, maxSize);
  }

  lemma {:induction false} FramesOfWires(fs: seq<Frame>, rest: seq<Byte>, after: Stream, maxSize: nat)
    requires Frames(rest, maxSize) == after
    requires forall i :: 0 <= i < |fs| ==> fs[i].opcode < 16 && Fits(fs[i], maxSize)
    ensures Begins(Wires(fs) + rest, fs, after, maxSize)
  {
    if fs == [] {
      assert Wires(fs) + rest == rest;
      BeginsNone(rest, after, maxSize);
    } else {
      FramesOfWires(fs[1..], rest, after, maxSize);
      WiresFirst(fs, rest);
      BeginsMore(fs, fs[0], fs[1..], Wires(fs) + rest, Wires(fs[1..]) + rest, after, maxSize);
    }
  }

  function Groups(ms: seq<Sent>): seq<seq<Frame>> {
    seq(|ms|, i requires 0 <= i < |ms| => FramesOf(ms[i]))
  }

  lemma {:induction false} FlattenGroups(ms: seq<Sent>)
    ensures Flatten(Groups(ms)) == AllFrames(ms)
  {
    if ms != [] {
      FlattenGroups(ms[..|ms| - 1]);
      assert Groups(ms)[..|ms| - 1] == Groups(ms[..|ms| - 1]);
    }
  }

  /** The payloads alone decide the payload of a message. */
  lemma {:induction false} PayloadJoined(g: seq<Frame>, parts: seq<seq<Byte>>)
    requires |g| == |parts| && forall i :: 0 <= i < |g| ==> g[i].payload == parts[i]
    ensures Payload(g) == Joined(parts)
  {
    if g != [] {
      PayloadJoined(g[..|g| - 1], parts[..|g| - 1]);
    }
  }

  lemma {:induction false} PayloadGrows(g: seq<Frame>, n: nat)
    requires n <= |g|
    ensures |Payload(g[..n])| <= |Payload(g)|
    decreases |g|
  {
    if n < |g| {
      PayloadGrows(g[..|g| - 1], n);
      assert g[..|g| - 1][..n] == g[..n];
    } else {
      assert g[..n] == g;
    }
  }

  lemma MessageFrames(m: Sent, maxSize: nat, utf8: seq<Byte> -> bool)
    requires m.parts != [] && |Joined(m.parts)| <= maxSize && (m.text ==> utf8(Joined(m.parts)))
    ensures Whole(FramesOf(m)) && Acceptable(FramesOf(m), maxSize, utf8)
    ensures MessageOf(FramesOf(m)) == Message(m.text, Joined(m.parts))
  {
    PayloadJoined(FramesOf(m), m.parts);
  }

  lemma {:induction false} DataPrefix(fs: seq<Frame>, k: nat)
    requires k < |fs|
    ensures |Data(fs[..k])| <= |Data(fs)| && Data(fs)[..|Data(fs[..k])|] == Data(fs[..k])
    ensures !IsControl(fs[k]) ==> |Data(fs[..k])| < |Data(fs)| && Data(fs)[|Data(fs[..k])|] == fs[k]
    decreases |fs|
  {
    var init := fs[..|fs| - 1];
    if k < |init| {
      DataPrefix(init, k);
      assert init[..k] == fs[..k];
    }
  }

  /** Where a position of the flattened messages falls. */
  lemma {:induction false} FlattenAt(gs: seq<seq<Frame>>, p: nat) returns (j: nat, n: nat)
    requires p <= |Flatten(gs)| && forall i :: 0 <= i < |gs| ==> |gs[i]| > 0
    ensures j <= |gs| && (if j < |gs| then n < |gs[j]| else n == 0)
    ensures Flatten(gs)[..p] == Flatten(gs[..j]) + if j < |gs| then gs[j][..n] else []
    ensures p < |Flatten(gs)| ==> j < |gs| && gs[j][n] == Flatten(gs)[p]
  {
    if p == |Flatten(gs)| {
      j, n := |gs|, 0;
      assert gs[..j] == gs && Flatten(gs)[..p] == Flatten(gs);
    } else {
      var init, last := gs[..|gs| - 1], gs[|gs| - 1];
      if p < |Flatten(init)| {
        j, n := FlattenAt(init, p);
        assert init[..j] == gs[..j];
        assert Flatten(gs)[..p] == Flatten(init)[..p];
      } else {
        j, n := |init|, p - |Flatten(init)|;
        assert Flatten(gs)[..p] == Flatten(init) + last[..n];
      }
    }
  }

  /** Fragments of a whole message, and the one that comes next. */
  lemma FragmentAdmitted(g: seq<Frame>, n: nat, maxSize: nat, utf8: seq<Byte> -> bool)
    requires Whole(g) && Acceptable(g, maxSize, utf8) && n < |g|
    ensures Open(g[..n]) && CodeOf(g[n], g[..n], maxSize, utf8) == None
  {
    assert g[..n] + [g[n]] == g[..n + 1];
    PayloadGrows(g, n + 1);
    if g[n].final {
      assert g[..n + 1] == g;
    }
  }

  /** No frame of a well-formed stream stops the loop. */
  lemma NeverStops(fs: seq<Frame>, whole: seq<seq<Frame>>, k: nat, gs: seq<seq<Frame>>, open: seq<Frame>,
                   maxSize: nat, utf8: seq<Byte> -> bool)
    requires Data(fs) == Flatten(whole) && forall i :: 0 <= i < |whole| ==> Whole(whole[i]) && Acceptable(whole[i], maxSize, utf8)
    requires k < |fs| && Reassembles(fs[..k], gs, open)
    ensures CodeOf(fs[k], open, maxSize, utf8) == None
  {
    if !IsControl(fs[k]) {
      DataPrefix(fs, k);
      var j, n := FlattenAt(whole, |Data(fs[..k])|);
      FragmentAdmitted(whole[j], n, maxSize, utf8);
      ReassemblyUnique(fs[..k], fs[..k], gs, open, whole[..j], whole[j][..n]);
    }
  }

  lemma {:induction false} OnlyData(gs: seq<seq<Frame>>, f: Frame)
    requires f in Flatten(gs) && forall i :: 0 <= i < |gs| ==> Whole(gs[i])
    ensures IsData(f)
  {
    var init := gs[..|gs| - 1];
    if f in Flatten(init) {
      OnlyData(init, f);
    }
  }

  /** The end of a peer's stream, as the loop reads it. */
  ghost predicate Ends(s: Stream, e: Ending) {
    if e.BreaksOff? then s == Stream([], Lost) else s.frames != [] && s.frames[0] == Frame(true, 8, e.payload)
  }

  lemma EndingRead(e: Ending, maxSize: nat)
    requires Proper(e, maxSize)
    ensures Ends(Frames(EndBytes(e), maxSize), e)
  {
    match e
    case BreaksOff(f, n) =>
      ReadBack(f, [], maxSize);
      assert Wire(f) + [] == Wire(f);
      CutOff(Wire(f), n, maxSize);
    case Closes(payload, after) =>
      PowValues();
      var f := Frame(true, 8, payload);
      assert EndBytes(e) == Wire(f) + after;
      FramesOfMore(f, after, maxSize);
  }

  function Items(ms: seq<Sent>): seq<Item> {
    seq(|ms|, i requires 0 <= i < |ms| => Message(ms[i].text, Joined(ms[i].parts)))
  }

  /** All messages of a well-formed stream make whole, acceptable groups of its frames. */
  lemma GroupsWhole(ms: seq<Sent>, maxSize: nat, utf8: seq<Byte> -> bool)
    requires forall m <- ms :: m.parts != [] && |Joined(m.parts)| <= maxSize && (m.text ==> utf8(Joined(m.parts)))
    ensures forall i :: 0 <= i < |ms| ==> Whole(Groups(ms)[i]) && Acceptable(Groups(ms)[i], maxSize, utf8)
    ensures Messages(Groups(ms)) == Items(ms)
  {
    forall i | 0 <= i < |ms|
      ensures Whole(Groups(ms)[i]) && Acceptable(Groups(ms)[i], maxSize, utf8) &&
              MessageOf(Groups(ms)[i]) == Message(ms[i].text, Joined(ms[i].parts))
    {
      assert ms[i] in ms;
      MessageFrames(ms[i], maxSize, utf8);
    }
  }

  /** The loop reads on past every frame of the messages, and stops at the close frame if there is one. */
  lemma StopsAtEnd(fs: seq<Frame>, whole: seq<seq<Frame>>, e: Ending, s: Stream, after: Stream,
                   k: nat, gs: seq<seq<Frame>>, open: seq<Frame>, code: nat, maxSize: nat, utf8: seq<Byte> -> bool)
    requires Data(fs) == Flatten(whole) && forall i :: 0 <= i < |whole| ==> Whole(whole[i]) && Acceptable(whole[i], maxSize, utf8)
    requires s == Stream(fs + after.frames, after.end) && Ends(after, e)
    requires StopsAt(s, k, open, code, maxSize, utf8) && Delivers(s.frames[..k], gs, open, maxSize, utf8)
    ensures k == |fs| && s.frames[..k] == fs
  {
    if k < |fs| {
      BeforeAfter(fs, after.frames, k);
      NeverStops(fs, whole, k, gs, open, maxSize, utf8);
    } else if k > |fs| {
      CloseIsLast(s.frames[..k], |fs|, gs, open);
    }
  }

  lemma BeforeAfter(fs: seq<Frame>, after: seq<Frame>, k: nat)
    requires k < |fs|
    ensures (fs + after)[..k] == fs[..k] && (fs + after)[k] == fs[k]
  {
  }

  lemma CloseIsLast(fs: seq<Frame>, at: nat, gs: seq<seq<Frame>>, open: seq<Frame>)
    requires Reassembles(fs, gs, open) && at < |fs|
    ensures fs[at].opcode != CLOSE
  {
    if fs[at].opcode == CLOSE {
      DataPrefix(fs, at);
      assert fs[at] in Data(fs);
      if fs[at] in Flatten(gs) { OnlyData(gs, fs[at]); }
    }
  }

  lemma LastEcho(s: Stream, fs: seq<Frame>, after: Stream, e: Ending, open: seq<Frame>, code: nat,
                 maxSize: nat, utf8: seq<Byte> -> bool)
    requires s == Stream(fs + after.frames, after.end) && Ends(after, e) && StopsAt(s, |fs|, open, code, maxSize, utf8)
    ensures code == EndsWith(e) && LastSent(s, |fs|, code) == Echo(e)
  {
    if e.Closes? {
      assert s.frames[|fs|] == after.frames[0];
      if |e.payload| >= 2 { TwoByteCode(e.payload); }
    }
  }

  lemma TwoByteCode(payload: seq<Byte>)
    requires |payload| >= 2
    ensures payload[..2] == [payload[0], payload[1]]
    ensures FromBig(payload[..2]) == payload[0] as nat * 256 + payload[1]
  {
    var b := payload[..2];
    assert b[..1] == [payload[0]] && b[..1][..0] == [];
    assert FromBig(b[..1]) == payload[0];
  }

  /** What the loop does with a peer that keeps to the protocol: every message, then the closing code; a pong for
      every ping, then the echo of the close. */
  lemma HeardExactly(p: Peer, s: Stream, k: nat, gs: seq<seq<Frame>>, open: seq<Frame>, code: nat,
                     maxSize: nat, utf8: seq<Byte> -> bool)
    requires Legal(p, maxSize, utf8) && s == Frames(Bytes(p, maxSize, utf8), maxSize)
    requires StopsAt(s, k, open, code, maxSize, utf8) && Delivers(s.frames[..k], gs, open, maxSize, utf8)
    ensures Messages(gs) == Items(p.messages) && code == EndsWith(p.ending)
    ensures Pings(s.frames[..k]) == Pongs(p.frames) && LastSent(s, k, code) == Echo(p.ending)
  {
    var fs, whole, after := p.frames, Groups(p.messages), Frames(EndBytes(p.ending), maxSize);
    EndingRead(p.ending, maxSize);
    FramesOfWires(fs, EndBytes(p.ending), after, maxSize);
    OthersAreData(fs);
    FlattenGroups(p.messages);
    GroupsWhole(p.messages, maxSize, utf8);
    StopsAtEnd(fs, whole, p.ending, s, after, k, gs, open, code, maxSize, utf8);
    assert Flatten(whole) + [] == Flatten(whole);
    ReassemblyUnique(fs, fs, gs, open, whole, []);
    LastEcho(s, fs, after, p.ending, open, code, maxSize, utf8);
  }

  lemma HeardByAll(bytes: seq<Byte>, s: Stream, k: nat, gs: seq<seq<Frame>>, open: seq<Frame>, code: nat,
                   maxSize: nat, utf8: seq<Byte> -> bool)
    requires s == Frames(bytes, maxSize)
    requires StopsAt(s, k, open, code, maxSize, utf8) && Delivers(s.frames[..k], gs, open, maxSize, utf8)
    ensures forall p :: Legal(p, maxSize, utf8) && bytes == Bytes(p, maxSize, utf8) ==>
              Messages(gs) == Items(p.messages) && code == EndsWith(p.ending) &&
              Pings(s.frames[..k]) == Pongs(p.frames) && LastSent(s, k, code) == Echo(p.ending)
  {
    forall p | Legal(p, maxSize, utf8) && bytes == Bytes(p, maxSize, utf8)
      ensures Messages(gs) == Items(p.messages) && code == EndsWith(p.ending) &&
              Pings(s.frames[..k]) == Pongs(p.frames) && LastSent(s, k, code) == Echo(p.ending)
    {
      HeardExactly(p, s, k, gs, open, code, maxSize, utf8);
    }
  }

  /** What ends the connection, opcode by opcode (section 5.2 of RFC 6455) and code by code (section 7.4.1). */
  lemma StopCodes(f: Frame, open: seq<Frame>, maxSize: nat, utf8: seq<Byte> -> bool)
    requires f.opcode < 16 && forall i :: 0 <= i < |open| ==> open[i].opcode < 3
    ensures f.opcode == 9 || f.opcode == 10 ==> CodeOf(f, open, maxSize, utf8) == None
    ensures f.opcode == 8 ==> CodeOf(f, open, maxSize, utf8) == Some(EndsWith(Closes(f.payload, [])))
    ensures 3 <= f.opcode <= 7 || f.opcode > 10 ==> CodeOf(f, open, maxSize, utf8) == Some(1002)
    ensures f.opcode == 0 && open == [] ==> CodeOf(f, open, maxSize, utf8) == Some(1002)
    ensures 1 <= f.opcode <= 2 && open != [] ==> CodeOf(f, open, maxSize, utf8) == Some(1002)
    ensures f.opcode < 3 && (f.opcode == 0 <==> open != []) ==>
              var payload, first := Payload(open) + f.payload, if open == [] then f.opcode else open[0].opcode;
              CodeOf(f, open, maxSize, utf8) == if |payload| > maxSize then Some(1009)
                                                else if f.final && first == 1 && !utf8(payload) then Some(1002) else None
  {
    if f.opcode < 3 { DataStop(f, open, maxSize, utf8); }
    if f.opcode == 8 && |f.payload| >= 2 { TwoByteCode(f.payload); }
  }

  class WebSocket {
    const maxSize: nat
    const utf8: seq<Byte> -> bool          // which payloads decode as text
    var incoming: seq<Byte>                // bytes still to be read; the stream ends after them
    var messages: seq<Item>                // the queue the application reads from
    var sent: seq<(nat, seq<Byte>)>        // frames written: opcode and payload
    var closeCode: Option<nat>

    constructor (incoming: seq<Byte>, maxSize: nat, utf8: seq<Byte> -> bool)
      ensures this.incoming == incoming && this.maxSize == maxSize && this.utf8 == utf8
      ensures messages == [] && sent == [] && closeCode == None
    {
      this.incoming, this.maxSize, this.utf8 := incoming, maxSize, utf8;
      messages, sent, closeCode := [], [], None;
    }

    method Finish(code: nat)
      modifies `closeCode, `messages
      ensures closeCode == if old(closeCode).None? then Some(code) else old(closeCode)
      ensures messages == if old(closeCode).None? then old(messages) + [Closed(code)] else old(messages)
    {
      if closeCode.Some? {
        return;
      }
      closeCode := Some(code);
      messages := messages + [Closed(code)];
    }

    /** Tells the peer why, and closes. The reason's text is not part of this model. */
    method Fail(code: nat)
      requires code < 65536
      modifies `closeCode, `messages, `sent
      ensures closeCode == if old(closeCode).None? then Some(code) else old(closeCode)
      ensures messages == if old(closeCode).None? then old(messages) + [Closed(code)] else old(messages)
      ensures sent == if old(closeCode).None? then old(sent) + [(CLOSE, ToBig(code, 2))] else old(sent)
      ensures old(closeCode).None? ==> sent == old(sent) + [(8, [code / 256, code % 256])]
    {
      TwoBytes(code);
      assert ([126] + ToBig(code, 2))[1..] == ToBig(code, 2);
      assert [126, code / 256, code % 256][1..] == [code / 256, code % 256];
      if closeCode.None? {
        sent := sent + [(CLOSE, ToBig(code, 2))];
      }
      Finish(code);
    }

    method OnCloseFrame(payload: seq<Byte>)
      modifies `closeCode, `messages, `sent
      ensures old(closeCode).None? ==>
                var code := CloseCode(payload);
                closeCode == Some(code) && messages == old(messages) + [Closed(code)]
      ensures old(closeCode).None? ==>
                sent == old(sent) + [(CLOSE, if |payload| < 2 then payload else payload[..2])]
    {
      var code := NO_CODE;
      if |payload| >= 2 {
        code := FromBig(payload[..2]);
      }
      if closeCode.None? {
        sent := sent + [(CLOSE, if |payload| < 2 then payload else payload[..2])];
      }
      Finish(if code == NO_CODE then NORMAL else code);
    }

    /** The checks on a data frame, and the loop's variables after it. */
    method Admit(f: Frame, st: Partial, ghost open: seq<Frame>) returns (st': Partial, failed: Option<nat>)
      requires IsData(f) && Buffered(st, open)
      ensures failed == CodeOf(f, open, maxSize, utf8) && (failed.Some? ==> failed.value < 65536)
      ensures failed.None? ==> Buffered(st', open + [f])
    {
      DataStop(f, open, maxSize, utf8);
      st' := st;
      if (f.opcode == CONTINUATION && st.kind.None?) || (f.opcode != CONTINUATION && st.kind.Some?) {
        return st', Some(PROTOCOL_ERROR);
      }
      if f.opcode != CONTINUATION {
        st' := st'.(kind := Some(f.opcode));
      }
      st' := st'.(size := st.size + |f.payload|);
      if st'.size > maxSize {
        return st', Some(BAD_SIZE);
      }
      st' := st'.(buffer := st.buffer + f.payload);
      PayloadStep(open, f);
      if f.final && st'.kind == Some(TEXT) && !utf8(st'.buffer) {
        return st', Some(PROTOCOL_ERROR);
      }
      return st', None;
    }

    /** A data frame that was admitted: its message is queued when it is whole. */
    method Collect(f: Frame, st: Partial, ghost fs: seq<Frame>, ghost gs: seq<seq<Frame>>, ghost open: seq<Frame>)
      returns (st': Partial, ghost gs': seq<seq<Frame>>, ghost open': seq<Frame>)
      requires IsData(f) && Delivers(fs, gs, open, maxSize, utf8)
      requires CodeOf(f, open, maxSize, utf8) == None && Buffered(st, open + [f])
      modifies `messages
      ensures Delivers(fs + [f], gs', open', maxSize, utf8) && Buffered(st', open')
      ensures gs <= gs' && messages == old(messages) + Messages(gs')[|gs|..]
    {
      Extend(fs, gs, open, f, maxSize, utf8);
      if f.final {
        MessagesLast(gs, open + [f]);
        messages := messages + [Message(st.kind == Some(TEXT), st.buffer)];
        gs', open', st' := gs + [open + [f]], [], Partial([], 0, None);
      } else {
        gs', open', st' := gs, open + [f], st;
      }
    }

    /** One frame: answered, collected, or the reason to close. */
    method OnFrame(f: Frame, st: Partial, ghost fs: seq<Frame>, ghost gs: seq<seq<Frame>>, ghost open: seq<Frame>)
      returns (stop: bool, st': Partial, ghost gs': seq<seq<Frame>>, ghost open': seq<Frame>, ghost code: nat)
      requires Delivers(fs, gs, open, maxSize, utf8) && Buffered(st, open) && closeCode == None
      modifies `messages, `sent, `closeCode
      ensures stop <==> CodeOf(f, open, maxSize, utf8).Some?
      ensures stop ==> CodeOf(f, open, maxSize, utf8) == Some(code) && closeCode == Some(code)
      ensures stop ==> messages == old(messages) + [Closed(code)] && gs' == gs && open' == open
      ensures stop ==> sent == old(sent) + [(CLOSE, Farewell(f, code))]
      ensures !stop ==> Delivers(fs + [f], gs', open', maxSize, utf8) && Buffered(st', open') && closeCode == None
      ensures !stop ==> gs <= gs' && messages == old(messages) + Messages(gs')[|gs|..]
      ensures !stop ==> sent == old(sent) + if f.opcode == PING then [(PONG, f.payload)] else []
    {
      stop, st', gs', open', code := false, st, gs, open, 0;
      if IsControl(f) {
        ExtendControl(fs, gs, open, f, maxSize, utf8);
        assert Messages(gs)[|gs|..] == [];
        if f.opcode == PING {
          sent := sent + [(PONG, f.payload)];
        }
      } else if f.opcode == CLOSE {
        stop, code := true, CloseCode(f.payload);
        OnCloseFrame(f.payload);
      } else if IsData(f) {
        var failed;
        st', failed := Admit(f, st, open);
        if failed.Some? {
          stop, code := true, failed.value;
          Fail(failed.value);
        } else {
          st', gs', open' := Collect(f, st', fs, gs, open);
        }
      } else {
        stop, code := true, PROTOCOL_ERROR;
        Fail(PROTOCOL_ERROR);
      }
    }

    /** The loop's variables describe the open message. */
    ghost predicate Buffered(st: Partial, open: seq<Frame>) {
      && st.buffer == Payload(open) && st.size == |st.buffer|
      && st.kind == if open == [] then None else Some(open[0].opcode)
    }

    /** Reads until the stream, the peer or a violation ends the connection. The ghost results name the
        frames read, the messages they formed, the fragments left over, and the closing code. */
    method ReadLoop() returns (ghost k: nat, ghost gs: seq<seq<Frame>>, ghost open: seq<Frame>, ghost code: nat)
      requires closeCode == None
      modifies this
      ensures StopsAt(old(Frames(incoming, maxSize)), k, open, code, maxSize, utf8)
      ensures Delivers(old(Frames(incoming, maxSize)).frames[..k], gs, open, maxSize, utf8)
      ensures messages == old(messages) + Messages(gs) + [Closed(code)] && closeCode == Some(code)
      ensures var s := old(Frames(incoming, maxSize)); sent == old(sent) + Pings(s.frames[..k]) + LastSent(s, k, code)
      ensures forall p :: Legal(p, maxSize, utf8) && old(incoming) == Bytes(p, maxSize, utf8) ==>
                messages == old(messages) + Items(p.messages) + [Closed(EndsWith(p.ending))] &&
                closeCode == Some(EndsWith(p.ending)) && sent == old(sent) + Pongs(p.frames) + Echo(p.ending)
    {
      var st := Partial([], 0, None);
      ghost var s := Frames(incoming, maxSize);
      ghost var sent0, messages0 := sent, messages;
      k, gs, open, code := 0, [], [], 0;
      while true
        invariant k <= |s.frames| && Frames(incoming, maxSize) == Stream(s.frames[k..], s.end)
        invariant Delivers(s.frames[..k], gs, open, maxSize, utf8) && Buffered(st, open)
        invariant messages == messages0 + Messages(gs) && closeCode == None
        invariant sent == sent0 + Pings(s.frames[..k])
        decreases |incoming|
      {
        var stop;
        stop, st, k, gs, open, code := ReadOne(st, s, k, gs, open, messages0, sent0);
        if stop {
          HeardByAll(old(incoming), s, k, gs, open, code, maxSize, utf8);
          return;
        }
      }
    }

    /** No whole frame follows: the connection was lost, or the peer broke the protocol. */
    method EndOfFrames(end: Read)
      requires !end.Got? && closeCode == None
      modifies `closeCode, `messages, `sent
      ensures closeCode == Some(EndCode(end)) && messages == old(messages) + [Closed(EndCode(end))]
      ensures closeCode == Some(if end.Lost? then 1006 else if end.TooBig? then 1009 else 1002)
      ensures sent == old(sent) + if end.Lost? then [] else [(CLOSE, ToBig(EndCode(end), 2))]
    {
      if end.Lost? {
        Finish(ABNORMAL);
      } else {
        Fail(if end.TooBig? then BAD_SIZE else PROTOCOL_ERROR);
      }
    }

    /** One turn of the loop: the next frame, or the end of the stream. */
    method ReadOne(st: Partial, ghost s: Stream, ghost k: nat, ghost gs: seq<seq<Frame>>, ghost open: seq<Frame>,
                   ghost messages0: seq<Item>, ghost sent0: seq<(nat, seq<Byte>)>)
      returns (stop: bool, st': Partial, ghost k': nat, ghost gs': seq<seq<Frame>>, ghost open': seq<Frame>, ghost code: nat)
      requires k <= |s.frames| && Frames(incoming, maxSize) == Stream(s.frames[k..], s.end)
      requires Delivers(s.frames[..k], gs, open, maxSize, utf8) && Buffered(st, open)
      requires messages == messages0 + Messages(gs) && closeCode == None
      requires sent == sent0 + Pings(s.frames[..k])
      modifies this
      ensures k' <= |s.frames| && Delivers(s.frames[..k'], gs', open', maxSize, utf8)
      ensures stop ==> StopsAt(s, k', open', code, maxSize, utf8) && closeCode == Some(code)
      ensures stop ==> messages == messages0 + Messages(gs') + [Closed(code)]
      ensures stop ==> sent == sent0 + Pings(s.frames[..k']) + LastSent(s, k', code)
      ensures !stop ==> Frames(incoming, maxSize) == Stream(s.frames[k'..], s.end) && |incoming| < old(|incoming|)
      ensures !stop ==> Buffered(st', open') && messages == messages0 + Messages(gs') && closeCode == None
      ensures !stop ==> sent == sent0 + Pings(s.frames[..k'])
    {
      NextFrame(incoming, maxSize, s, k);
      k', gs', open' := k, gs, open;
      var r := ClientRead(incoming, maxSize);
      if !r.Got? {
        EndOfFrames(r);
        stop, st', code := true, st, EndCode(r);
        return;
      }
      incoming := r.rest;
      stop, st', gs', open', code := Take(r.frame, st, s.frames[..k], gs, open, messages0, sent0);
      k' := if stop then k else k + 1;
    }

    /** One frame, counted with what was queued and sent since the loop began. */
    method Take(f: Frame, st: Partial, ghost fs: seq<Frame>, ghost gs: seq<seq<Frame>>, ghost open: seq<Frame>,
                ghost messages0: seq<Item>, ghost sent0: seq<(nat, seq<Byte>)>)
      returns (stop: bool, st': Partial, ghost gs': seq<seq<Frame>>, ghost open': seq<Frame>, ghost code: nat)
      requires Delivers(fs, gs, open, maxSize, utf8) && Buffered(st, open)
      requires messages == messages0 + Messages(gs) && closeCode == None && sent == sent0 + Pings(fs)
      modifies `messages, `sent, `closeCode
      ensures stop <==> CodeOf(f, open, maxSize, utf8).Some?
      ensures stop ==> CodeOf(f, open, maxSize, utf8) == Some(code) && closeCode == Some(code) && gs' == gs && open' == open
      ensures stop ==> messages == messages0 + Messages(gs) + [Closed(code)]
      ensures stop ==> sent == sent0 + Pings(fs) + [(CLOSE, Farewell(f, code))]
      ensures !stop ==> Delivers(fs + [f], gs', open', maxSize, utf8) && Buffered(st', open') && closeCode == None
      ensures !stop ==> messages == messages0 + Messages(gs') && sent == sent0 + Pings(fs + [f])
    {
      stop, st', gs', open', code := OnFrame(f, st, fs, gs, open);
      if !stop {
        DataStep(fs, f);
        MessagesSplit(messages0, gs, gs');
      }
    }
  }

  /** The loop's variables: the payload so far, its size, and the opcode the message began with. */
  datatype Partial = Partial(buffer: seq<Byte>, size: nat, kind: Option<nat>)

  lemma MessagesLast(gs: seq<seq<Frame>>, g: seq<Frame>)
    requires |g| > 0 && forall i :: 0 <= i < |gs| ==> |gs[i]| > 0
    ensures forall i :: 0 <= i < |gs + [g]| ==> |(gs + [g])[i]| > 0
    ensures Messages(gs + [g])[|gs|..] == [MessageOf(g)]
  {
  }

  lemma MessagesSplit(before: seq<Item>, gs: seq<seq<Frame>>, gs': seq<seq<Frame>>)
    requires gs <= gs' && forall i :: 0 <= i < |gs'| ==> |gs'[i]| > 0
    ensures forall i :: 0 <= i < |gs| ==> |gs[i]| > 0
    ensures before + Messages(gs) + Messages(gs')[|gs|..] == before + Messages(gs')
  {
    assert forall i :: 0 <= i < |gs| ==> gs[i] == gs'[i];
    assert Messages(gs') == Messages(gs) + Messages(gs')[|gs|..];
  }

  // -- what the loop's result means --

  /** A peer that sends whole messages, fragmented as it likes and with control frames between, is
      heard exactly: before any stop, the frames read can only be reassembled into those messages. */
  lemma DeliveredExactly(fs: seq<Frame>, sentBy: seq<seq<Frame>>, gs: seq<seq<Frame>>, open: seq<Frame>,
                         maxSize: nat, utf8: seq<Byte> -> bool)
    requires Delivers(fs, gs, open, maxSize, utf8) && Reassembles(fs, sentBy, [])
    ensures gs == sentBy && open == []
    ensures forall i :: 0 <= i < |gs| ==> Whole(gs[i]) && Messages(gs)[i] == MessageOf(sentBy[i])
  {
    ReassemblyUnique(fs, fs, gs, open, sentBy, []);
  }

  /** Dropping control frames changes neither the messages nor the fragments left over. */
  lemma ControlFramesIgnored(fs: seq<Frame>, fs': seq<Frame>, gs: seq<seq<Frame>>, open: seq<Frame>,
                             gs': seq<seq<Frame>>, open': seq<Frame>, maxSize: nat, utf8: seq<Byte> -> bool)
    requires Data(fs) == Data(fs')
    requires Delivers(fs, gs, open, maxSize, utf8) && Delivers(fs', gs', open', maxSize, utf8)
    ensures gs == gs' && open == open' && Messages(gs) == Messages(gs')
  {
    ReassemblyUnique(fs, fs', gs, open, gs', open');
  }

  /** No delivered message exceeds the limit. */
  lemma DeliveredWithinLimit(fs: seq<Frame>, gs: seq<seq<Frame>>, open: seq<Frame>, maxSize: nat, utf8: seq<Byte> -> bool)
    requires Delivers(fs, gs, open, maxSize, utf8)
    ensures forall i :: 0 <= i < |gs| ==> |Messages(gs)[i].data| <= maxSize
  {
    forall i | 0 <= i < |gs|
      ensures |Messages(gs)[i].data| <= maxSize
    {
      assert Acceptable(gs[i], maxSize, utf8);
    }
  }
}
