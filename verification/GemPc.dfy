/** GemPC Twin serial framing: the frame builder and the firmware's byte-fed parser. */
module GemPc {
  import opened Bytes

  const SYNC: byte := 0x03
  const CTRL_ACK: byte := 0x06
  const CTRL_NAK: byte := 0x15
  const NOTIFY_SLOT_CHANGE: byte := 0x50
  const HEADER_SIZE: nat := 10
  const MAX_PAYLOAD: nat := 261
  const MAX_FRAME: nat := 274

  // A CCID bulk message: a 10-byte header whose dwLength counts the payload.
  predicate Message(ccid: seq<byte>) {
    |ccid| >= HEADER_SIZE && PayloadLength(ccid) == |ccid| - HEADER_SIZE <= MAX_PAYLOAD
  }

  function PayloadLength(ccid: seq<byte>): nat
    requires |ccid| >= 5
  {
    FromLe32(ccid[1], ccid[2], ccid[3], ccid[4])
  }

  // A bulk message from its header fields and payload.
  function Bulk(kind: byte, slot: byte, seqno: byte, s0: byte, s1: byte, s2: byte, payload: seq<byte>)
    : (ccid: seq<byte>)
    requires |payload| < 0x1_0000_0000
    ensures |ccid| == HEADER_SIZE + |payload| && PayloadLength(ccid) == |payload|
    ensures ccid[0] == kind && ccid[5] == slot && ccid[6] == seqno
    ensures ccid[7] == s0 && ccid[8] == s1 && ccid[9] == s2 && ccid[10..] == payload
  {
    [kind] + Le32(|payload|) + [slot, seqno, s0, s1, s2] + payload
  }

  function Unsealed(ccid: seq<byte>): seq<byte> {
    [SYNC, CTRL_ACK] + ccid
  }

  // SYNC, CTRL, the message, and the XOR of all of it.
  function Build(ccid: seq<byte>): (frame: seq<byte>)
    ensures |frame| == |ccid| + 3
  {
    Unsealed(ccid) + [Lrc(Unsealed(ccid))]
  }

  // ---- The parser of the firmware ----

  datatype Phase = WaitSync | WaitCtrl | ReadHeader(read: nat) | ReadPayload(remaining: nat) | CheckLrc

  datatype FrameError = InvalidLrc | InvalidCtrl | Overflow | NakReceived

  datatype Event = Command(ccid: seq<byte>) | Error(error: FrameError)

  datatype Parser = Parser(phase: Phase, frame: seq<byte>, ccid: seq<byte>, received: seq<byte>)

  const FRESH := Parser(WaitSync, [], [], [])

  predicate Idle(p: Parser) {
    p.phase.WaitSync? && p.frame == [] && p.ccid == []
  }

  // A finished frame is kept for the echo; collection starts over.
  function Finish(frame: seq<byte>): Parser {
    Parser(WaitSync, [], [], frame)
  }

  function Feed(p: Parser, b: byte): (Parser, Option<Event>) {
    match p.phase
    case WaitSync =>
      if b == NOTIFY_SLOT_CHANGE then (FRESH, None)
      else if b == SYNC then (Parser(WaitCtrl, [b], [], []), None)
      else (p, None)
    case WaitCtrl =>
      if b == SYNC then (Parser(WaitCtrl, [b], [], []), None)
      else
        var frame := p.frame + [b];
        if b == CTRL_ACK then (p.(phase := ReadHeader(0), frame := frame), None)
        else (Finish(frame), Some(Error(if b == CTRL_NAK then NakReceived else InvalidCtrl)))
    case ReadHeader(read) =>
      var frame, ccid := p.frame + [b], p.ccid + [b];
      if read + 1 != HEADER_SIZE || |ccid| < HEADER_SIZE then
        (Parser(ReadHeader(read + 1), frame, ccid, p.received), None)
      else if PayloadLength(ccid) > MAX_PAYLOAD then (Finish(frame), Some(Error(Overflow)))
      else (Parser(AfterHeader(PayloadLength(ccid)), frame, ccid, p.received), None)
    case ReadPayload(remaining) =>
      (Parser(AfterPayloadByte(remaining), p.frame + [b], p.ccid + [b], p.received), None)
    case CheckLrc =>
      var frame := p.frame + [b];
      (Finish(frame), Some(if b == Lrc(p.frame) then Command(p.ccid) else Error(InvalidLrc)))
  }

  function AfterHeader(payload: nat): Phase {
    if payload == 0 then CheckLrc else ReadPayload(payload)
  }

  function AfterPayloadByte(remaining: nat): Phase {
    if remaining <= 1 then CheckLrc else ReadPayload(remaining - 1)
  }

  function FeedAll(p: Parser, s: seq<byte>): (Parser, List<Event>)
    decreases |s|
  {
    if s == [] then (p, Nil)
    else
      var (q, event) := Feed(p, s[0]);
      var (last, later) := FeedAll(q, s[1..]);
      (last, if event.Some? then Cons(event.value, later) else later)
  }

  // ---- Frame by frame ----

  // The parser after the first k bytes of the frame of a message.
  function Midway(ccid: seq<byte>, k: nat): Parser
    requires Message(ccid) && 1 <= k < |ccid| + 3
  {
    var phase :=
      if k == 1 then WaitCtrl
      else if k < 12 then ReadHeader(k - 2)
      else AfterHeader(|ccid| + 2 - k);
    Parser(phase, Unsealed(ccid)[..k], if k <= 2 then [] else ccid[..k - 2], [])
  }

  lemma FrameByte(ccid: seq<byte>, k: nat)
    requires 1 <= k < |ccid| + 2
    ensures Unsealed(ccid)[..k] + [Build(ccid)[k]] == Unsealed(ccid)[..k + 1]
    ensures Build(ccid)[0] == SYNC && Build(ccid)[1] == CTRL_ACK
    ensures k >= 2 ==> ccid[..k - 2] + [Build(ccid)[k]] == ccid[..k - 1]
  {
  }

  lemma FirstByte(ccid: seq<byte>, p: Parser)
    requires Message(ccid) && Idle(p)
    ensures Feed(p, Build(ccid)[0]) == (Midway(ccid, 1), None)
  {
    assert Unsealed(ccid)[..1] == [SYNC];
  }

  lemma SecondByte(ccid: seq<byte>)
    requires Message(ccid)
    ensures Feed(Midway(ccid, 1), Build(ccid)[1]) == (Midway(ccid, 2), None)
  {
    assert Unsealed(ccid)[..2] == [SYNC] + [CTRL_ACK];
    assert Unsealed(ccid)[..1] == [SYNC];
  }

  lemma HeaderBytes(ccid: seq<byte>, k: nat)
    requires Message(ccid) && 2 <= k < 12
    ensures Feed(Midway(ccid, k), Build(ccid)[k]) == (Midway(ccid, k + 1), None)
  {
    hide Build, Unsealed, PayloadLength, FromLe32;
    FrameByte(ccid, k);
    assert ccid[..0] == [];
    if k == 11 { HeaderLength(ccid); }
  }

  lemma HeaderLength(ccid: seq<byte>)
    requires |ccid| >= HEADER_SIZE
    ensures PayloadLength(ccid[..HEADER_SIZE]) == PayloadLength(ccid)
  {
    hide FromLe32;
  }

  lemma PayloadBytes(ccid: seq<byte>, k: nat)
    requires Message(ccid) && 12 <= k < |ccid| + 2
    ensures Feed(Midway(ccid, k), Build(ccid)[k]) == (Midway(ccid, k + 1), None)
  {
    FrameByte(ccid, k);
  }

  // Each byte of a built frame but the last moves the parser one step, silently.
  lemma SilentStep(ccid: seq<byte>, p: Parser, k: nat)
    requires Message(ccid) && k < |ccid| + 2
    requires if k == 0 then Idle(p) else p == Midway(ccid, k)
    ensures Feed(p, Build(ccid)[k]) == (Midway(ccid, k + 1), None)
  {
    hide *;
    if k == 0 {
      FirstByte(ccid, p);
    } else if k == 1 {
      SecondByte(ccid);
    } else if k < 12 {
      HeaderBytes(ccid, k);
    } else {
      PayloadBytes(ccid, k);
    }
  }

  // The last byte completes exactly the message, and the whole frame is the echo.
  lemma LastStep(ccid: seq<byte>)
    requires Message(ccid)
    ensures Feed(Midway(ccid, |ccid| + 2), Build(ccid)[|ccid| + 2]) == (Finish(Build(ccid)), Some(Command(ccid)))
  {
    assert Unsealed(ccid)[..|ccid| + 2] == Unsealed(ccid);
    assert ccid[..|ccid|] == ccid;
  }

  // Where a parser stands after k bytes of a frame that found it idle.
  predicate At(ccid: seq<byte>, p: Parser, k: nat)
    requires Message(ccid)
  {
    if k == 0 then Idle(p) else k <= |ccid| + 2 && p == Midway(ccid, k)
  }

  // Any strict piece of a built frame is silent.
  lemma {:induction false} SilentStretch(ccid: seq<byte>, p: Parser, i: nat, j: nat)
    requires Message(ccid) && i <= j <= |ccid| + 2 && At(ccid, p, i)
    ensures FeedAll(p, Build(ccid)[i..j]).1 == Nil
    ensures At(ccid, FeedAll(p, Build(ccid)[i..j]).0, j)
    decreases j - i
  {
    hide Feed, Midway, Message, Build, Idle;
    var s := Build(ccid)[i..j];
    if i < j {
      assert s[0] == Build(ccid)[i] && s[1..] == Build(ccid)[i + 1..j];
      SilentStep(ccid, p, i);
      SilentStretch(ccid, Midway(ccid, i + 1), i + 1, j);
    }
  }

  lemma {:induction false} FeedAllAppend(p: Parser, s: seq<byte>, t: seq<byte>)
    ensures var (q, a) := FeedAll(p, s);
            var (r, b) := FeedAll(q, t);
            FeedAll(p, s + t) == (r, Append(a, b))
    decreases |s|
  {
    hide Feed;
    if s == [] {
      assert s + t == t;
    } else {
      assert (s + t)[0] == s[0] && (s + t)[1..] == s[1..] + t;
      FeedAllAppend(Feed(p, s[0]).0, s[1..], t);
    }
  }

  // A tail that reaches the end of the frame yields exactly the message.
  lemma FinalStretch(ccid: seq<byte>, p: Parser, i: nat)
    requires Message(ccid) && i <= |ccid| + 2 && At(ccid, p, i)
    ensures FeedAll(p, Build(ccid)[i..]) == (Finish(Build(ccid)), Cons(Command(ccid), Nil))
  {
    hide Feed, Midway, Build, FeedAll;
    var n := |ccid| + 2;
    var frame := Build(ccid);
    SilentStretch(ccid, p, i, n);
    assert frame[i..] == frame[i..n] + [frame[n]];
    FeedAllAppend(p, frame[i..n], [frame[n]]);
    OneByte(Midway(ccid, n), frame[n]);
    LastStep(ccid);
  }

  lemma OneByte(p: Parser, b: byte)
    ensures FeedAll(p, [b]) == (Feed(p, b).0, var e := Feed(p, b).1; if e.Some? then Cons(e.value, Nil) else Nil)
  {
    hide Feed;
    assert [b][1..] == [];
  }

  // The frame builder and the firmware parser agree: a built frame is the one command
  // it carries and nothing before its last byte, echoed byte for byte.
  lemma BuildParses(ccid: seq<byte>, p: Parser, k: nat)
    requires Message(ccid) && Idle(p) && k <= |ccid| + 2
    ensures FeedAll(p, Build(ccid)[..k]).1 == Nil
    ensures FeedAll(p, Build(ccid)) == (Finish(Build(ccid)), Cons(Command(ccid), Nil))
  {
    hide Feed, Midway, Build, FeedAll;
    SilentStretch(ccid, p, 0, k);
    FinalStretch(ccid, p, 0);
    assert Build(ccid)[0..] == Build(ccid) && Build(ccid)[0..k] == Build(ccid)[..k];
  }

  // ---- The parser never outgrows its buffers ----

  predicate Fits(p: Parser) {
    && |p.received| <= MAX_FRAME
    && match p.phase
       case WaitSync => p.frame == [] && p.ccid == []
       case WaitCtrl => |p.frame| == 1 && p.ccid == []
       case ReadHeader(read) => read < HEADER_SIZE && |p.ccid| == read && |p.frame| == read + 2
       case ReadPayload(remaining) =>
         1 <= remaining && HEADER_SIZE <= |p.ccid| && |p.ccid| + remaining <= HEADER_SIZE + MAX_PAYLOAD &&
         |p.frame| == |p.ccid| + 2
       case CheckLrc => HEADER_SIZE <= |p.ccid| <= HEADER_SIZE + MAX_PAYLOAD && |p.frame| == |p.ccid| + 2
  }

  // No byte stream, however hostile, makes the parser hold more than 274 bytes.
  lemma {:induction false} NeverOverruns(p: Parser, s: seq<byte>)
    requires Fits(p)
    ensures Fits(FeedAll(p, s).0)
    decreases |s|
  {
    if s != [] {
      NeverOverruns(Feed(p, s[0]).0, s[1..]);
    }
  }

  // ---- What the parser accepts and refuses ----

  // What a parser in the middle of a frame holds is the end of what it was fed, and its
  // message is what the frame carries so far.
  predicate Holds(p: Parser, history: seq<byte>) {
    && |p.frame| <= |history| && history[|history| - |p.frame|..] == p.frame
    && match p.phase
       case WaitSync => p.frame == [] && p.ccid == []
       case WaitCtrl => p.frame == [0x03] && p.ccid == []
       case ReadHeader(read) => p.frame == [0x03, 0x06] + p.ccid && |p.ccid| == read < 10
       case ReadPayload(remaining) =>
         && p.frame == [0x03, 0x06] + p.ccid && |p.ccid| >= 10
         && remaining >= 1 && |p.ccid| + remaining == 10 + PayloadLength(p.ccid) <= 271
       case CheckLrc => p.frame == [0x03, 0x06] + p.ccid && 10 <= |p.ccid| == 10 + PayloadLength(p.ccid) <= 271
  }

  lemma FrameGrows(frame: seq<byte>, history: seq<byte>, b: byte)
    requires |frame| <= |history| && history[|history| - |frame|..] == frame
    ensures (history + [b])[|history| - |frame|..] == frame + [b]
    ensures (history + [b])[|history|..] == [b]
  {
  }

  lemma LengthKeeps(ccid: seq<byte>, b: byte)
    requires |ccid| >= 10
    ensures PayloadLength(ccid + [b]) == PayloadLength(ccid)
  {
    hide FromLe32;
  }

  lemma FeedHolds(p: Parser, history: seq<byte>, b: byte)
    requires Holds(p, history)
    ensures var (q, event) := Feed(p, b);
            && Holds(q, history + [b])
            && (event.Some? && event.value.Command? ==>
                  var ccid := event.value.ccid;
                  && Message(ccid) && |Build(ccid)| <= |history + [b]|
                  && (history + [b])[|history + [b]| - |Build(ccid)|..] == Build(ccid))
  {
    hide Lrc, FromLe32, PayloadLength;
    FrameGrows(p.frame, history, b);
    if p.phase.ReadHeader? {
      assert [0x03, 0x06] + p.ccid + [b] == [0x03, 0x06] + (p.ccid + [b]);
    } else if p.phase.ReadPayload? {
      assert [0x03, 0x06] + p.ccid + [b] == [0x03, 0x06] + (p.ccid + [b]);
      LengthKeeps(p.ccid, b);
    }
  }

  // The frame of this message stands somewhere in the stream.
  ghost predicate Occurs(ccid: seq<byte>, stream: seq<byte>) {
    exists before, after: seq<byte> :: stream == before + Build(ccid) + after
  }

  ghost predicate AllOccur(events: List<Event>, stream: seq<byte>) {
    match events
    case Nil => true
    case Cons(e, rest) => (e.Command? ==> Message(e.ccid) && Occurs(e.ccid, stream)) && AllOccur(rest, stream)
  }

  lemma EndOccurs(ccid: seq<byte>, history: seq<byte>, later: seq<byte>)
    requires |Build(ccid)| <= |history| && history[|history| - |Build(ccid)|..] == Build(ccid)
    ensures Occurs(ccid, history + later)
  {
    hide Build;
    assert history + later == history[..|history| - |Build(ccid)|] + Build(ccid) + later;
  }

  // Soundness: whatever the stream, every message the parser hands over stands in it as a
  // whole frame, marks, length and checksum.
  lemma {:induction false} ParserSound(p: Parser, history: seq<byte>, s: seq<byte>)
    requires Holds(p, history)
    ensures AllOccur(FeedAll(p, s).1, history + s)
    decreases |s|
  {
    hide Feed, Build, Message, Holds, Occurs;
    if s != [] {
      assert history + [s[0]] + s[1..] == history + s;
      FeedHolds(p, history, s[0]);
      var (q, event) := Feed(p, s[0]);
      if event.Some? && event.value.Command? { EndOccurs(event.value.ccid, history + [s[0]], s[1..]); }
      ParserSound(q, history + [s[0]], s[1..]);
    }
  }

  // A frame with any other last byte is the one error of its checksum, and the parser is idle.
  lemma WrongChecksumIsRefused(ccid: seq<byte>, p: Parser, b: byte)
    requires Message(ccid) && Idle(p) && b != Build(ccid)[|ccid| + 2]
    ensures var (q, events) := FeedAll(p, Build(ccid)[..|ccid| + 2] + [b]);
            Idle(q) && events == Cons(Error(InvalidLrc), Nil)
  {
    hide Feed, Midway, Build, FeedAll;
    var n := |ccid| + 2;
    SilentStretch(ccid, p, 0, n);
    assert Build(ccid)[0..n] == Build(ccid)[..n];
    FeedAllAppend(p, Build(ccid)[..n], [b]);
    OneByte(Midway(ccid, n), b);
    WrongLastStep(ccid, b);
  }

  lemma WrongLastStep(ccid: seq<byte>, b: byte)
    requires Message(ccid) && b != Build(ccid)[|ccid| + 2]
    ensures Feed(Midway(ccid, |ccid| + 2), b).1 == Some(Error(InvalidLrc))
    ensures Idle(Feed(Midway(ccid, |ccid| + 2), b).0)
  {
    hide Lrc;
    assert Unsealed(ccid)[..|ccid| + 2] == Unsealed(ccid);
  }

  // A header that announces more than 261 bytes is an overflow as soon as it is complete.
  lemma LongHeaderIsRefused(header: seq<byte>, p: Parser)
    requires |header| == 10 && PayloadLength(header) > 261 && Idle(p)
    ensures var (q, events) := FeedAll(p, [0x03, 0x06] + header);
            Idle(q) && events == Cons(Error(Overflow), Nil)
  {
    hide PayloadLength, FeedAll;
    FeedMarks(p, header);
    HeaderOverflows(Parser(ReadHeader(0), [0x03, 0x06], [], []), header, 0);
    assert header[0..] == header && header[..0] == [];
  }

  lemma FeedMarks(p: Parser, s: seq<byte>)
    requires Idle(p)
    ensures FeedAll(p, [0x03, 0x06] + s) == FeedAll(Parser(ReadHeader(0), [0x03, 0x06], [], []), s)
  {
    hide Feed, FeedAll;
    var q := Feed(p, 0x03).0;
    FeedAllAppend(p, [0x03, 0x06], s);
    FeedAllAppend(p, [0x03], [0x06]);
    assert [0x03, 0x06] == [0x03] + [0x06];
    OneByte(p, 0x03);
    OneByte(q, 0x06);
    MarksAre(p);
  }

  lemma MarksAre(p: Parser)
    requires Idle(p)
    ensures Feed(p, 0x03) == (Parser(WaitCtrl, [0x03], [], []), None)
    ensures Feed(Parser(WaitCtrl, [0x03], [], []), 0x06) == (Parser(ReadHeader(0), [0x03, 0x06], [], []), None)
  {
    assert [0x03] + [0x06] == [0x03, 0x06];
  }

  lemma {:induction false} HeaderOverflows(p: Parser, header: seq<byte>, k: nat)
    requires |header| == 10 && PayloadLength(header) > 261 && k < 10
    requires p.phase == ReadHeader(k) && p.ccid == header[..k]
    ensures var (q, events) := FeedAll(p, header[k..]);
            Idle(q) && events == Cons(Error(Overflow), Nil)
    decreases 10 - k
  {
    hide PayloadLength;
    assert header[k..][0] == header[k] && header[k..][1..] == header[k + 1..];
    assert header[..k] + [header[k]] == header[..k + 1];
    if k < 9 {
      HeaderOverflows(Feed(p, header[k]).0, header, k + 1);
    } else {
      assert header[..10] == header && header[10..] == [];
    }
  }

  // Bytes other than a SYNC are passed over between frames, a second SYNC starts over, and
  // anything but an ACK after one is an error that leaves the parser idle.
  lemma {:induction false} JunkIsSkipped(junk: seq<byte>, p: Parser)
    requires 0x03 !in junk && Idle(p)
    ensures FeedAll(p, junk).1 == Nil && Idle(FeedAll(p, junk).0)
    decreases |junk|
  {
    if junk != [] { JunkIsSkipped(junk[1..], Feed(p, junk[0]).0); }
  }

  lemma MarksRecover(p: Parser, c: byte)
    requires Idle(p)
    ensures FeedAll(p, [0x03, 0x03]) == FeedAll(p, [0x03])
    ensures c != 0x03 && c != 0x06 ==>
              var (q, events) := FeedAll(p, [0x03, c]);
              Idle(q) && events == Cons(Error(if c == 0x15 then NakReceived else InvalidCtrl), Nil)
  {
    hide FeedAll;
    var q := Parser(WaitCtrl, [0x03], [], []);
    MarksAre(p);
    OneByte(p, 0x03);
    OneByte(q, 0x03);
    OneByte(q, c);
    FeedAllAppend(p, [0x03], [0x03]);
    FeedAllAppend(p, [0x03], [c]);
    assert [0x03, 0x03] == [0x03] + [0x03] && [0x03, c] == [0x03] + [c];
  }
}
