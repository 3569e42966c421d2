/** The CDC-to-PTY broker: GemPC frame scanning and the power-off shim. */
module Broker {
  import opened Bytes
  import opened GemPc

  const MSG_ICC_POWER_OFF: byte := 0x63
  const SANE_MAX: nat := 13 + 261
  const BUFFER_MAX: nat := 13 + 65535

  // ---- One scan of a byte stream, defined on the stream itself ----

  // The frame length announced by the header at the head of s.
  function Announced(s: seq<byte>): nat
    requires |s| >= 13
  {
    13 + FromLe32(s[3], s[4], s[5], s[6])
  }

  // A plausible anchor: SYNC with a length field the firmware could honour.
  predicate Anchor(s: seq<byte>) {
    |s| >= 13 && s[0] == SYNC && Announced(s) <= SANE_MAX
  }

  // How a left-to-right scan of s comes to rest: at a complete frame, at a
  // plausible but incomplete one, or with too few bytes left to judge.
  datatype Stop = Complete(at: nat, len: nat) | Partial(at: nat, len: nat) | Short(at: nat)

  function Later(stop: Stop, offset: nat): Stop {
    stop.(at := stop.at + offset)
  }

  function Scan(s: seq<byte>): (stop: Stop)
    ensures stop.at <= |s|
    ensures stop.Complete? ==> 13 <= stop.len && stop.at + stop.len <= |s|
  {
    if |s| < 13 then Short(0)
    else if !Anchor(s) then Later(Scan(s[1..]), 1)
    else if Announced(s) > |s| then Partial(0, Announced(s))
    else Complete(0, Announced(s))
  }

  type Frame = f: seq<byte> | |f| >= 13 witness [0, 0, 0, 0, 0, 0, 0, 0, 0, 0, 0, 0, 0]

  // The bytes passed over before a frame, and the frame.
  datatype Piece = Piece(junk: seq<byte>, frame: Frame)

  datatype Cut = Cut(pieces: List<Piece>, rest: seq<byte>)

  function CutStream(s: seq<byte>): Cut
    decreases |s|
  {
    var stop := Scan(s);
    if !stop.Complete? then Cut(Nil, s)
    else
      var end := stop.at + stop.len;
      var later := CutStream(s[end..]);
      Cut(Cons(Piece(s[..stop.at], s[stop.at..end]), later.pieces), later.rest)
  }

  function AllBytes(ps: List<Piece>): seq<byte> {
    match ps
    case Nil => []
    case Cons(p, rest) => p.junk + p.frame + AllBytes(rest)
  }

  predicate IsPowerOff(frame: Frame) {
    frame[2] == MSG_ICC_POWER_OFF
  }

  function Kept(frame: Frame): seq<byte> {
    if IsPowerOff(frame) then [] else frame
  }

  // Everything but the IccPowerOff frames, in order.
  function Forwarded(ps: List<Piece>): seq<byte> {
    match ps
    case Nil => []
    case Cons(p, rest) => p.junk + Kept(p.frame) + Forwarded(rest)
  }

  // Echo of the request, then the SlotStatus the firmware would have sent.
  function PowerOffAnswer(frame: Frame): seq<byte> {
    var body: seq<byte> := [SYNC, CTRL_ACK, 0x81, 0, 0, 0, 0, 0, frame[8], 0x01, 0x00, 0x00];
    frame + body + [Lrc(body)]
  }

  function Answer(frame: Frame): seq<byte> {
    if IsPowerOff(frame) then PowerOffAnswer(frame) else []
  }

  // One answer for each IccPowerOff frame, in order.
  function Answers(ps: List<Piece>): seq<byte> {
    match ps
    case Nil => []
    case Cons(p, rest) => Answer(p.frame) + Answers(rest)
  }

  // ---- Laws of the scan ----

  // What a resting place means.
  lemma {:induction false} ScanMeaning(s: seq<byte>)
    ensures var stop := Scan(s);
            match stop
            case Complete(at, len) => Anchor(s[at..]) && Announced(s[at..]) == len <= |s| - at
            case Partial(at, len) => Anchor(s[at..]) && |s| - at < len == Announced(s[at..])
            case Short(at) => |s| - at < 13
  {
    if |s| >= 13 {
      if Anchor(s) {
        assert s[0..] == s;
      } else {
        ScanMeaning(s[1..]);
        assert s[1..][Scan(s[1..]).at..] == s[Scan(s).at..];
      }
    }
  }

  // The scan passes each byte before its resting place because no plausible anchor
  // starts there; in particular an oversized length field never holds it.
  lemma {:induction false} OnlyGarbageIsSkipped(s: seq<byte>, i: nat)
    requires i < Scan(s).at
    ensures i + 13 <= |s| && !Anchor(s[i..])
  {
    if i == 0 {
      assert s[0..] == s;
    } else {
      OnlyGarbageIsSkipped(s[1..], i - 1);
      assert s[1..][i - 1..] == s[i..];
    }
  }

  predicate AllFrames(ps: List<Piece>) {
    match ps
    case Nil => true
    case Cons(p, rest) => Anchor(p.frame) && Announced(p.frame) == |p.frame| && AllFrames(rest)
  }

  lemma Reassemble(s: seq<byte>, i: nat, j: nat, a: seq<byte>, b: seq<byte>)
    requires i <= j <= |s| && a + b == s[j..]
    ensures s[..i] + s[i..j] + a + b == s
  {
    assert s[..i] + s[i..j] + a + b == s[..i] + s[i..j] + (a + b);
  }

  lemma FrameDelimited(s: seq<byte>)
    requires Scan(s).Complete?
    ensures var stop := Scan(s);
            var frame := s[stop.at..stop.at + stop.len];
            Anchor(frame) && Announced(frame) == |frame|
  {
    ScanMeaning(s);
  }

  lemma CutIs(s: seq<byte>)
    ensures var stop := Scan(s);
            if !stop.Complete? then CutStream(s) == Cut(Nil, s)
            else
              var end := stop.at + stop.len;
              var later := CutStream(s[end..]);
              CutStream(s) == Cut(Cons(Piece(s[..stop.at], s[stop.at..end]), later.pieces), later.rest)
  {
    hide Scan;
  }

  lemma PieceFirst(junk: seq<byte>, frame: Frame, rest: List<Piece>)
    ensures AllBytes(Cons(Piece(junk, frame), rest)) == junk + frame + AllBytes(rest)
    ensures AllFrames(Cons(Piece(junk, frame), rest)) <==>
              Anchor(frame) && Announced(frame) == |frame| && AllFrames(rest)
  {
    hide Anchor, Announced;
  }

  lemma NoPieces(s: seq<byte>)
    ensures AllBytes(Nil) + s == s && AllFrames(Nil)
  {
  }

  // Conservation: cutting loses and invents nothing, delimits whole frames only,
  // and retains a tail that holds no complete frame.
  lemma {:induction false} CutConserves(s: seq<byte>)
    ensures AllBytes(CutStream(s).pieces) + CutStream(s).rest == s
    ensures AllFrames(CutStream(s).pieces)
    ensures !Scan(CutStream(s).rest).Complete?
    decreases |s|
  {
    hide *;
    var stop := Scan(s);
    CutIs(s);
    if !stop.Complete? {
      NoPieces(s);
    } else {
      var end := stop.at + stop.len;
      var later := CutStream(s[end..]);
      CutConserves(s[end..]);
      PieceFirst(s[..stop.at], s[stop.at..end], later.pieces);
      Reassemble(s, stop.at, end, AllBytes(later.pieces), later.rest);
      FrameDelimited(s);
    }
  }

  // More bytes on the right never change a frame already found.
  lemma {:induction false} ScanMonotone(s: seq<byte>, more: seq<byte>)
    requires Scan(s).Complete?
    ensures Scan(s + more) == Scan(s)
  {
    assert (s + more)[..13] == s[..13];
    if !Anchor(s) {
      assert (s + more)[1..] == s[1..] + more;
      ScanMonotone(s[1..], more);
    }
  }

  lemma PrefixKept(s: seq<byte>, more: seq<byte>, i: nat, j: nat)
    requires i <= j <= |s|
    ensures (s + more)[..i] == s[..i]
    ensures (s + more)[i..j] == s[i..j]
    ensures (s + more)[j..] == s[j..] + more
  {
  }

  // Cutting a stream in two steps is cutting it in one.
  lemma {:induction false} CutAppend(s: seq<byte>, more: seq<byte>)
    ensures var first := CutStream(s);
            var second := CutStream(first.rest + more);
            CutStream(s + more) == Cut(Append(first.pieces, second.pieces), second.rest)
    decreases |s|
  {
    hide Scan, CutStream, Append;
    var stop := Scan(s);
    CutIs(s);
    if !stop.Complete? {
      AppendNone(CutStream(s + more).pieces);
    } else {
      ScanMonotone(s, more);
      CutIs(s + more);
      AppendRest(Piece(s[..stop.at], s[stop.at..stop.at + stop.len]), CutStream(s[stop.at + stop.len..]).pieces,
                 CutStream(CutStream(s).rest + more).pieces);
      var end := stop.at + stop.len;
      PrefixKept(s, more, stop.at, end);
      CutAppend(s[end..], more);
    }
  }

  lemma AppendNone(ps: List<Piece>)
    ensures Append(Nil, ps) == ps
  {
  }

  lemma AppendRest(p: Piece, a: List<Piece>, b: List<Piece>)
    ensures Append(Cons(p, a), b) == Cons(p, Append(a, b))
  {
  }

  lemma Reassoc3(a: seq<byte>, b: seq<byte>, c: seq<byte>)
    ensures a + (b + c) == a + b + c
  {
  }

  lemma {:induction false} OutputsAppend(a: List<Piece>, b: List<Piece>)
    ensures Forwarded(Append(a, b)) == Forwarded(a) + Forwarded(b)
    ensures Answers(Append(a, b)) == Answers(a) + Answers(b)
  {
    hide Kept, Answer;
    match a
    case Nil =>
    case Cons(p, rest) =>
      OutputsAppend(rest, b);
      Reassoc3(p.junk + Kept(p.frame), Forwarded(rest), Forwarded(b));
      Reassoc3(Answer(p.frame), Answers(rest), Answers(b));
  }

  // A scan resting on a partial frame waits for a bounded number of bytes: fewer than
  // 274 lie from the anchor on, and once the announced length is there (so after at
  // most 274 more bytes, whatever they are) that very frame is released.
  lemma {:induction false} BoundedWait(s: seq<byte>, more: seq<byte>)
    requires Scan(s).Partial?
    ensures var stop := Scan(s);
            && |s| - stop.at < stop.len <= SANE_MAX
            && Scan(s + more) == if |s + more| - stop.at >= stop.len then Complete(stop.at, stop.len) else stop
  {
    assert (s + more)[..13] == s[..13];
    if !Anchor(s) {
      assert (s + more)[1..] == s[1..] + more;
      BoundedWait(s[1..], more);
    }
  }

  // ---- The loops of the broker ----

  datatype Span = Span(start: nat, end: nat, kind: byte)

  // Where the frames of buf lie, the scan starting at pos.
  function Spans(buf: seq<byte>, pos: nat): List<Span>
    requires pos <= |buf|
    decreases |buf| - pos
  {
    var stop := Scan(buf[pos..]);
    if !stop.Complete? then Nil
    else
      var start := pos + stop.at;
      Cons(Span(start, start + stop.len, buf[start + 2]), Spans(buf, start + stop.len))
  }

  // The scanning loop has reached i, and every frame before `from` is in frames.
  ghost predicate Scanning(buf: seq<byte>, frames: List<Span>, from: nat, i: nat) {
    && from <= i <= |buf|
    && Append(frames, Spans(buf, from)) == Spans(buf, 0)
    && Later(Scan(buf[i..]), i - from) == Scan(buf[from..])
  }

  lemma ScanStarts(buf: seq<byte>)
    ensures Scanning(buf, Nil, 0, 0)
  {
    assert buf[0..] == buf;
  }

  lemma ScanSkips(buf: seq<byte>, frames: List<Span>, from: nat, i: nat)
    requires Scanning(buf, frames, from, i) && i + 13 <= |buf|
    requires buf[i] != SYNC || 13 + FromLe32(buf[i + 3], buf[i + 4], buf[i + 5], buf[i + 6]) > SANE_MAX
    ensures Scanning(buf, frames, from, i + 1)
  {
    assert buf[i..][1..] == buf[i + 1..];
  }

  lemma ScanTakes(buf: seq<byte>, frames: List<Span>, from: nat, i: nat, total: nat)
    requires Scanning(buf, frames, from, i) && i + 13 <= |buf|
    requires buf[i] == SYNC && total == 13 + FromLe32(buf[i + 3], buf[i + 4], buf[i + 5], buf[i + 6])
    requires total <= SANE_MAX && i + total <= |buf|
    ensures Scanning(buf, Append(frames, Cons(Span(i, i + total, buf[i + 2]), Nil)), i + total, i + total)
  {
    AppendAssoc(frames, Cons(Span(i, i + total, buf[i + 2]), Nil), Spans(buf, i + total));
  }

  lemma ScanRests(buf: seq<byte>, frames: List<Span>, from: nat, i: nat)
    requires Scanning(buf, frames, from, i)
    requires i + 13 <= |buf| ==>
               var total := 13 + FromLe32(buf[i + 3], buf[i + 4], buf[i + 5], buf[i + 6]);
               buf[i] == SYNC && |buf| - i < total <= SANE_MAX
    ensures frames == Spans(buf, 0)
  {
    AppendNil(frames);
  }

  method SplitFrames(buf: seq<byte>) returns (frames: List<Span>)
    ensures frames == Spans(buf, 0)
  {
    hide *;
    frames := Nil;
    var i: nat := 0;
    ghost var from: nat := 0;
    ScanStarts(buf);
    while i + 13 <= |buf|
      invariant i <= |buf| && Scanning(buf, frames, from, i)
      decreases |buf| - i
    {
      if buf[i] != SYNC {
        ScanSkips(buf, frames, from, i);
        i := i + 1;
        continue;
      }
      var dlen := FromLe32(buf[i + 3], buf[i + 4], buf[i + 5], buf[i + 6]);
      var total := 13 + dlen;
      if total > SANE_MAX {
        ScanSkips(buf, frames, from, i);
        i := i + 1;
        continue;
      }
      if total > |buf| - i {
        break;
      }
      ScanTakes(buf, frames, from, i, total);
      frames := Append(frames, Cons(Span(i, i + total, buf[i + 2]), Nil));
      i := i + total;
      from := i;
    }
    ScanRests(buf, frames, from, i);
  }

  // The first answer in buf: a checksummed frame whose type has the top bit set.
  predicate ReaderFrameAt(buf: seq<byte>, i: nat) {
    && i + 13 <= |buf|
    && buf[i] == SYNC
    && var total := Announced(buf[i..]);
    && total <= |buf| - i
    && buf[i + 2] >= 0x80
    && Lrc(buf[i..i + total - 1]) == buf[i + total - 1]
  }

  method FirstRdrFrame(buf: seq<byte>) returns (found: Option<seq<byte>>)
    ensures found.None? ==> forall i: nat :: !ReaderFrameAt(buf, i)
    ensures found.Some? ==>
              exists i: nat :: ReaderFrameAt(buf, i) && found.value == buf[i..i + Announced(buf[i..])]
                               && forall j: nat :: j < i ==> !ReaderFrameAt(buf, j)
  {
    hide ReaderFrameAt, Lrc, FromLe32, Announced;
    var i := 0;
    while i + 13 <= |buf|
      invariant forall j: nat :: j < i ==> !ReaderFrameAt(buf, j)
    {
      ReaderFrameIs(buf, i);
      if buf[i] == SYNC {
        var total := 13 + FromLe32(buf[i + 3], buf[i + 4], buf[i + 5], buf[i + 6]);
        if total <= |buf| - i && buf[i + 2] >= 0x80 && Lrc(buf[i..i + total - 1]) == buf[i + total - 1] {
          return Some(buf[i..i + total]);
        }
      }
      i := i + 1;
    }
    forall j: nat | i <= j ensures !ReaderFrameAt(buf, j) { ReaderFrameFits(buf, j); }
    return None;
  }

  lemma ReaderFrameIs(buf: seq<byte>, i: nat)
    requires i + 13 <= |buf|
    ensures var total := 13 + FromLe32(buf[i + 3], buf[i + 4], buf[i + 5], buf[i + 6]);
            && Announced(buf[i..]) == total
            && (ReaderFrameAt(buf, i) <==>
                  buf[i] == SYNC && total <= |buf| - i && buf[i + 2] >= 0x80 &&
                  Lrc(buf[i..i + total - 1]) == buf[i + total - 1])
  {
    hide Lrc, FromLe32;
  }

  lemma ReaderFrameFits(buf: seq<byte>, i: nat)
    ensures ReaderFrameAt(buf, i) ==> i + 13 <= |buf|
  {
    hide Lrc, Announced;
  }

  // ---- The shim ----

  class PowerOffShim {
    var enabled: bool
    var buf: seq<byte>
    var lastRx: int

    constructor (enabled: bool, now: int)
      ensures this.enabled == enabled && buf == [] && lastRx == now
    {
      this.enabled := enabled;
      buf := [];
      lastRx := now;
    }

    // The call works on what was held back and the new bytes; a partial frame older than the gap
    // is dropped first.
    method Process(data: seq<byte>, now: int, cutoff: int) returns (forward: seq<byte>, synth: seq<byte>)
      modifies this
      ensures enabled == old(enabled) && lastRx == now
      ensures var stale := old(buf) != [] && now - old(lastRx) > cutoff;
              var pending := (if stale then [] else old(buf)) + data;
              if !enabled || |pending| > 13 + 65535 then
                forward == pending && synth == [] && buf == []
              else
                var cut := CutStream(pending);
                forward == Forwarded(cut.pieces) && synth == Answers(cut.pieces) && buf == cut.rest
    {
      hide Scan, CutStream, Spans, Forwarded, Answers, LastEnd;
      if buf != [] && now - lastRx > cutoff {
        buf := [];
      }
      lastRx := now;
      buf := buf + data;
      if !enabled || |buf| > BUFFER_MAX {
        forward, synth, buf := buf, [], [];
        return;
      }
      var frames := SplitFrames(buf);
      if frames.Nil? {
        NothingToEmit(buf);
        return [], [];
      }
      SpansBounded(buf, 0);
      var end := LastEnd(frames);
      forward, synth := EmitFrames(buf[..end], frames, buf);
      buf := buf[end..];
    }
  }

  lemma NothingToEmit(buf: seq<byte>)
    requires Spans(buf, 0).Nil?
    ensures var cut := CutStream(buf); Forwarded(cut.pieces) == [] && Answers(cut.pieces) == [] && cut.rest == buf
  {
    hide Scan;
    assert buf[0..] == buf;
  }

  function LastEnd(frames: List<Span>): nat
    requires frames.Cons?
  {
    if frames.tail.Nil? then frames.head.end else LastEnd(frames.tail)
  }

  lemma {:induction false} SpansBounded(buf: seq<byte>, pos: nat)
    requires pos <= |buf| && Spans(buf, pos).Cons?
    ensures var fs := Spans(buf, pos);
            && pos <= fs.head.start && fs.head.start + 13 <= fs.head.end <= LastEnd(fs) <= |buf|
            && Spans(buf, LastEnd(fs)).Nil?
    decreases |buf| - pos
  {
    var fs := Spans(buf, pos);
    if fs.tail.Cons? {
      SpansBounded(buf, fs.head.end);
    }
  }

  // The forwarding loop of PowerOffShim.Process, over the bytes up to the last frame.
  method EmitFrames(chunk: seq<byte>, frames: List<Span>, ghost pending: seq<byte>)
    returns (forward: seq<byte>, synth: seq<byte>)
    requires frames == Spans(pending, 0) && frames.Cons? && LastEnd(frames) <= |pending|
    requires chunk == pending[..LastEnd(frames)]
    ensures var cut := CutStream(pending);
            forward == Forwarded(cut.pieces) && synth == Answers(cut.pieces) && cut.rest == pending[|chunk|..]
  {
    hide *;
    forward, synth := [], [];
    var pos: nat := 0;
    var left := frames;
    EmitStarts(pending);
    while left.Cons?
      invariant pos <= |chunk| && left == Spans(pending, pos)
      invariant if left.Cons? then LastEnd(left) == |chunk| else pos == |chunk|
      invariant SameAhead(pending, forward, synth, pos)
      decreases left
    {
      var f := left.head;
      EmitOne(pending, chunk, forward, synth, pos);
      forward := forward + chunk[pos..f.start];
      if f.kind == MSG_ICC_POWER_OFF {
        synth := synth + PowerOffAnswer(chunk[f.start..f.end]);
      } else {
        forward := forward + chunk[f.start..f.end];
      }
      pos := f.end;
      left := left.tail;
    }
    EmitEnds(pending, forward, synth, pos);
    forward := forward + chunk[pos..];
  }

  lemma EmitStarts(pending: seq<byte>)
    ensures SameAhead(pending, [], [], 0)
  {
    assert pending[0..] == pending;
  }

  lemma EmitEnds(pending: seq<byte>, forward: seq<byte>, synth: seq<byte>, pos: nat)
    requires SameAhead(pending, forward, synth, pos) && pos <= |pending| && Spans(pending, pos).Nil?
    ensures var cut := CutStream(pending);
            forward == Forwarded(cut.pieces) && synth == Answers(cut.pieces) && cut.rest == pending[pos..]
  {
  }

  // What was emitted so far, and the cut of what lies ahead, make the whole cut.
  ghost predicate SameAhead(pending: seq<byte>, forward: seq<byte>, synth: seq<byte>, pos: nat) {
    pos <= |pending| &&
    var whole := CutStream(pending);
    var left := CutStream(pending[pos..]);
    && Forwarded(whole.pieces) == forward + Forwarded(left.pieces)
    && Answers(whole.pieces) == synth + Answers(left.pieces)
    && whole.rest == left.rest
  }

  lemma SliceOfPrefix(s: seq<byte>, n: nat, i: nat, j: nat)
    requires i <= j <= n <= |s|
    ensures s[..n][i..j] == s[i..j]
  {
  }

  // One frame of the cut, in terms of positions in the buffer.
  lemma UnfoldCut(buf: seq<byte>, pos: nat)
    requires pos <= |buf| && Spans(buf, pos).Cons?
    ensures var f := Spans(buf, pos).head;
            && pos <= f.start && f.start + 13 <= f.end <= |buf|
            && f.kind == buf[f.start..f.end][2]
            && var later := CutStream(buf[f.end..]);
            CutStream(buf[pos..]) == Cut(Cons(Piece(buf[pos..f.start], buf[f.start..f.end]), later.pieces), later.rest)
  {
    hide Scan;
    var stop := Scan(buf[pos..]);
    SliceOfSuffix(buf, pos, stop.at, stop.at + stop.len);
  }

  lemma SliceOfSuffix(s: seq<byte>, k: nat, i: nat, j: nat)
    requires i <= j && k + j <= |s|
    ensures s[k..][..i] == s[k..k + i]
    ensures s[k..][i..j] == s[k + i..k + j]
    ensures s[k..][j..] == s[k + j..]
  {
  }

  // Moving past one piece of what lies ahead.
  lemma AheadStep(pending: seq<byte>, forward: seq<byte>, synth: seq<byte>, pos: nat, end: nat, piece: Piece)
    requires SameAhead(pending, forward, synth, pos) && end <= |pending|
    requires var later := CutStream(pending[end..]);
             CutStream(pending[pos..]) == Cut(Cons(piece, later.pieces), later.rest)
    ensures SameAhead(pending, forward + piece.junk + Kept(piece.frame), synth + Answer(piece.frame), end)
  {
    hide CutStream, Kept, Answer;
    var later := CutStream(pending[end..]);
    Reassoc(forward, piece.junk, Kept(piece.frame), Forwarded(later.pieces));
    Reassoc3(synth, Answer(piece.frame), Answers(later.pieces));
  }

  lemma KeptOrAnswered(passed: seq<byte>, synth: seq<byte>, frame: Frame)
    ensures if frame[2] == MSG_ICC_POWER_OFF then
              passed + Kept(frame) == passed && Answer(frame) == PowerOffAnswer(frame)
            else Kept(frame) == frame && synth + Answer(frame) == synth
  {
    hide PowerOffAnswer;
  }

  // One turn of the forwarding loop keeps SameAhead.
  lemma EmitOne(pending: seq<byte>, chunk: seq<byte>, forward: seq<byte>, synth: seq<byte>, pos: nat)
    requires SameAhead(pending, forward, synth, pos)
    requires pos <= |chunk| <= |pending| && chunk == pending[..|chunk|]
    requires Spans(pending, pos).Cons? && LastEnd(Spans(pending, pos)) == |chunk|
    ensures var fs := Spans(pending, pos);
            var f := fs.head;
            && pos <= f.start && f.start + 13 <= f.end <= |chunk|
            && fs.tail == Spans(pending, f.end)
            && (if fs.tail.Cons? then LastEnd(fs.tail) == |chunk| else f.end == |chunk|)
            && var frame := chunk[f.start..f.end];
            && var passed := forward + chunk[pos..f.start];
            if f.kind == MSG_ICC_POWER_OFF then SameAhead(pending, passed, synth + PowerOffAnswer(frame), f.end)
            else SameAhead(pending, passed + frame, synth, f.end)
  {
    hide *;
    SpansStep(pending, pos);
    var f := Spans(pending, pos).head;
    UnfoldCut(pending, pos);
    SliceOfPrefix(pending, |chunk|, pos, f.start);
    SliceOfPrefix(pending, |chunk|, f.start, f.end);
    var frame := pending[f.start..f.end];
    AheadStep(pending, forward, synth, pos, f.end, Piece(pending[pos..f.start], frame));
    KeptOrAnswered(forward + pending[pos..f.start], synth, frame);
  }

  lemma SpansStep(buf: seq<byte>, pos: nat)
    requires pos <= |buf| && Spans(buf, pos).Cons?
    ensures var fs := Spans(buf, pos);
            && pos <= fs.head.start && fs.head.start + 13 <= fs.head.end <= LastEnd(fs) <= |buf|
            && fs.tail == Spans(buf, fs.head.end)
            && (if fs.tail.Cons? then LastEnd(fs.tail) == LastEnd(fs) else fs.head.end == LastEnd(fs))
  {
    hide Scan;
    SpansBounded(buf, pos);
  }

  lemma Reassoc(a: seq<byte>, b: seq<byte>, c: seq<byte>, d: seq<byte>)
    ensures a + (b + c + d) == a + b + c + d
  {
  }

  // ---- Whole runs ----

  datatype Output = Output(forward: seq<byte>, synth: seq<byte>, buf: seq<byte>)

  // The outputs of a run of Process calls on an enabled shim with no idle flush and
  // no overflow.
  function Run(buf: seq<byte>, chunks: List<seq<byte>>): Output
    decreases chunks
  {
    match chunks
    case Nil => Output([], [], buf)
    case Cons(chunk, rest) =>
      var cut := CutStream(buf + chunk);
      var later := Run(cut.rest, rest);
      Output(Forwarded(cut.pieces) + later.forward, Answers(cut.pieces) + later.synth, later.buf)
  }

  predicate NeverOverflows(buf: seq<byte>, chunks: List<seq<byte>>)
    decreases chunks
  {
    match chunks
    case Nil => true
    case Cons(chunk, rest) =>
      |buf + chunk| <= BUFFER_MAX && NeverOverflows(CutStream(buf + chunk).rest, rest)
  }

  lemma CutNil(s: seq<byte>)
    requires !Scan(s).Complete?
    ensures CutStream(s) == Cut(Nil, s)
  {
  }

  // Chunking never shows: however a stream is divided into calls, the run forwards,
  // answers and retains what one scan of the whole stream does.
  lemma {:induction false} ChunkingInvariance(buf: seq<byte>, chunks: List<seq<byte>>)
    requires !Scan(buf).Complete?
    ensures var cut := CutStream(buf + Join(chunks));
            Run(buf, chunks) == Output(Forwarded(cut.pieces), Answers(cut.pieces), cut.rest)
    decreases chunks
  {
    hide Scan, CutStream;
    match chunks
    case Nil =>
      assert buf + [] == buf;
      CutNil(buf);
    case Cons(chunk, rest) =>
      var head := CutStream(buf + chunk);
      CutConserves(buf + chunk);
      ChunkingInvariance(head.rest, rest);
      CutAppend(buf + chunk, Join(rest));
      assert buf + chunk + Join(rest) == buf + (chunk + Join(rest));
      OutputsAppend(head.pieces, CutStream(head.rest + Join(rest)).pieces);
  }

  // The calls of a run arrive within the idle gap of one another.
  predicate NeverIdle(last: int, times: List<int>, cutoff: int)
    decreases times
  {
    match times
    case Nil => true
    case Cons(t, rest) => t - last <= cutoff && NeverIdle(t, rest, cutoff)
  }

  // A whole run of calls on the real object.
  method Relay(shim: PowerOffShim, chunks: List<seq<byte>>, times: List<int>, cutoff: int)
    returns (forward: seq<byte>, synth: seq<byte>)
    requires shim.enabled && shim.buf == [] && Length(times) == Length(chunks)
    requires NeverIdle(shim.lastRx, times, cutoff) && NeverOverflows([], chunks)
    modifies shim
    ensures var cut := CutStream(Join(chunks));
            forward == Forwarded(cut.pieces) && synth == Answers(cut.pieces) && shim.buf == cut.rest
  {
    hide Scan, CutStream, Forwarded, Answers, Run, Underway, NeverIdle, NeverOverflows;
    forward, synth := [], [];
    var left, clock := chunks, times;
    RunStarts(chunks);
    while left.Cons?
      invariant shim.enabled && Length(clock) == Length(left)
      invariant NeverIdle(shim.lastRx, clock, cutoff) && NeverOverflows(shim.buf, left)
      invariant Underway(chunks, left, forward, synth, shim.buf)
      decreases left
    {
      RunSteps(chunks, left, forward, synth, shim.buf);
      RunClock(shim.lastRx, clock, cutoff, left);
      var f, s := shim.Process(left.head, clock.head, cutoff);
      forward, synth := forward + f, synth + s;
      left, clock := left.tail, clock.tail;
    }
    RunEnds(chunks, left, forward, synth, shim.buf);
  }

  // The outputs so far, continued by a run over what is left, make the whole run.
  ghost predicate Underway(chunks: List<seq<byte>>, left: List<seq<byte>>, forward: seq<byte>, synth: seq<byte>,
                           buf: seq<byte>)
  {
    var later := Run(buf, left);
    Run([], chunks) == Output(forward + later.forward, synth + later.synth, later.buf)
  }

  lemma RunStarts(chunks: List<seq<byte>>)
    ensures Underway(chunks, chunks, [], [], [])
  {
  }

  lemma RunSteps(chunks: List<seq<byte>>, left: List<seq<byte>>, forward: seq<byte>, synth: seq<byte>, buf: seq<byte>)
    requires Underway(chunks, left, forward, synth, buf) && NeverOverflows(buf, left) && left.Cons?
    ensures |buf + left.head| <= BUFFER_MAX
    ensures var cut := CutStream(buf + left.head);
            && Underway(chunks, left.tail, forward + Forwarded(cut.pieces), synth + Answers(cut.pieces), cut.rest)
            && NeverOverflows(cut.rest, left.tail)
  {
    hide CutStream, Scan, Forwarded, Answers;
    var cut := CutStream(buf + left.head);
    var later := Run(cut.rest, left.tail);
    assert forward + (Forwarded(cut.pieces) + later.forward) == forward + Forwarded(cut.pieces) + later.forward;
    assert synth + (Answers(cut.pieces) + later.synth) == synth + Answers(cut.pieces) + later.synth;
  }

  lemma RunClock(last: int, clock: List<int>, cutoff: int, left: List<seq<byte>>)
    requires NeverIdle(last, clock, cutoff) && Length(clock) == Length(left) && left.Cons?
    ensures clock.Cons? && clock.head - last <= cutoff && NeverIdle(clock.head, clock.tail, cutoff)
    ensures Length(clock.tail) == Length(left.tail)
  {
  }

  lemma RunEnds(chunks: List<seq<byte>>, left: List<seq<byte>>, forward: seq<byte>, synth: seq<byte>, buf: seq<byte>)
    requires Underway(chunks, left, forward, synth, buf) && left.Nil?
    ensures var cut := CutStream(Join(chunks));
            forward == Forwarded(cut.pieces) && synth == Answers(cut.pieces) && buf == cut.rest
  {
    hide Scan, CutStream;
    assert [] + Join(chunks) == Join(chunks);
    ScanEmpty();
    ChunkingInvariance([], chunks);
  }

  lemma ScanEmpty()
    ensures !Scan([]).Complete?
  {
  }
}
