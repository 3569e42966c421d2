/** What the broker's power-off shim is to the host behind it. */
module BrokerHost {
  import opened Bytes
  import opened GemPc
  import opened Broker
  import IfdCodec

  // ---- The synthesised answer ----

  // A SlotStatus for this request, as a receiver takes it: inactive card, no error, no data.
  predicate IsStatusOf(reply: seq<byte>, request: seq<byte>) {
    && IfdCodec.Sealed(reply) && |request| >= 13 && |reply| == 13
    && reply[2] == 0x81 && reply[7] == 0 && reply[8] == request[8]
    && reply[9] == 1 && reply[10] == 0 && reply[11] == 0
  }

  // Behind the echo of the request comes one sealed frame, the SlotStatus.
  lemma PowerOffAnswerReads(f: Frame, rest: seq<byte>)
    requires IfdCodec.Sealed(f)
    ensures var reply := PowerOffAnswer(f)[|f|..];
            && IfdCodec.Recv(PowerOffAnswer(f) + rest) == IfdCodec.Got(f, reply + rest)
            && IfdCodec.Recv(reply + rest) == IfdCodec.Got(reply, rest)
            && IsStatusOf(reply, f)
  {
    hide Lrc, IfdCodec.Recv, IfdCodec.Sealed;
    var reply := PowerOffAnswer(f)[|f|..];
    StatusIsSealed(f);
    assert PowerOffAnswer(f) + rest == f + (reply + rest);
    SealedIsReceived(f, reply + rest);
    SealedIsReceived(reply, rest);
  }

  lemma StatusIsSealed(f: Frame)
    ensures var reply := PowerOffAnswer(f)[|f|..]; PowerOffAnswer(f) == f + reply && IsStatusOf(reply, f)
  {
    hide Lrc, FromLe32, IfdCodec.Sealed;
    var body: seq<byte> := [0x03, 0x06, 0x81, 0, 0, 0, 0, 0, f[8], 0x01, 0x00, 0x00];
    Regroup(f, body, [Lrc(body)]);
    ClosedIsSealed(body);
  }

  lemma Regroup(a: seq<byte>, b: seq<byte>, c: seq<byte>)
    ensures (a + b + c)[|a|..] == b + c && a + b + c == a + (b + c)
  {
  }

  lemma ClosedIsSealed(body: seq<byte>)
    requires |body| == 12 && body[0] == 0x03 && body[1] == 0x06
    requires body[3] == 0 && body[4] == 0 && body[5] == 0 && body[6] == 0
    ensures IfdCodec.Sealed(body + [Lrc(body)])
  {
    hide Lrc, FromLe32;
    var f := body + [Lrc(body)];
    assert f[..12] == body && f[12] == Lrc(body) && |f| == 13;
    assert FromLe32(f[3], f[4], f[5], f[6]) == 0 by { ZeroLength(); }
  }

  lemma ZeroLength()
    ensures FromLe32(0, 0, 0, 0) == 0
  {
  }

  lemma SealedIsReceived(f: seq<byte>, rest: seq<byte>)
    requires IfdCodec.Sealed(f)
    ensures IfdCodec.Recv(f + rest) == IfdCodec.Got(f, rest)
  {
    hide Lrc;
    var s := f + rest;
    assert s[..|f| - 1] == f[..|f| - 1] && s[..|f|] == f && s[|f|..] == rest;
  }

  // ---- What a receiver reads of the whole synthesised stream ----

  function Received(s: seq<byte>): List<seq<byte>>
    decreases |s|
  {
    IfdCodec.RecvSound(s);
    match IfdCodec.Recv(s)
    case Got(f, rest) => Cons(f, Received(rest))
    case Nak(rest) => Nil
    case Rejected => Nil
    case Starved => Nil
  }

  predicate SealedRequests(ps: List<Piece>) {
    match ps
    case Nil => true
    case Cons(p, rest) => (p.frame[2] == 0x63 ==> IfdCodec.Sealed(p.frame)) && SealedRequests(rest)
  }

  // Echo and SlotStatus of each IccPowerOff in turn, and nothing else.
  predicate Answered(frames: List<seq<byte>>, ps: List<Piece>)
    decreases ps
  {
    match ps
    case Nil => frames.Nil?
    case Cons(p, rest) =>
      if p.frame[2] != 0x63 then Answered(frames, rest)
      else
        && frames.Cons? && frames.head == p.frame
        && frames.tail.Cons? && IsStatusOf(frames.tail.head, p.frame)
        && Answered(frames.tail.tail, rest)
  }

  lemma ReceivedIs(s: seq<byte>)
    ensures IfdCodec.Recv(s).Got? ==> Received(s) == Cons(IfdCodec.Recv(s).frame, Received(IfdCodec.Recv(s).rest))
    ensures s == [] ==> Received(s) == Nil
  {
  }

  lemma {:induction false} AnswersRead(ps: List<Piece>)
    requires SealedRequests(ps)
    ensures Answered(Received(Answers(ps)), ps)
    decreases ps
  {
    hide IfdCodec.Recv, IfdCodec.Sealed, PowerOffAnswer, Received, IsStatusOf;
    match ps
    case Nil => ReceivedIs([]);
    case Cons(p, rest) =>
      AnswersRead(rest);
      var later := Answers(rest);
      if p.frame[2] == 0x63 {
        StatusIsSealed(p.frame);
        var reply := PowerOffAnswer(p.frame)[|p.frame|..];
        PowerOffAnswerReads(p.frame, later);
        ReceivedIs(PowerOffAnswer(p.frame) + later);
        ReceivedIs(reply + later);
      } else {
        assert [] + later == later;
      }
  }

  // ---- A host that sends built commands ----

  predicate Messages(ms: List<seq<byte>>) {
    match ms
    case Nil => true
    case Cons(m, rest) => Message(m) && Messages(rest)
  }

  function Framed(ms: List<seq<byte>>): seq<byte> {
    match ms
    case Nil => []
    case Cons(m, rest) => Build(m) + Framed(rest)
  }

  // All but the IccPowerOff commands.
  function Others(ms: List<seq<byte>>): List<seq<byte>>
    requires Messages(ms)
  {
    match ms
    case Nil => Nil
    case Cons(m, rest) => if m[0] == 0x63 then Others(rest) else Cons(m, Others(rest))
  }

  function Pieces(ms: List<seq<byte>>): List<Piece>
    requires Messages(ms)
  {
    match ms
    case Nil => Nil
    case Cons(m, rest) => Cons(Piece([], Build(m)), Pieces(rest))
  }

  lemma BuiltIsCut(m: seq<byte>, rest: seq<byte>)
    requires Message(m)
    ensures |Build(m)| >= 13
    ensures var later := CutStream(rest);
            CutStream(Build(m) + rest) == Cut(Cons(Piece([], Build(m)), later.pieces), later.rest)
  {
    hide Lrc, FromLe32, PayloadLength;
    var f := Build(m);
    var s := f + rest;
    IfdCodec.LengthInFrame(m);
    assert Scan(s) == Complete(0, |f|);
    assert s[..0] == [] && s[0..|f|] == f && s[|f|..] == rest;
  }

  lemma EmptyCut()
    ensures CutStream([]) == Cut(Nil, [])
  {
  }

  lemma {:induction false} HostStreamIsCut(ms: List<seq<byte>>)
    requires Messages(ms)
    ensures CutStream(Framed(ms)) == Cut(Pieces(ms), [])
    decreases ms
  {
    hide CutStream, Message, Build;
    match ms
    case Nil => EmptyCut();
    case Cons(m, rest) =>
      BuiltIsCut(m, Framed(rest));
      HostStreamIsCut(rest);
  }

  lemma BuiltIsSealed(m: seq<byte>)
    requires Message(m)
    ensures IfdCodec.Sealed(Build(m)) && |Build(m)| >= 13 && Build(m)[2] == m[0]
  {
    hide Lrc, Build, FromLe32, PayloadLength;
    IfdCodec.BuildIsSealed(m);
    IfdCodec.SealedLength(Build(m));
  }

  lemma {:induction false} HostPieces(ms: List<seq<byte>>)
    requires Messages(ms)
    ensures Forwarded(Pieces(ms)) == Framed(Others(ms)) && SealedRequests(Pieces(ms))
    decreases ms
  {
    hide Build, IfdCodec.Sealed;
    match ms
    case Nil =>
    case Cons(m, rest) =>
      BuiltIsSealed(m);
      HostPieces(rest);
      assert [] + Build(m) == Build(m) && [] + [] + Framed(Others(rest)) == Framed(Others(rest));
  }

  // Whatever commands the host sends, and however its stream is divided over calls: all but the
  // IccPowerOff frames reach the reader, byte for byte and in order, and the host reads back
  // the echo and a SlotStatus of each IccPowerOff, in order, with nothing left over.
  lemma ShimServesHost(ms: List<seq<byte>>, chunks: List<seq<byte>>)
    requires Messages(ms) && Join(chunks) == Framed(ms)
    ensures var out := Run([], chunks);
            && out.forward == Framed(Others(ms)) && out.buf == []
            && Answered(Received(out.synth), Pieces(ms))
  {
    hide CutStream, Pieces, Forwarded, Answers, Received, Run, Framed, Others;
    assert [] + Join(chunks) == Join(chunks);
    ScanEmpty();
    ChunkingInvariance([], chunks);
    HostStreamIsCut(ms);
    HostPieces(ms);
    AnswersRead(Pieces(ms));
  }

  predicate NoPowerOff(ps: List<Piece>) {
    match ps
    case Nil => true
    case Cons(p, rest) => p.frame[2] != 0x63 && NoPowerOff(rest)
  }

  lemma {:induction false} KeptWhole(ps: List<Piece>)
    requires NoPowerOff(ps)
    ensures Forwarded(ps) == AllBytes(ps) && Answers(ps) == []
    decreases ps
  {
    match ps
    case Nil =>
    case Cons(p, rest) => KeptWhole(rest);
  }

  // Without an IccPowerOff frame the shim is a wire: every byte, garbage included, is passed on
  // or still held back, in order, and nothing is answered.
  lemma ShimIsAWire(chunks: List<seq<byte>>)
    requires NoPowerOff(CutStream(Join(chunks)).pieces)
    ensures var out := Run([], chunks); out.forward + out.buf == Join(chunks) && out.synth == []
  {
    hide CutStream, Run, Forwarded, AllBytes, Answers;
    assert [] + Join(chunks) == Join(chunks);
    ScanEmpty();
    ChunkingInvariance([], chunks);
    CutConserves(Join(chunks));
    KeptWhole(CutStream(Join(chunks)).pieces);
  }

  // ---- Anchors and answers in a stream ----

  // Where the scan stops at once: a SYNC whose header announces no more than 261 bytes.
  lemma AnchorsHold(s: seq<byte>)
    requires |s| >= 13
    ensures var n := FromLe32(s[3], s[4], s[5], s[6]);
            if s[0] != 0x03 || n > 261 then Scan(s) == Later(Scan(s[1..]), 1)
            else if 13 + n > |s| then Scan(s) == Partial(0, 13 + n)
            else Scan(s) == Complete(0, 13 + n)
  {
    hide FromLe32;
  }

  // A built message is taken for the reader's answer if and only if its type has the top bit.
  lemma BuiltAnswerIsFound(before: seq<byte>, m: seq<byte>, after: seq<byte>)
    requires Message(m)
    ensures ReaderFrameAt(before + Build(m) + after, |before|) <==> m[0] >= 0x80
  {
    hide Lrc, FromLe32, PayloadLength;
    var f := Build(m);
    var s, i := before + f + after, |before|;
    IfdCodec.LengthInFrame(m);
    IfdCodec.BuildIsSealed(m);
    assert s[i..i + |f| - 1] == f[..|f| - 1] && s[i..][3] == f[3] && s[i..][4] == f[4];
    assert f[..|f| - 1] == Unsealed(m);
  }
}
