/** What the T=1 endpoint guarantees the host over whole exchanges. */
module T1Laws {
  import opened Bytes
  import opened T1
  import WaitingTime

  function FeedAll(e: Endpoint, blocks: List<seq<byte>>): (Endpoint, List<Fed>)
    requires Valid(e)
    decreases blocks
  {
    match blocks
    case Nil => (e, Nil)
    case Cons(b, rest) =>
      FeedKeepsValid(e, b);
      var (e1, fed) := Feed(e, b);
      var (last, later) := FeedAll(e1, rest);
      (last, Cons(fed, later))
  }

  // ---- Bounds and checksums ----

  // Within its bounds, and whatever it may have to repeat is a whole block.
  predicate Closed(e: Endpoint) {
    && Valid(e)
    && (e.lastSent.Some? ==> WellFormed(e.lastSent.value))
    && (e.retryFrame.Some? ==> WellFormed(e.retryFrame.value))
  }

  predicate Emits(fed: Fed) {
    if fed.Immediate? then WellFormed(fed.bytes) else |fed.apdu| <= MAX_RELAY
  }

  lemma FramedIsWellFormed(p: Pcb, inf: Inf)
    requires p.R? ==> p.err < 4
    ensures WellFormed(Framed(p, inf))
  {
    hide Block, WellFormed, PcbByte;
    BlockIsWellFormed(0, PcbByte(p), inf);
  }

  lemma NextBlockCloses(e: Endpoint)
    requires Closed(e)
    ensures Closed(NextBlock(e).0) && WellFormed(NextBlock(e).1)
  {
    hide WellFormed, Framed;
    FramedIsWellFormed(I(e.ns, Chunk(e) < |e.send|, e.hostNs), e.send[..Chunk(e)]);
  }

  lemma FeedIs(e: Endpoint, b: seq<byte>)
    requires Valid(e)
    ensures Feed(e, b) ==
              if !WellFormed(b) then (e, BadBlock(e))
              else
                match ParsePcb(b[1])
                case I(blockNs, more, _) => OnI(e, blockNs, more, b[3..|b| - 1])
                case R(_, _) => OnR(e)
                case S(kind, response) =>
                  if response then OnSResponse(e, kind) else OnSRequest(e, kind, b[3..|b| - 1])
  {
    hide ParsePcb, Lrc, OnI, OnR, OnSRequest, OnSResponse, BadBlock, Valid;
  }

  ghost predicate IsBlock(b: seq<byte>) {
    exists nad: byte, pcb: byte, inf: Inf :: b == Block(nad, pcb, inf)
  }

  // What passes the checks is exactly what framing produces, for any node address and control
  // byte; anything else changes nothing and is met with a demand to resend.
  lemma OnlyBlocksCount(e: Endpoint, b: seq<byte>)
    requires Valid(e)
    ensures WellFormed(b) <==> IsBlock(b)
    ensures !IsBlock(b) ==> Feed(e, b) == (e, BadBlock(e))
  {
    hide WellFormed, Block, Lrc, BadBlock;
    if WellFormed(b) {
      WellFormedLength(b);
      WellFormedIsBlock(b);
    }
    if IsBlock(b) {
      var nad: byte, pcb: byte, inf: Inf :| b == Block(nad, pcb, inf);
      BlockIsWellFormed(nad, pcb, inf);
    }
    FeedIs(e, b);
  }

  lemma WellFormedLength(b: seq<byte>)
    requires WellFormed(b)
    ensures 4 <= |b| <= 258
  {
    hide Lrc;
  }

  lemma OnIKeepsValid(e: Endpoint, ns: Bit, more: bool, inf: Inf)
    requires Valid(e)
    ensures Valid(OnI(e, ns, more, inf).0)
  {
    hide Framed;
  }

  lemma FeedKeepsValid(e: Endpoint, b: seq<byte>)
    requires Valid(e)
    ensures Valid(Feed(e, b).0)
  {
    hide Framed, ParsePcb, OnI;
    if WellFormed(b) && ParsePcb(b[1]).I? {
      OnIKeepsValid(e, ParsePcb(b[1]).ns, ParsePcb(b[1]).more, b[3..|b| - 1]);
    }
  }

  lemma OnICloses(e: Endpoint, ns: Bit, more: bool, inf: Inf)
    requires Closed(e)
    ensures Closed(OnI(e, ns, more, inf).0) && Emits(OnI(e, ns, more, inf).1)
  {
    hide WellFormed, Framed;
    FramedIsWellFormed(R(ns, 0), []);
    FramedIsWellFormed(R(e.hostNs, 0), []);
    FramedIsWellFormed(R(e.hostNs, 1), []);
  }

  lemma OnRCloses(e: Endpoint)
    requires Closed(e)
    ensures Closed(OnR(e).0) && Emits(OnR(e).1)
  {
    hide WellFormed, Framed, NextBlock;
    FramedIsWellFormed(R(e.hostNs, 1), []);
    NextBlockCloses(e);
  }

  lemma OnSCloses(e: Endpoint, kind: Kind, inf: Inf)
    requires Closed(e)
    ensures Closed(OnSRequest(e, kind, inf).0) && Emits(OnSRequest(e, kind, inf).1)
    ensures Closed(OnSResponse(e, kind).0) && Emits(OnSResponse(e, kind).1)
  {
    hide WellFormed, Framed, NextBlock;
    FramedIsWellFormed(S(kind, true), if kind.Resync? then [] else inf);
    FramedIsWellFormed(R(e.hostNs, 1), []);
    NextBlockCloses(e.(wtxPending := false));
  }

  // Whatever bytes the host sends, the endpoint stays in bounds, every frame it answers
  // with closes on its own checksum, and no APDU outgrows the relay buffer.
  lemma FeedCloses(e: Endpoint, b: seq<byte>)
    requires Closed(e)
    ensures Closed(Feed(e, b).0) && Emits(Feed(e, b).1)
  {
    hide Closed, Emits, OnI, OnR, OnSRequest, OnSResponse, Framed, ParsePcb, BadBlock;
    assert Valid(e) by { ClosedIsValid(e); }
    BadBlockEmits(e);
    OnRCloses(e);
    if WellFormed(b) {
      var inf := b[3..|b| - 1];
      match ParsePcb(b[1])
      case I(ns, more, _) => OnICloses(e, ns, more, inf);
      case R(_, _) =>
      case S(kind, _) => OnSCloses(e, kind, inf);
    }
  }

  lemma ClosedIsValid(e: Endpoint)
    requires Closed(e)
    ensures Valid(e)
  {
  }

  lemma BadBlockEmits(e: Endpoint)
    ensures Emits(BadBlock(e))
  {
    hide WellFormed, Framed;
    FramedIsWellFormed(R(e.hostNs, 1), []);
  }

  lemma AnswerCloses(e: Endpoint, answer: seq<byte>, took: nat)
    requires Closed(e)
    ensures Closed(CardResponse(e, answer, took).0) && WellFormed(CardResponse(e, answer, took).1)
  {
    hide WellFormed, Framed, NextBlock, NeedsExtension, Multiplier;
    NextBlockCloses(Staged(e, answer));
    FramedIsWellFormed(S(Wtx, false), [Multiplier(e.hostBwi, took)]);
  }

  // ---- Host to card: chains are put back together ----

  // The blocks of a host that sends these parts as one chain.
  function HostChain(ns: Bit, nr: Bit, parts: List<Inf>): List<seq<byte>> {
    match parts
    case Nil => Nil
    case Cons(part, rest) => Cons(Framed(I(ns, rest.Cons?, nr), part), HostChain(ns, nr, rest))
  }

  function Whole(parts: List<Inf>): seq<byte> {
    match parts
    case Nil => []
    case Cons(part, rest) => part + Whole(rest)
  }

  predicate EachWithin(parts: List<Inf>, size: nat) {
    match parts
    case Nil => true
    case Cons(part, rest) => |part| <= size && EachWithin(rest, size)
  }

  // An acknowledgment for every part but the last, then the APDU.
  function Receipts(ns: Bit, parts: List<Inf>, apdu: seq<byte>): List<Fed> {
    match parts
    case Nil => Nil
    case Cons(_, rest) =>
      if rest.Nil? then Cons(Apdu(apdu), Nil)
      else Cons(Immediate(Framed(R(ns, 0), [])), Receipts(ns, rest, apdu))
  }

  lemma FeedI(e: Endpoint, ns: Bit, more: bool, nr: Bit, inf: Inf)
    requires Valid(e)
    ensures Feed(e, Framed(I(ns, more, nr), inf)) == OnI(e, ns, more, inf)
  {
    hide Block, WellFormed, OnI, OnR, OnSRequest, OnSResponse, PcbByte, ParsePcb;
    BlockIsWellFormed(0, PcbByte(I(ns, more, nr)), inf);
    PcbRoundTrip(I(ns, more, nr));
  }

  lemma OnIPiece(e: Endpoint, more: bool, inf: Inf)
    requires |inf| <= e.hostIfsd && |e.recv| + |inf| <= MAX_RELAY
    ensures OnI(e, e.hostNs, more, inf) ==
              if more then (e.(recv := e.recv + inf), Immediate(Framed(R(e.hostNs, 0), [])))
              else (e.(recv := [], hostNs := Flip(e.hostNs)), Apdu(e.recv + inf))
  {
    hide Framed;
  }

  // However the host cuts an APDU into pieces it may send, the endpoint acknowledges each
  // and hands over exactly the APDU, once, with the last.
  lemma {:induction false} ChainsReassemble(e: Endpoint, nr: Bit, parts: List<Inf>)
    requires Valid(e) && parts.Cons? && EachWithin(parts, e.hostIfsd) && |e.recv| + |Whole(parts)| <= MAX_RELAY
    ensures FeedAll(e, HostChain(e.hostNs, nr, parts))
         == (e.(recv := [], hostNs := Flip(e.hostNs)), Receipts(e.hostNs, parts, e.recv + Whole(parts)))
    decreases parts
  {
    hide Feed, Framed, OnI;
    var part, rest := parts.head, parts.tail;
    var b := Framed(I(e.hostNs, rest.Cons?, nr), part);
    FeedI(e, e.hostNs, rest.Cons?, nr, part);
    OnIPiece(e, rest.Cons?, part);
    FeedKeepsValid(e, b);
    if rest.Nil? {
      assert part + [] == part;
    } else {
      assert e.recv + part + Whole(rest) == e.recv + (part + Whole(rest));
      ChainsReassemble(e.(recv := e.recv + part), nr, rest);
    }
  }

  // ---- Card to host: answers drain block by block ----

  // An answer cut at the size the host can take.
  function Cut(ifsc: nat, answer: seq<byte>): List<seq<byte>>
    requires 1 <= ifsc <= MAX_IFSC
    decreases |answer|
  {
    if |answer| <= ifsc then Cons(answer, Nil) else Cons(answer[..ifsc], Cut(ifsc, answer[ifsc..]))
  }

  // The cut loses nothing.
  lemma {:induction false} CutConserves(ifsc: nat, answer: seq<byte>)
    requires 1 <= ifsc <= MAX_IFSC
    ensures Join(Cut(ifsc, answer)) == answer
    decreases |answer|
  {
    if |answer| > ifsc {
      CutConserves(ifsc, answer[ifsc..]);
      assert answer[..ifsc] + answer[ifsc..] == answer;
    }
  }

  // The I-blocks of a cut answer, all but the last marked as having more to come.
  function Chain(ns: Bit, nr: Bit, parts: List<seq<byte>>): List<seq<byte>>
    requires Short(parts)
  {
    match parts
    case Nil => Nil
    case Cons(part, rest) => Cons(Framed(I(ns, rest.Cons?, nr), part), Chain(ns, nr, rest))
  }

  predicate Short(parts: List<seq<byte>>) {
    match parts
    case Nil => true
    case Cons(part, rest) => |part| <= 254 && Short(rest)
  }

  lemma {:induction false} CutIsShort(ifsc: nat, answer: seq<byte>)
    requires 1 <= ifsc <= MAX_IFSC
    ensures Short(Cut(ifsc, answer)) && Cut(ifsc, answer).Cons?
    decreases |answer|
  {
    if |answer| > ifsc { CutIsShort(ifsc, answer[ifsc..]); }
  }

  function Immediates(blocks: List<seq<byte>>): List<Fed> {
    match blocks
    case Nil => Nil
    case Cons(b, rest) => Cons(Immediate(b), Immediates(rest))
  }

  predicate AcksOnly(acks: List<seq<byte>>) {
    match acks
    case Nil => true
    case Cons(b, rest) => WellFormed(b) && ParsePcb(b[1]).R? && AcksOnly(rest)
  }

  lemma FeedAck(e: Endpoint, b: seq<byte>)
    requires Valid(e) && WellFormed(b) && ParsePcb(b[1]).R?
    ensures Feed(e, b) == OnR(e)
  {
    hide OnR, WellFormed, ParsePcb;
  }

  lemma PullsNext(e: Endpoint)
    requires Valid(e) && !e.wtxPending && e.send != []
    ensures OnR(e) == (NextBlock(e).0, Immediate(NextBlock(e).1))
  {
    hide NextBlock;
  }

  // A host that acknowledges piece after piece, with whatever R-blocks, is sent exactly the
  // rest of the answer; then the send sequence number has moved on and nothing is left.
  lemma {:induction false} ChainsDrain(e: Endpoint, acks: List<seq<byte>>)
    requires Valid(e) && !e.wtxPending && e.send != [] && e.sendIfsc >= 1 && AcksOnly(acks)
    requires Length(acks) == Length(Cut(e.sendIfsc, e.send))
    ensures Short(Cut(e.sendIfsc, e.send))
    ensures var (last, out) := FeedAll(e, acks);
            && out == Immediates(Chain(e.ns, e.hostNs, Cut(e.sendIfsc, e.send)))
            && last.send == [] && last.ns == Flip(e.ns)
    decreases acks
  {
    hide Feed, Framed, OnR, WellFormed;
    var parts := Cut(e.sendIfsc, e.send);
    CutIsShort(e.sendIfsc, e.send);
    match acks
    case Nil =>
    case Cons(b, rest) =>
      FeedAck(e, b);
      PullsNext(e);
      var e1 := NextBlock(e).0;
      FeedKeepsValid(e, b);
      if |e.send| > e.sendIfsc {
        ChainsDrain(e1, rest);
      } else {
        assert e.send[..|e.send|] == e.send && e.send[|e.send|..] == [];
        NoMore(rest);
      }
  }

  lemma NoMore(rest: List<seq<byte>>)
    requires Length(rest) == 0
    ensures rest == Nil
  {
  }

  // A host that has announced a receive size of zero is never done: the same empty block,
  // marked as having more to come, answers every acknowledgment.
  lemma {:induction false} ZeroSizeNeverDrains(e: Endpoint, acks: List<seq<byte>>)
    requires Valid(e) && !e.wtxPending && e.send != [] && e.sendIfsc == 0 && AcksOnly(acks)
    ensures FeedAll(e, acks).0.send == e.send && FeedAll(e, acks).0.ns == e.ns
    decreases acks
  {
    hide Feed, Framed, OnR, WellFormed;
    match acks
    case Nil =>
    case Cons(b, rest) =>
      FeedAck(e, b);
      PullsNext(e);
      var e1 := NextBlock(e).0;
      FeedKeepsValid(e, b);
      assert e.send[0..] == e.send;
      ZeroSizeNeverDrains(e1, rest);
  }

  // Such a size is taken from the host as it comes.
  lemma ZeroSizeIsAccepted(e: Endpoint)
    requires Valid(e)
    ensures Feed(e, Framed(S(Ifs, false), [0])).0.sendIfsc == 0
  {
    hide Block, WellFormed, OnI, OnR, OnSResponse, PcbByte, ParsePcb;
    BlockIsWellFormed(0, PcbByte(S(Ifs, false)), [0]);
    PcbRoundTrip(S(Ifs, false));
  }

  // An answer in time starts its own chain: the first frame and the rest to be drained are
  // together the chain of the answer.
  lemma AnswerStartsChain(e: Endpoint, answer: seq<byte>, took: nat)
    requires Valid(e) && !NeedsExtension(e, took) && e.sendIfsc >= 1 && |answer| <= MAX_RELAY
    ensures Short(Cut(e.sendIfsc, answer))
    ensures var (e1, first) := CardResponse(e, answer, took);
            var parts := Cut(e.sendIfsc, answer);
            && first == Framed(I(e.ns, parts.tail.Cons?, e.hostNs), parts.head)
            && e1.send == answer[|parts.head|..] && e1.sendIfsc == e.sendIfsc && e1.hostNs == e.hostNs
            && e1.ns == (if parts.tail.Cons? then e.ns else Flip(e.ns))
            && (parts.tail.Cons? ==> parts.tail == Cut(e.sendIfsc, e1.send))
  {
    hide Framed, NeedsExtension;
    CutIsShort(e.sendIfsc, answer);
    assert answer[..|answer|] == answer;
  }

  // ---- Retransmissions do not run an APDU twice ----

  function Repeats(b: seq<byte>, n: nat): List<seq<byte>> {
    if n == 0 then Nil else Cons(b, Repeats(b, n - 1))
  }

  lemma CompletesIs(e: Endpoint, b: seq<byte>)
    requires Valid(e) && Feed(e, b).1.Apdu?
    ensures WellFormed(b) && ParsePcb(b[1]).I? && !ParsePcb(b[1]).more && ParsePcb(b[1]).ns == e.hostNs
    ensures Feed(e, b).0.hostNs == Flip(e.hostNs)
  {
    hide Framed, ParsePcb, Lrc, NextBlock;
  }

  lemma CachedIs(e: Endpoint, answer: seq<byte>, took: nat)
    requires Valid(e)
    ensures var (e1, b) := CardResponse(e, answer, took);
            Valid(e1) && e1.hostNs == e.hostNs && e1.retryNs == Some(Flip(e.hostNs)) && e1.retryFrame == Some(b)
  {
    hide Framed, NeedsExtension, Multiplier;
  }

  lemma {:induction false} CacheAnswers(e: Endpoint, b: seq<byte>, frame: seq<byte>, n: nat)
    requires Valid(e) && WellFormed(b) && ParsePcb(b[1]).I? && !ParsePcb(b[1]).more
    requires ParsePcb(b[1]).ns == Flip(e.hostNs) && e.retryNs == Some(Flip(e.hostNs)) && e.retryFrame == Some(frame)
    ensures FeedAll(e, Repeats(b, n)) == (e, Immediates(Repeats(frame, n)))
    decreases n
  {
    hide WellFormed, ParsePcb, Framed;
    if n > 0 { CacheAnswers(e, b, frame, n - 1); }
  }

  // Once the block that completed an APDU has been answered, its repeats, however many, are
  // each answered with that same first frame and change nothing.
  lemma RetransmissionIsIdempotent(e: Endpoint, b: seq<byte>, answer: seq<byte>, took: nat, n: nat)
    requires Valid(e) && Feed(e, b).1.Apdu?
    ensures Valid(Feed(e, b).0) && Valid(CardResponse(Feed(e, b).0, answer, took).0)
    ensures var (e1, first) := CardResponse(Feed(e, b).0, answer, took);
            FeedAll(e1, Repeats(b, n)) == (e1, Immediates(Repeats(first, n)))
  {
    hide Feed, CardResponse, FeedAll, WellFormed, ParsePcb, Valid;
    FeedKeepsValid(e, b);
    CompletesIs(e, b);
    var fed := Feed(e, b).0;
    CachedIs(fed, answer, took);
    var (e1, first) := CardResponse(fed, answer, took);
    CacheAnswers(e1, b, first, n);
  }

  // ---- Waiting-time requests ----

  // The extension asked for covers the exchange and the turnaround, up to the
  // cap of 59, and above the floor of 2 is the least that does.
  lemma ExtensionCovers(bwi: nat, took: nat)
    ensures var m, bwt := Multiplier(bwi, took), WaitingTime.BwtMs(bwi, 10752);
            && 2 <= m <= 59
            && (m < 59 ==> took + 100 <= m * bwt)
            && (m > 2 ==> (m - 1) * bwt < took + 100)
  {
    hide WaitingTime.BwtMs, WaitingTime.DivCeil;
    BwtPositive(bwi);
    var m: nat, bwt := Multiplier(bwi, took), WaitingTime.BwtMs(bwi, HOST_BAUD);
    WaitingTime.DivCeilLeast(took + TURNAROUND_MS, bwt, m);
    WaitingTime.DivCeilLeast(took + TURNAROUND_MS, bwt, m - 1);
  }

  lemma FeedS(e: Endpoint, kind: Kind, response: bool, inf: Inf)
    requires Valid(e)
    ensures Feed(e, Framed(S(kind, response), inf)) ==
              if response then OnSResponse(e, kind) else OnSRequest(e, kind, inf)
  {
    hide Block, WellFormed, OnI, OnR, OnSRequest, OnSResponse, PcbByte, ParsePcb;
    BlockIsWellFormed(0, PcbByte(S(kind, response)), inf);
    PcbRoundTrip(S(kind, response));
  }

  // Frames of different control bytes are different frames.
  lemma FramesDiffer(p: Pcb, q: Pcb, a: Inf, b: Inf)
    requires (p.R? ==> p.err < 4) && (q.R? ==> q.err < 4) && p != q
    ensures Framed(p, a) != Framed(q, b)
  {
    hide Block, WellFormed, PcbByte, ParsePcb;
    BlockIsWellFormed(0, PcbByte(p), a);
    BlockIsWellFormed(0, PcbByte(q), b);
    PcbRoundTrip(p);
    PcbRoundTrip(q);
  }

  // A granted extension releases the first piece of the answer that was held back, and makes
  // it the frame to repeat, if and only if the answer is not empty. An empty answer is never
  // delivered: the grant is met with a demand to send it again.
  lemma GrantReleases(e: Endpoint, answer: seq<byte>, took: nat, inf: Inf)
    requires Valid(e) && NeedsExtension(e, took)
    ensures var e1 := CardResponse(e, answer, took).0;
            && Valid(e1)
            && var (e2, fed) := Feed(e1, Framed(S(Wtx, true), inf));
               var released := e1.(wtxPending := false);
               && (fed == Immediate(NextBlock(released).1) <==> answer != [])
               && (answer != [] ==> e2 == NextBlock(released).0.(retryFrame := Some(fed.bytes)))
               && (answer == [] ==> e2 == released && fed == BadBlock(released))
  {
    hide NeedsExtension, Multiplier, Framed, Feed;
    var e1 := CardResponse(e, answer, took).0;
    FeedS(e1, Wtx, true, inf);
    FramesDiffer(I(e1.ns, false, e1.hostNs), R(e1.hostNs, 1), [], []);
  }
}
