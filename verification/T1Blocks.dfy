/** What the T=1 endpoint does with each kind of block and answers it, byte by byte, in the
    encoding of ISO/IEC 7816-3, section 11. */
module T1Blocks {
  import opened Bytes
  import opened T1
  import T1Laws
  import WaitingTime

  // ---- The encoding ----

  function More(more: bool): byte {
    if more then 0x20 else 0
  }

  // N(S) in bit 7, the more-data bit, N(R) in bit 5.
  function IBlock(ns: Bit, more: bool, nr: Bit, inf: Inf): seq<byte> {
    Block(0, 0x40 * ns + More(more) + 0x10 * nr, inf)
  }

  // N(R) in bit 5, the error in the two lowest.
  function RBlock(nr: Bit, err: nat): seq<byte>
    requires err < 4
  {
    Block(0, 0x80 + 0x10 * nr + err, [])
  }

  lemma FramedIs(ns: Bit, more: bool, nr: Bit, err: nat, inf: Inf)
    requires err < 4
    ensures Framed(I(ns, more, nr), inf) == IBlock(ns, more, nr, inf)
    ensures Framed(R(nr, err), []) == RBlock(nr, err)
    ensures Framed(S(Resync, true), inf) == Block(0, 0xE0, inf) && Framed(S(Ifs, true), inf) == Block(0, 0xE1, inf)
    ensures Framed(S(Abort, true), inf) == Block(0, 0xE2, inf) && Framed(S(Wtx, true), inf) == Block(0, 0xE3, inf)
    ensures Framed(S(Wtx, false), inf) == Block(0, 0xC3, inf)
  {
    hide Block;
  }

  // A block is judged by its control byte and information field, whatever its node address.
  lemma FeedBlock(e: Endpoint, nad: byte, pcb: byte, inf: Inf)
    requires Valid(e)
    ensures Feed(e, Block(nad, pcb, inf)) ==
              match ParsePcb(pcb)
              case I(ns, more, _) => OnI(e, ns, more, inf)
              case R(_, _) => OnR(e)
              case S(kind, response) => if response then OnSResponse(e, kind) else OnSRequest(e, kind, inf)
  {
    hide Block, WellFormed, OnI, OnR, OnSRequest, OnSResponse, ParsePcb, Valid;
    BlockIsWellFormed(nad, pcb, inf);
    T1Laws.FeedIs(e, Block(nad, pcb, inf));
  }

  // ---- Blocks from the host ----

  // The four lowest bits of an I-block's control byte, the unused one of an R-block's and three
  // of an S-block's are not looked at.

  // A piece with the expected number that fits is taken: acknowledged if more is to come, else
  // the APDU is complete. One that does not fit, and one out of order, change nothing; a repeat
  // of what was answered last is answered again.
  lemma IBlockTold(e: Endpoint, nad: byte, ns: Bit, more: bool, nr: Bit, low: nat, inf: Inf)
    requires Valid(e) && low < 16
    ensures var (after, fed) := Feed(e, Block(nad, 0x40 * ns + More(more) + 0x10 * nr + low, inf));
            if ns == e.hostNs then
              if |inf| > e.hostIfsd || |e.recv| + |inf| > 512 then after == e && fed == Immediate(RBlock(e.hostNs, 1))
              else if more then after == e.(recv := e.recv + inf) && fed == Immediate(RBlock(ns, 0))
              else after == e.(recv := [], hostNs := 1 - e.hostNs) && fed == Apdu(e.recv + inf)
            else
              && after == e
              && fed == Immediate(if e.retryNs != Some(ns) then RBlock(e.hostNs, 0)
                                  else if more then RBlock(ns, 0)
                                  else if e.retryFrame.Some? then e.retryFrame.value else RBlock(e.hostNs, 0))
  {
    hide Block, Framed, Feed, RBlock, Valid;
    var pcb := 0x40 * ns + More(more) + 0x10 * nr + low;
    FeedBlock(e, nad, pcb, inf);
    FramedIs(ns, more, e.hostNs, 1, inf);
    FramedIs(ns, more, e.hostNs, 0, inf);
    FramedIs(ns, more, ns, 0, inf);
  }

  // What goes out next of an answer: as much as the host can take.
  function Piece(e: Endpoint): Inf
    requires Valid(e)
  {
    if |e.send| <= e.sendIfsc then e.send else e.send[..e.sendIfsc]
  }

  // The endpoint after it, its number moved on with the last piece.
  function Pieced(e: Endpoint): Endpoint
    requires Valid(e)
  {
    var last := |e.send| <= e.sendIfsc;
    e.(send := e.send[|Piece(e)|..], ns := if last then 1 - e.ns else e.ns,
       lastSent := Some(IBlock(e.ns, !last, e.hostNs, Piece(e))))
  }

  lemma NextBlockIs(e: Endpoint)
    requires Valid(e)
    ensures NextBlock(e) == (Pieced(e), Pieced(e).lastSent.value)
  {
    hide Block, Framed;
    FramedIs(e.ns, |e.send| > e.sendIfsc, e.hostNs, 0, Piece(e));
    assert e.send[..|e.send|] == e.send;
  }

  // Any R-block: the next piece of an answer under way; a frame repeated while the host is to
  // grant an extension, or when nothing is left to send.
  lemma RBlockTold(e: Endpoint, nad: byte, low: nat, inf: Inf)
    requires Valid(e) && low < 64
    ensures var (after, fed) := Feed(e, Block(nad, 0x80 + low, inf));
            if e.send != [] && !(e.wtxPending && e.lastSent.Some?) then
              after == Pieced(e) && fed == Immediate(Pieced(e).lastSent.value)
            else
              after == e && fed == Immediate(if e.lastSent.Some? then e.lastSent.value else RBlock(e.hostNs, 1))
  {
    hide Block, Framed, Feed, RBlock, NextBlock, Pieced, Valid;
    FeedBlock(e, nad, 0x80 + low, inf);
    FramedIs(0, false, e.hostNs, 1, []);
    NextBlockIs(e);
  }

  lemma RequestBytes(unused: nat)
    requires unused < 8
    ensures ParsePcb(0xC0 + 4 * unused) == S(Resync, false) && ParsePcb(0xC1 + 4 * unused) == S(Ifs, false)
    ensures ParsePcb(0xC2 + 4 * unused) == S(Abort, false) && ParsePcb(0xC3 + 4 * unused) == S(Wtx, false)
  {
  }

  // The four requests: resynchronise, receive size, abort, waiting time. Each is answered in
  // kind with its own information field, the first without one.
  lemma SRequestTold(e: Endpoint, nad: byte, unused: nat, inf: Inf)
    requires Valid(e) && unused < 8
    ensures var reply := Block(0, 0xE0, []);
            Feed(e, Block(nad, 0xC0 + 4 * unused, inf)) ==
              (e.(ns := 0, hostNs := 0, recv := [], send := [], wtxPending := false, retryNs := None,
                  retryFrame := None, lastSent := Some(reply)), Immediate(reply))
    ensures var reply := Block(0, 0xE1, inf);
            Feed(e, Block(nad, 0xC1 + 4 * unused, inf)) ==
              (e.(sendIfsc := if inf == [] then 32 else if inf[0] == 255 then 254 else inf[0], lastSent := Some(reply)),
               Immediate(reply))
    ensures var reply := Block(0, 0xE2, inf);
            Feed(e, Block(nad, 0xC2 + 4 * unused, inf)) == (e.(recv := [], lastSent := Some(reply)), Immediate(reply))
    ensures var reply := Block(0, 0xE3, inf);
            Feed(e, Block(nad, 0xC3 + 4 * unused, inf)) == (e.(lastSent := Some(reply)), Immediate(reply))
  {
    hide Block, Framed, Feed, Valid, ParsePcb;
    RequestBytes(unused);
    FeedBlock(e, nad, 0xC0 + 4 * unused, inf);
    FeedBlock(e, nad, 0xC1 + 4 * unused, inf);
    FeedBlock(e, nad, 0xC2 + 4 * unused, inf);
    FeedBlock(e, nad, 0xC3 + 4 * unused, inf);
    FramedIs(0, false, 0, 0, inf);
    FramedIs(0, false, 0, 0, []);
  }

  // A grant of the extension asked for releases the first piece, and makes it the frame to
  // repeat; any other response has the last frame repeated.
  lemma SResponseTold(e: Endpoint, nad: byte, pcb: byte, inf: Inf)
    requires Valid(e) && 0xE0 <= pcb
    ensures var (after, fed) := Feed(e, Block(nad, pcb, inf));
            if pcb % 4 == 3 && e.wtxPending then
              var granted := e.(wtxPending := false);
              if e.send == [] then after == granted && fed == Immediate(RBlock(e.hostNs, 1))
              else
                && after == Pieced(granted).(retryFrame := Pieced(granted).lastSent)
                && fed == Immediate(Pieced(granted).lastSent.value)
            else
              after == e && fed == Immediate(if e.lastSent.Some? then e.lastSent.value else RBlock(e.hostNs, 1))
  {
    hide Block, Framed, Feed, RBlock, NextBlock, Piece, Valid;
    FeedBlock(e, nad, pcb, inf);
    FramedIs(0, false, e.hostNs, 1, []);
    assert Valid(e.(wtxPending := false)) by { GrantKeepsValid(e); }
    NextBlockIs(e.(wtxPending := false));
  }

  lemma GrantKeepsValid(e: Endpoint)
    requires Valid(e)
    ensures Valid(e.(wtxPending := false))
  {
  }

  // ---- Answers from the card ----

  // At most 512 bytes of an answer are kept. One that came in time starts to go out; after a
  // slow one the host is asked for time first. What goes out is the frame to repeat.
  lemma AnswerTold(e: Endpoint, answer: seq<byte>, took: nat)
    requires Valid(e)
    ensures var (after, frame) := CardResponse(e, answer, took);
            var kept := if |answer| > 512 then answer[..512] else answer;
            var staged := e.(send := kept);
            && Valid(staged) && after.retryFrame == Some(frame) == after.lastSent && after.retryNs == Some(1 - e.hostNs)
            && if took + 100 > WaitingTime.BwtMs(e.hostBwi, 10752) then
                 && frame == Block(0, 0xC3, [Multiplier(e.hostBwi, took)])
                 && after == staged.(wtxPending := true, lastSent := Some(frame), retryNs := Some(1 - e.hostNs),
                                     retryFrame := Some(frame))
               else
                 after == Pieced(staged).(retryNs := Some(1 - e.hostNs), retryFrame := Some(frame))
  {
    hide Block, Framed, NextBlock, Multiplier, WaitingTime.BwtMs;
    FramedIs(0, false, 0, 0, [Multiplier(e.hostBwi, took)]);
    NextBlockIs(Staged(e, answer));
  }

  // A new endpoint: nothing sent or received, both numbers zero, the sizes and the waiting time
  // the standard starts with.
  lemma NewEndpoint()
    ensures FRESH.ns == 0 && FRESH.hostNs == 0 && FRESH.recv == [] && FRESH.send == [] && FRESH.lastSent == None
    ensures FRESH.sendIfsc == 32 && FRESH.hostIfsd == 32 && FRESH.hostBwi == 4
    ensures !FRESH.wtxPending && FRESH.retryNs == None && FRESH.retryFrame == None
  {
  }
}
