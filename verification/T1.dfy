/** The reader's T=1 endpoint: host blocks in, APDUs out; card answers in, block chains out. */
module T1 {
  import opened Bytes
  import WaitingTime

  type Bit = n: nat | n < 2
  type Inf = s: seq<byte> | |s| <= 254

  const MAX_IFSC: nat := 254
  const MAX_RELAY: nat := 512
  const HOST_BAUD: nat := 10752
  const TURNAROUND_MS: nat := 100

  datatype Kind = Resync | Ifs | Abort | Wtx

  datatype Pcb = I(ns: Bit, more: bool, nr: Bit) | R(nr: Bit, err: nat) | S(kind: Kind, response: bool)

  function Flip(b: Bit): Bit {
    1 - b
  }

  // ---- Blocks ----

  function ParsePcb(pcb: byte): Pcb {
    if pcb < 0x80 then I(pcb / 0x40 % 2, pcb / 0x20 % 2 == 1, pcb / 0x10 % 2)
    else if pcb < 0xC0 then R(pcb / 0x10 % 2, pcb % 4)
    else
      S(match pcb % 4 case 0 => Resync case 1 => Ifs case 2 => Abort case _ => Wtx, pcb / 0x20 % 2 == 1)
  }

  function Weight(on: bool, w: byte): byte {
    if on then w else 0
  }

  function PcbByte(p: Pcb): byte
    requires p.R? ==> p.err < 4
  {
    match p
    case I(ns, more, nr) => 0x40 * ns + Weight(more, 0x20) + 0x10 * nr
    case R(nr, err) => 0x80 + 0x10 * nr + err
    case S(kind, response) =>
      (match kind case Resync => 0xC0 case Ifs => 0xC1 case Abort => 0xC2 case Wtx => 0xC3) + Weight(response, 0x20)
  }

  lemma PcbRoundTrip(p: Pcb)
    requires p.R? ==> p.err < 4
    ensures ParsePcb(PcbByte(p)) == p
  {
  }

  function Head(nad: byte, pcb: byte, inf: Inf): seq<byte> {
    [nad, pcb, |inf|] + inf
  }

  // NAD, PCB, LEN, the information field, and the XOR of all of it.
  function Block(nad: byte, pcb: byte, inf: Inf): seq<byte> {
    Head(nad, pcb, inf) + [Lrc(Head(nad, pcb, inf))]
  }

  function Framed(p: Pcb, inf: Inf): seq<byte>
    requires p.R? ==> p.err < 4
  {
    Block(0, PcbByte(p), inf)
  }

  // Whether bytes from the host are a whole block.
  predicate WellFormed(b: seq<byte>) {
    && |b| >= 4 && b[2] <= 254 && |b| - 4 == b[2]
    && Lrc(b[..|b| - 1]) == b[|b| - 1]
  }

  // What is accepted is exactly what framing produces.
  lemma WellFormedIsBlock(b: seq<byte>)
    ensures WellFormed(b) ==> b == Block(b[0], b[1], b[3..|b| - 1])
  {
    hide Lrc;
    if WellFormed(b) {
      assert b[..|b| - 1] == Head(b[0], b[1], b[3..|b| - 1]);
      assert b == b[..|b| - 1] + [b[|b| - 1]];
    }
  }

  lemma BlockIsWellFormed(nad: byte, pcb: byte, inf: Inf)
    ensures var b := Block(nad, pcb, inf); WellFormed(b) && b[1] == pcb && b[3..|b| - 1] == inf
  {
    hide Lrc;
    var b := Block(nad, pcb, inf);
    assert b[..|b| - 1] == Head(nad, pcb, inf);
  }

  // ---- The endpoint ----

  datatype Endpoint = Endpoint(
    ns: Bit, hostNs: Bit, sendIfsc: nat, hostIfsd: nat, recv: seq<byte>, send: seq<byte>,
    lastSent: Option<seq<byte>>, wtxPending: bool, hostBwi: nat, retryNs: Option<Bit>, retryFrame: Option<seq<byte>>)

  const FRESH := Endpoint(0, 0, 32, 32, [], [], None, false, 4, None, None)

  predicate Valid(e: Endpoint) {
    e.sendIfsc <= MAX_IFSC && 16 <= e.hostIfsd <= MAX_IFSC && |e.recv| <= MAX_RELAY && |e.send| <= MAX_RELAY
  }

  function Timed(e: Endpoint, bwi: nat, ifsc: byte): Endpoint {
    e.(hostBwi := bwi, hostIfsd := if ifsc < 16 then 16 else if ifsc > 254 then 254 else ifsc)
  }

  datatype Fed = Immediate(bytes: seq<byte>) | Apdu(apdu: seq<byte>)

  // Demand retransmission: an R-block with the parity error code.
  function BadBlock(e: Endpoint): Fed {
    Immediate(Framed(R(e.hostNs, 1), []))
  }

  function Sent(e: Endpoint, b: seq<byte>): (Endpoint, seq<byte>) {
    (e.(lastSent := Some(b)), b)
  }

  function Chunk(e: Endpoint): nat {
    if e.sendIfsc < |e.send| then e.sendIfsc else |e.send|
  }

  // The next piece of the outgoing chain, marked last when nothing is left after it.
  function NextBlock(e: Endpoint): (Endpoint, seq<byte>)
    requires Valid(e)
  {
    var n := Chunk(e);
    var more := n < |e.send|;
    Sent(e.(send := e.send[n..], ns := if more then e.ns else Flip(e.ns)),
         Framed(I(e.ns, more, e.hostNs), e.send[..n]))
  }

  // Repeat what was sent last.
  function Repeated(e: Endpoint): (Endpoint, Fed) {
    (e, if e.lastSent.Some? then Immediate(e.lastSent.value) else BadBlock(e))
  }

  function OnR(e: Endpoint): (Endpoint, Fed)
    requires Valid(e)
  {
    if e.wtxPending && e.lastSent.Some? then Repeated(e)
    else if e.send != [] then
      var (e1, b) := NextBlock(e);
      (e1, Immediate(b))
    else Repeated(e)
  }

  function OnSRequest(e: Endpoint, kind: Kind, inf: Inf): (Endpoint, Fed) {
    var reply := Framed(S(kind, true), if kind.Resync? then [] else inf);
    var e1 :=
      match kind
      case Resync =>
        e.(ns := 0, hostNs := 0, recv := [], send := [], wtxPending := false, retryNs := None, retryFrame := None)
      case Ifs => e.(sendIfsc := if inf == [] then 32 else if inf[0] < 254 then inf[0] else 254)
      case Abort => e.(recv := [])
      case Wtx => e;
    (Sent(e1, reply).0, Immediate(reply))
  }

  function OnSResponse(e: Endpoint, kind: Kind): (Endpoint, Fed)
    requires Valid(e)
  {
    if kind.Wtx? && e.wtxPending then
      var granted := e.(wtxPending := false);
      if e.send == [] then (granted, BadBlock(granted))
      else
        var (e1, b) := NextBlock(granted);
        (e1.(retryFrame := Some(b)), Immediate(b))
    else Repeated(e)
  }

  // An I-block: a repeat of the chain just answered, a sequence violation, a piece, or the end.
  function OnI(e: Endpoint, ns: Bit, more: bool, inf: Inf): (Endpoint, Fed) {
    if ns != e.hostNs then
      (e, if e.retryNs == Some(ns) && more then Immediate(Framed(R(ns, 0), []))
          else if e.retryNs == Some(ns) && e.retryFrame.Some? then Immediate(e.retryFrame.value)
          else Immediate(Framed(R(e.hostNs, 0), [])))
    else if |inf| > e.hostIfsd || |e.recv| + |inf| > MAX_RELAY then (e, BadBlock(e))
    else if more then (e.(recv := e.recv + inf), Immediate(Framed(R(ns, 0), [])))
    else (e.(recv := [], hostNs := Flip(e.hostNs)), Apdu(e.recv + inf))
  }

  function Feed(e: Endpoint, b: seq<byte>): (Endpoint, Fed)
    requires Valid(e)
  {
    if !WellFormed(b) then (e, BadBlock(e))
    else
      match ParsePcb(b[1])
      case I(ns, more, _) => OnI(e, ns, more, b[3..|b| - 1])
      case R(_, _) => OnR(e)
      case S(kind, response) => if response then OnSResponse(e, kind) else OnSRequest(e, kind, b[3..|b| - 1])
  }

  // How many block waiting times an extension asks for.
  function Multiplier(bwi: nat, took: nat): byte {
    BwtPositive(bwi);
    WaitingTime.Clamp(WaitingTime.DivCeil(took + TURNAROUND_MS, WaitingTime.BwtMs(bwi, HOST_BAUD)), 2, 59)
  }

  lemma BwtPositive(bwi: nat)
    ensures WaitingTime.BwtMs(bwi, HOST_BAUD) > 0
  {
    hide WaitingTime.Pow2;
    WaitingTime.DivCeilLeast(WaitingTime.BwtEtu(bwi) * 1000, HOST_BAUD, 0);
  }

  predicate NeedsExtension(e: Endpoint, took: nat) {
    took + TURNAROUND_MS > WaitingTime.BwtMs(e.hostBwi, HOST_BAUD)
  }

  function Cached(e: Endpoint, b: seq<byte>): (Endpoint, seq<byte>) {
    (e.(retryNs := Some(Flip(e.hostNs)), retryFrame := Some(b)), b)
  }

  function Staged(e: Endpoint, answer: seq<byte>): Endpoint {
    e.(send := if |answer| <= MAX_RELAY then answer else answer[..MAX_RELAY])
  }

  // The first frame of an answer: a waiting-time request if the card was slow, else a block.
  function CardResponse(e: Endpoint, answer: seq<byte>, took: nat): (Endpoint, seq<byte>)
    requires Valid(e)
  {
    var staged := Staged(e, answer);
    if NeedsExtension(e, took) then
      var (e1, b) := Sent(staged.(wtxPending := true), Framed(S(Wtx, false), [Multiplier(e.hostBwi, took)]));
      Cached(e1, b)
    else
      var (e1, b) := NextBlock(staged);
      Cached(e1, b)
  }
}
