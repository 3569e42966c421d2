/** The handler core wrapped for a serial reader: when blocks go to the T=1 endpoint. */
module CcidService {
  import opened Bytes
  import opened CcidCore
  import T1
  import T1Laws
  import GemPc

  // The serial reader has no pin pad.
  function Serial(firmware: Buffer): Profile {
    Profile(false, false, firmware)
  }

  datatype Service = Service(
    firmware: Buffer, core: Core, t1: T1.Endpoint, armed: bool, baudEnabled: bool, pendingBaud: Option<u32>)

  function Boot(firmware: Buffer, reinits: u32, baudEnabled: bool): Service {
    Service(firmware, Initial(Serial(firmware), reinits), T1.FRESH, false, baudEnabled, None)
  }

  // The driver's answers, how long the card took, and what a diagnostic probe reads, if the
  // front end has one.
  datatype World = World(driver: Driver, took: nat, probe: Option<(bool, Buffer)>)

  // ---- Arming and disarming ----

  // A new session of the host: a fresh endpoint with the negotiated timing.
  function Session(c: Core): T1.Endpoint {
    var timing := AppliedT1Timing(c);
    if timing.Some? then T1.Timed(T1.FRESH, timing.value.0, timing.value.2) else T1.FRESH
  }

  lemma TimedIsValid(c: Core)
    ensures T1.Valid(Session(c)) && T1.Valid(T1.FRESH)
  {
  }

  function TakeAccepted(s: Service): Service {
    if s.core.paramsAccepted then s.(core := s.core.(paramsAccepted := false), armed := true, t1 := Session(s.core))
    else s
  }

  function TakeReset(s: Service): Service {
    if s.core.cardReset then s.(core := s.core.(cardReset := false), armed := false, t1 := T1.FRESH) else s
  }

  function CardChange(s: Service, d: Driver): (Service, Option<bool>) {
    var (c, change) := Polled(Serial(s.firmware), s.core, d);
    (TakeReset(s.(core := c)), change)
  }

  // ---- Escapes answered here ----

  function BaudFromCode(code: byte): Option<u32> {
    match code
    case 0 => Some(115200)
    case 1 => Some(230400)
    case 2 => Some(460800)
    case 3 => Some(576000)
    case 4 => Some(921600)
    case 5 => Some(1000000)
    case 6 => Some(1500000)
    case 7 => Some(2000000)
    case 8 => Some(3000000)
    case _ => None
  }

  predicate ProbeEscape(h: Header, m: seq<byte>) {
    && h.kind == ESCAPE && |m| > 10
    && ((h.length == 1 && (m[10] == 0xD2 || m[10] == 0xD4)) || (h.length == 2 && m[10] == 0xD3))
  }

  predicate BaudEscape(h: Header, m: seq<byte>) {
    h.kind == ESCAPE && |m| > 10 && m[10] == 0x05
  }

  function RequestedBaud(h: Header, m: seq<byte>): Option<u32> {
    if h.length == 2 && |m| > 11 then BaudFromCode(m[11]) else None
  }

  function SwitchBaud(s: Service, h: Header, m: seq<byte>, cap: u32): (Service, seq<byte>) {
    var icc, baud := IccStatus(s.core.slot), RequestedBaud(h, m);
    if baud.Some? then
      (s.(pendingBaud := baud), Reply(cap, ESCAPE_REPLY, h, icc, false, 0, 0, [0x05, m[11]] + Le32(baud.value)))
    else (s, Reply(cap, ESCAPE_REPLY, h, icc, true, 0, NOT_SUPPORTED, []))
  }

  // ---- XfrBlock through the endpoint ----

  // Requests the link layer answers without a card. The bit tested is 0x10, which the
  // endpoint's own encoding leaves clear in responses as well.
  predicate IsSBlockRequest(b: seq<byte>) {
    |b| >= 4 && b[1] >= 0xC0 && b[1] / 0x10 % 2 == 0
  }

  const CARD_TIMEOUT_SW: seq<byte> := [0x64, 0x00]
  const SCRATCH: u32 := 271

  // What goes to the host as the card's answer: a failed exchange becomes a status word.
  function Relay(out: seq<byte>): seq<byte> {
    if FailedStatus(out) then CARD_TIMEOUT_SW else if |out| < 10 then [] else out[10..]
  }

  function RelayedApdu(s: Service, h: Header, apdu: seq<byte>, w: World, cap: u32): (Service, seq<byte>)
    requires T1.Valid(s.t1)
  {
    var (c, out) := Pipeline(Serial(s.firmware), s.core, h, apdu, w.driver, SCRATCH);
    var (t1, frame) := T1.CardResponse(s.t1, Relay(out), w.took);
    (s.(core := c, t1 := t1), Reply(cap, DATA_BLOCK, h, 0, false, 0, 0, frame))
  }

  function CountFailure(out: (Service, seq<byte>)): (Service, seq<byte>) {
    (if FailedStatus(out.1) then out.0.(core := CountError(out.0.core)) else out.0, out.1)
  }

  function ViaT1(s: Service, h: Header, m: seq<byte>, w: World, cap: u32): (Service, seq<byte>)
    requires T1.Valid(s.t1) && |m| >= 10
  {
    if |m| < 10 + h.length then
      (s.(core := CountError(s.core)), SlotStatus(cap, h, IccStatus(s.core.slot), true, NOT_SUPPORTED))
    else
      var block := m[10..10 + h.length];
      if !IsSBlockRequest(block) && s.core.slot != PresentActive then
        CountFailure((s, Reply(cap, DATA_BLOCK, h, IccStatus(s.core.slot), true, ICC_NOT_ACTIVE, 0, [])))
      else
        T1Laws.FeedKeepsValid(s.t1, block);
        var (t1, fed) := T1.Feed(s.t1, block);
        match fed
        case Immediate(bytes) => (s.(t1 := t1), Reply(cap, DATA_BLOCK, h, IccStatus(s.core.slot), false, 0, 0, bytes))
        case Apdu(apdu) => RelayedApdu(s.(t1 := t1), h, apdu, w, cap)
  }

  // ---- One host message ----

  lemma HeaderLength(m: seq<byte>)
    ensures ParseHeader(m).Some? ==> |m| >= 10
  {
    hide GemPc.PayloadLength;
  }

  predicate ToEndpoint(s: Service, h: Header) {
    h.kind == XFR_BLOCK && s.armed && s.core.protocol == 1
  }

  function Delegated(s: Service, m: seq<byte>, w: World, cap: u32): (Service, seq<byte>) {
    var (c, r) := Processed(Serial(s.firmware), s.core, m, w.driver, cap);
    (TakeReset(TakeAccepted(s.(core := c))), r)
  }

  function Served(s: Service, m: seq<byte>, w: World, cap: u32): (Service, seq<byte>)
    requires T1.Valid(s.t1)
  {
    var h := ParseHeader(m);
    if h.Some? && ToEndpoint(s, h.value) then ViaT1(s, h.value, m, w, cap)
    else if h.Some? && ProbeEscape(h.value, m) && w.probe.Some? then
      (s, Reply(cap, ESCAPE_REPLY, h.value, IccStatus(s.core.slot), w.probe.value.0, 0, 0, w.probe.value.1))
    else if h.Some? && s.baudEnabled && BaudEscape(h.value, m) then SwitchBaud(s, h.value, m, cap)
    else Delegated(s, m, w, cap)
  }
}
