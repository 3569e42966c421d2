/** The CCID message handler core: its state, and what every operation does to it. */
module CcidCore {
  import opened Bytes
  import opened SecurePin
  import Atr
  import GemPc

  // ---- Wire constants ----

  const ICC_POWER_ON: byte := 0x62
  const ICC_POWER_OFF: byte := 0x63
  const GET_SLOT_STATUS: byte := 0x65
  const XFR_BLOCK: byte := 0x6F
  const GET_PARAMETERS: byte := 0x6C
  const SET_PARAMETERS: byte := 0x61
  const RESET_PARAMETERS: byte := 0x6D
  const ESCAPE: byte := 0x6B
  const SECURE: byte := 0x69
  const ABORT: byte := 0x72

  const DATA_BLOCK: byte := 0x80
  const SLOT_STATUS: byte := 0x81
  const PARAMETERS: byte := 0x82
  const ESCAPE_REPLY: byte := 0x83

  const NOT_SUPPORTED: byte := 0x00
  const ICC_NOT_ACTIVE: byte := 0x05
  const BAD_LENGTH: byte := 0x07
  const BAD_PARAMETER: byte := 0x08
  const SLOT_BUSY: byte := 0xE0
  const PIN_CANCELLED: byte := 0xEF
  const TIMED_OUT: byte := 0xF0
  const HW_ERROR: byte := 0xFB
  const XFR_OVERRUN: byte := 0xFC
  const XFR_PARITY: byte := 0xFD
  const ICC_MUTE: byte := 0xFE
  const CMD_ABORTED: byte := 0xFF

  // ---- State ----

  type u32 = x: nat | x <= U32_MAX
  type Buffer = s: seq<byte> | |s| <= 271
  type Raw = s: seq<byte> | |s| == 7 witness [0, 0, 0, 0, 0, 0, 0]

  datatype Profile = Profile(contact: bool, pinPad: bool, firmware: Buffer)

  datatype SlotState = Absent | PresentInactive | PresentActive

  datatype Negotiated = Negotiated(protocol: byte, raw: Raw)

  datatype SecureState =
    | Idle
    | PinVerify(seqno: byte, checked: VerifyParams)
    | PinModify(seqno: byte, changed: ModifyParams)

  datatype Diagnostics = Diagnostics(
    tx: u32, rx: u32, naks: u32, errors: u32, reinits: u32, cardPresent: bool, uptime: u32)

  // What the core asked of the card, newest first.
  datatype Call = PowerOn | PowerOff | Transmit(apdu: seq<byte>)

  datatype Core = Core(
    slot: SlotState, present: bool, protocol: byte, hostParams: Option<Negotiated>, atr: Atr.AtrParams,
    secure: SecureState, cardReset: bool, paramsAccepted: bool, snapshot: bool, syncNotifications: bool,
    diag: Diagnostics, calls: List<Call>)

  function Initial(profile: Profile, reinits: u32): Core {
    Core(Absent, false, if profile.contact then 0 else 1, None, Atr.DEFAULT, Idle, false, false, false, false,
         Diagnostics(0, 0, 0, 0, reinits, false, 0), Nil)
  }

  // ---- The card driver, whose answers are not ours to choose ----

  datatype Failure = Parity | Overrun | Timeout | Mute | Hardware | Unclassified

  datatype Exchange = Answer(data: Buffer) | Failed(failure: Failure)

  datatype Driver = Driver(
    sessionActive: bool, polledPresent: bool, cardPresent: bool, powerOn: Option<Buffer>,
    answer: Exchange, uid: Option<Buffer>, reinits: u32)

  function Saturated(n: u32): u32 {
    if n < U32_MAX then n + 1 else n
  }

  function CountError(c: Core): Core {
    c.(diag := c.diag.(errors := Saturated(c.diag.errors)))
  }

  // The one seam through which an APDU reaches the card, counted as it does.
  function Transmitted(c: Core, apdu: seq<byte>, answer: Exchange): Core {
    var d := c.diag.(tx := Saturated(c.diag.tx));
    c.(calls := Cons(Transmit(apdu), c.calls), diag := if answer.Answer? then d.(rx := Saturated(d.rx)) else d)
  }

  function Called(c: Core, call: Call): Core {
    c.(calls := Cons(call, c.calls))
  }

  // ---- Responses ----

  datatype Header = Header(kind: byte, length: nat, slot: byte, seqno: byte, specific: byte)

  function ParseHeader(m: seq<byte>): Option<Header> {
    if |m| < GemPc.HEADER_SIZE then None
    else Some(Header(m[0], GemPc.PayloadLength(m), m[5], m[6], m[7]))
  }

  function Status(failed: bool, icc: byte): byte
    requires icc < 3
  {
    if failed then 64 + icc else icc
  }

  predicate FailedStatus(r: seq<byte>) {
    |r| > 7 && r[7] / 64 % 2 == 1
  }

  function IccStatus(slot: SlotState): (icc: byte)
    ensures icc < 3
  {
    match slot case PresentActive => 0 case PresentInactive => 1 case Absent => 2
  }

  // A response message, or nothing when the caller's buffer is too small for it.
  function Reply(cap: u32, kind: byte, h: Header, icc: byte, failed: bool, error: byte, last: byte, payload: seq<byte>)
    : (r: seq<byte>)
    requires icc < 3
    ensures r == [] <==> 10 + |payload| > cap
  {
    if 10 + |payload| > cap then []
    else GemPc.Bulk(kind, h.slot, h.seqno, Status(failed, icc), error, last, payload)
  }

  lemma ReplyIs(cap: u32, kind: byte, h: Header, icc: byte, failed: bool, error: byte, last: byte, payload: seq<byte>)
    requires icc < 3 && 10 + |payload| <= cap
    ensures var r := Reply(cap, kind, h, icc, failed, error, last, payload);
            && |r| == 10 + |payload| && r[0] == kind && GemPc.PayloadLength(r) == |payload|
            && r[5] == h.slot && r[6] == h.seqno && r[7] == Status(failed, icc) && r[8] == error && r[9] == last
            && r[10..] == payload && (FailedStatus(r) <==> failed)
  {
    hide GemPc.Bulk, GemPc.PayloadLength;
  }

  function SlotStatus(cap: u32, h: Header, icc: byte, failed: bool, error: byte): seq<byte>
    requires icc < 3
  {
    Reply(cap, SLOT_STATUS, h, icc, failed, error, 0, [])
  }

  function BError(f: Failure): byte {
    match f
    case Parity => XFR_PARITY
    case Overrun => XFR_OVERRUN
    case Timeout => TIMED_OUT
    case Mute => ICC_MUTE
    case Hardware => HW_ERROR
    case Unclassified => TIMED_OUT
  }

  // ---- Slot life cycle ----

  function AfterPowerOn(profile: Profile, c: Core, atr: Buffer): Core {
    var up := Called(c, PowerOn).(present := true, slot := PresentActive, cardReset := true);
    if !profile.contact then up
    else
      var params := Atr.Interpret(Atr.DEFAULT, Atr.AtrItems(atr));
      up.(atr := params, protocol := params.protocol, hostParams := None)
  }

  // The guards of IccPowerOn, in order, with the status each one answers.
  function PowerOnRefusal(profile: Profile, c: Core, h: Header, d: Driver): Option<(SlotState, byte)> {
    if !profile.contact then
      if !c.present then Some((Absent, NOT_SUPPORTED)) else None
    else if h.length != 0 then Some((c.slot, NOT_SUPPORTED))
    else if !d.cardPresent then Some((Absent, ICC_MUTE))
    else if h.specific == 2 || h.specific == 3 then Some((PresentInactive, NOT_SUPPORTED))
    else None
  }

  function PoweredOn(profile: Profile, c: Core, h: Header, d: Driver, cap: u32): (Core, seq<byte>) {
    var refusal := PowerOnRefusal(profile, c, h, d);
    if refusal.Some? then (c, SlotStatus(cap, h, IccStatus(refusal.value.0), true, refusal.value.1))
    else
      match d.powerOn
      case Some(atr) => (AfterPowerOn(profile, c, atr), Reply(cap, DATA_BLOCK, h, 0, false, 0, 0, atr))
      case None =>
        (Called(c, PowerOn).(slot := PresentInactive),
         SlotStatus(cap, h, 1, true, if profile.contact then ICC_MUTE else HW_ERROR))
  }

  function PoweredOff(profile: Profile, c: Core, h: Header, cap: u32): (Core, seq<byte>) {
    var off := Called(c, PowerOff).(slot := PresentInactive);
    (if profile.contact then off.(protocol := 0) else off, SlotStatus(cap, h, 1, false, 0))
  }

  // A presence poll: the new state and the change it reports.
  function Polled(profile: Profile, c: Core, d: Driver): (Core, Option<bool>) {
    if d.sessionActive then
      (c.(present := true, slot := PresentActive, diag := c.diag.(cardPresent := true)), None)
    else
      var seen := c.(diag := c.diag.(cardPresent := d.polledPresent, reinits := d.reinits));
      if !profile.contact && c.slot == PresentActive && d.polledPresent then
        (seen.(slot := PresentInactive, present := true, cardReset := true), Some(true))
      else if d.polledPresent == c.present then (seen, None)
      else if d.polledPresent then (seen.(present := true, slot := PresentInactive), Some(true))
      else if profile.contact then
        (Called(seen, PowerOff).(present := false, secure := Idle, slot := Absent), Some(false))
      else (seen.(present := false, slot := Absent), Some(false))
  }

  // ---- Card exchanges ----

  predicate IsPpsRequest(apdu: seq<byte>) {
    3 <= |apdu| <= 5 && apdu[0] == 0xFF && 0 < apdu[1] < 0x20
  }

  // The reader's own answer to a PC/SC pseudo-APDU.
  function PseudoAnswer(apdu: seq<byte>, uid: Option<Buffer>): seq<byte>
    requires |apdu| >= 4
  {
    if apdu[1] == 0xCA && apdu[2] == 0 && apdu[3] == 0 && uid.Some? then uid.value + [0x90, 0x00]
    else if apdu[1] == 0xCA && !(apdu[2] == 0 && apdu[3] == 0) then [0x6A, 0x86]
    else [0x63, 0x00]
  }

  // What the reader answers without the card.
  function LocalAnswer(profile: Profile, apdu: seq<byte>, d: Driver): Option<seq<byte>> {
    if IsPpsRequest(apdu) then Some(apdu)
    else if !profile.contact && |apdu| >= 4 && apdu[0] == 0xFF then Some(PseudoAnswer(apdu, d.uid))
    else None
  }

  function Pipeline(profile: Profile, c: Core, h: Header, apdu: seq<byte>, d: Driver, cap: u32): (Core, seq<byte>) {
    var answered := LocalAnswer(profile, apdu, d);
    if answered.Some? then (c, Reply(cap, DATA_BLOCK, h, 0, false, 0, 0, answered.value))
    else
      var sent := Transmitted(c, apdu, d.answer);
      match d.answer
      case Answer(data) => (sent, Reply(cap, DATA_BLOCK, h, 0, false, 0, 0, data))
      case Failed(f) => (sent.(slot := PresentInactive), Reply(cap, DATA_BLOCK, h, 1, true, BError(f), 0, []))
  }

  // The contact profile keeps the slot active across a failed exchange.
  function ContactExchange(profile: Profile, c: Core, h: Header, apdu: seq<byte>, d: Driver, cap: u32)
    : (Core, seq<byte>)
  {
    var answered := LocalAnswer(profile, apdu, d);
    if |apdu| > 261 then (c, SlotStatus(cap, h, 0, true, BAD_LENGTH))
    else if answered.Some? then (c, Reply(cap, DATA_BLOCK, h, 0, false, 0, 0, answered.value))
    else
      var sent := Transmitted(c, apdu, d.answer);
      match d.answer
      case Answer(data) => (sent, Reply(cap, DATA_BLOCK, h, 0, false, 0, 0, data))
      case Failed(f) => (sent, Reply(cap, DATA_BLOCK, h, 0, true, BError(f), 0, []))
  }

  function Exchanged(profile: Profile, c: Core, h: Header, apdu: seq<byte>, d: Driver, cap: u32): (Core, seq<byte>) {
    if c.slot.PresentActive? then
      if profile.contact then ContactExchange(profile, c, h, apdu, d, cap) else Pipeline(profile, c, h, apdu, d, cap)
    else if profile.contact then (c, SlotStatus(cap, h, IccStatus(c.slot), true, ICC_MUTE))
    else (c, Reply(cap, DATA_BLOCK, h, IccStatus(c.slot), true, ICC_NOT_ACTIVE, 0, []))
  }

  // ---- Parameters ----

  function DefaultParams(protocol: byte): seq<byte> {
    if protocol == 0 then [0x11, 0, 0, 0, 0] else [0x11, 0, 0, 0x03, 0, 0x20, 0]
  }

  // The block an answer to reset amounts to.
  function AtrBlock(p: Atr.AtrParams, protocol: byte): seq<byte> {
    var ta1: byte := if p.hasTa1 then p.ta1 else 0x11;
    if protocol == 1 then
      [ta1, p.edcType % 2 * 16, p.guardTimeN, p.bwi * 16 % 256 + p.cwi % 16, 0, if p.ifsc < 254 then p.ifsc else 254, 0]
    else [ta1, 0, p.guardTimeN, 0, 0]
  }

  function Block(n: Negotiated): seq<byte> {
    if n.protocol == 1 then n.raw else n.raw[..5]
  }

  // What GetParameters reports, always of the protocol in force.
  function Reported(profile: Profile, c: Core): seq<byte> {
    if !profile.contact then
      if c.hostParams.Some? && c.hostParams.value.protocol == c.protocol == 1 then c.hostParams.value.raw
      else DefaultParams(c.protocol)
    else if c.hostParams.Some? && c.hostParams.value.protocol == c.protocol then Block(c.hostParams.value)
    else AtrBlock(c.atr, c.protocol)
  }

  function ParametersReply(profile: Profile, c: Core, h: Header, cap: u32): seq<byte> {
    Reply(cap, PARAMETERS, h, IccStatus(c.slot), false, 0, c.protocol, Reported(profile, c))
  }

  // The field rules of the contact profile, by protocol.
  predicate FieldRules(protocol: byte, raw: Raw) {
    if protocol == 1 then raw[1] <= 1 && 16 <= raw[5] <= 254 && raw[6] == 0
    else protocol == 0 && raw[1] % 128 == 0
  }

  function Padded(payload: seq<byte>): Raw
    requires |payload| == 5 || |payload| == 7
  {
    if |payload| == 7 then payload else payload + [0, 0]
  }

  // Whether the contact profile takes a parameter block.
  predicate Acceptable(requested: byte, payload: seq<byte>) {
    && (|payload| == 5 || |payload| == 7)
    && requested == (if |payload| == 7 then 1 else 0)
    && FieldRules(requested, Padded(payload))
  }

  // The decoded copy after a block was taken.
  function Applied(p: Atr.AtrParams, n: Negotiated): Atr.AtrParams {
    var q := p.(hasTa1 := true, ta1 := n.raw[0], fi := Atr.FiFromTa1High(n.raw[0] / 16),
                di := Atr.DiFromTa1Low(n.raw[0] % 16), guardTimeN := n.raw[2]);
    if n.protocol == 1 then q.(bwi := n.raw[3] / 16, cwi := n.raw[3] % 16, edcType := n.raw[1] % 2, ifsc := n.raw[5])
    else q
  }

  function Adopted(c: Core, n: Negotiated): Core {
    c.(protocol := n.protocol, hostParams := Some(n), paramsAccepted := true, atr := Applied(c.atr, n))
  }

  function SetContact(profile: Profile, c: Core, h: Header, payload: seq<byte>, cap: u32): (Core, seq<byte>) {
    if |payload| != 5 && |payload| != 7 then (c, SlotStatus(cap, h, IccStatus(c.slot), true, BAD_LENGTH))
    else if !Acceptable(h.specific, payload) then
      (c, Reply(cap, PARAMETERS, h, IccStatus(c.slot), true, BAD_PARAMETER, 0, []))
    else
      var taken := Adopted(c, Negotiated(h.specific, Padded(payload)));
      (taken, ParametersReply(profile, taken, h, cap))
  }

  // The serial profile looks at the protocol number alone and keeps only full T=1 blocks.
  function SetSerial(profile: Profile, c: Core, h: Header, payload: seq<byte>, cap: u32): (Core, seq<byte>) {
    if h.specific > 1 then (c, SlotStatus(cap, h, IccStatus(c.slot), true, NOT_SUPPORTED))
    else
      var chosen := c.(protocol := h.specific, paramsAccepted := true);
      var full := h.specific == 1 && |payload| == 7;
      var taken := if full then chosen.(hostParams := Some(Negotiated(1, payload))) else chosen;
      (taken, ParametersReply(profile, taken, h, cap))
  }

  function ResetParameters(profile: Profile, c: Core): Core {
    if profile.contact then c.(atr := Atr.DEFAULT, protocol := 0, hostParams := None, paramsAccepted := true)
    else c.(protocol := 1, paramsAccepted := true)
  }

  function Reset(profile: Profile, c: Core, h: Header, cap: u32): (Core, seq<byte>) {
    var reset := ResetParameters(profile, c);
    (reset, ParametersReply(profile, reset, h, cap))
  }

  // The Fi, Di, guard time and protocol a reader with automatic baud rate must apply.
  datatype WireTiming = WireTiming(fi: nat, di: nat, guardTimeN: byte, protocol: byte)

  function AcceptedTiming(c: Core): Option<WireTiming> {
    match c.hostParams
    case None => None
    case Some(n) =>
      Some(WireTiming(Atr.FiFromTa1High(n.raw[0] / 16), Atr.DiFromTa1Low(n.raw[0] % 16), n.raw[2], n.protocol))
  }

  // BWI, CWI and IFSC for a T=1 endpoint.
  function AppliedT1Timing(c: Core): Option<(nat, nat, byte)> {
    if c.hostParams.Some? && c.hostParams.value.protocol == 1 && c.protocol == 1 then
      var raw := c.hostParams.value.raw;
      Some((raw[3] / 16, raw[3] % 16, raw[5]))
    else None
  }

  // ---- Escape and Secure ----

  function Serialised(d: Diagnostics): seq<byte> {
    Le32(d.tx) + Le32(d.rx) + Le32(d.naks) + Le32(d.errors) + Le32(d.reinits) + Le32(if d.cardPresent then 1 else 0)
    + Le32(d.uptime)
  }

  function Escaped(profile: Profile, c: Core, h: Header, payload: seq<byte>, cap: u32): (Core, seq<byte>) {
    var icc := IccStatus(c.slot);
    if payload != [] && payload[0] == 0xD0 then
      (c, Reply(cap, ESCAPE_REPLY, h, icc, false, 0, 0, Serialised(c.diag)))
    else if !profile.contact && payload != [] && payload[0] == 0xD1 then
      (c.(snapshot := true), Reply(cap, ESCAPE_REPLY, h, icc, false, 0, 0, [0xD1]))
    else if !profile.contact && payload != [] && payload[0] == 0x02 then
      (c, Reply(cap, ESCAPE_REPLY, h, icc, false, 0, 0, profile.firmware))
    else if !profile.contact && [1, 1, 1] <= payload then
      (c.(syncNotifications := true), Reply(cap, ESCAPE_REPLY, h, icc, false, 0, 0, [1, 1, 1]))
    else (c, Reply(cap, ESCAPE_REPLY, h, icc, true, 0, NOT_SUPPORTED, []))
  }

  function SecureRefused(profile: Profile, slot: SlotState, h: Header, cap: u32): seq<byte> {
    if profile.contact then Reply(cap, DATA_BLOCK, h, IccStatus(slot), true, NOT_SUPPORTED, 0, [])
    else SlotStatus(cap, h, IccStatus(slot), true, NOT_SUPPORTED)
  }

  // A PIN structure arms the session and is answered later; one that faults ends the run.
  function Armed(profile: Profile, c: Core, h: Header, payload: seq<byte>): Option<SecureState>
    requires payload != []
  {
    if payload[0] == 0 then
      match ParseVerify(payload[1..])
      case Accepted(p) => Some(PinVerify(h.seqno, p))
      case _ => None
    else if payload[0] == 1 then
      match ParseModify(payload[1..])
      case Accepted(p) => Some(PinModify(h.seqno, p))
      case Faulted => Some(c.secure)
      case Rejected => None
    else None
  }

  function Secured(profile: Profile, c: Core, h: Header, payload: seq<byte>, cap: u32): (Core, seq<byte>) {
    if !profile.pinPad then (c, SecureRefused(profile, c.slot, h, cap))
    else if !c.slot.PresentActive? then
      (c, Reply(cap, DATA_BLOCK, h, IccStatus(c.slot), true, SLOT_BUSY, 0, []))
    else if payload == [] then (c, SecureRefused(profile, c.slot, h, cap))
    else
      match Armed(profile, c, h, payload)
      case Some(session) => (c.(secure := session), [])
      case None => (c, SecureRefused(profile, c.slot, h, cap))
  }

  // ---- The end of a PIN session ----

  datatype PinResult = Success | Cancelled | TimeOut | InvalidLength

  function CompletePin(c: Core, seqno: byte, result: PinResult, data: Buffer, cap: u32): (Core, seq<byte>) {
    var h := Header(SECURE, 0, 0, seqno, 0);
    var icc := IccStatus(c.slot);
    (c.(secure := Idle),
     match result
     case Success => Reply(cap, DATA_BLOCK, h, icc, false, 0, 0, data)
     case Cancelled => Reply(cap, DATA_BLOCK, h, icc, true, PIN_CANCELLED, 0, [])
     case TimeOut => Reply(cap, DATA_BLOCK, h, icc, true, TIMED_OUT, 0, [])
     case InvalidLength => Reply(cap, DATA_BLOCK, h, icc, true, CMD_ABORTED, 0, []))
  }

  // The card is given the first `length` bytes of a built buffer; a card that fails cancels.
  function PinExchange(c: Core, seqno: byte, built: Built, length: nat, d: Driver, cap: u32): (Core, seq<byte>) {
    match built
    case Overrun => (c, [])
    case Refused(_) => CompletePin(c, seqno, InvalidLength, [], cap)
    case Apdu(bytes) =>
      if length > |bytes| then (c, [])
      else
        var sent := Transmitted(c, bytes[..length], d.answer);
        match d.answer
        case Answer(data) => CompletePin(sent, seqno, Success, data, cap)
        case Failed(_) => CompletePin(sent, seqno, Cancelled, [], cap)
  }

  function CompleteVerify(c: Core, seqno: byte, result: PinResult, pin: seq<byte>, p: VerifyParams, d: Driver, cap: u32)
    : (Core, seq<byte>)
    requires Digits(pin)
  {
    if !result.Success? then CompletePin(c, seqno, result, [], cap)
    else PinExchange(c, seqno, BuildVerify(p.head.cla, p.head.p1, p.head.p2, Ascii(pin)), 5 + |pin|, d, cap)
  }

  function CompleteModify(c: Core, seqno: byte, result: PinResult, oldPin: seq<byte>, newPin: seq<byte>,
                          p: ModifyParams, d: Driver, cap: u32): (Core, seq<byte>)
    requires Digits(oldPin) && Digits(newPin)
  {
    if !result.Success? then CompletePin(c, seqno, result, [], cap)
    else
      PinExchange(c, seqno, BuildModify(p.head.cla, p.head.p1, p.head.p2, Ascii(oldPin), Ascii(newPin)),
                  5 + |oldPin| + |newPin|, d, cap)
  }

  // ---- The dispatcher ----

  function Dispatched(profile: Profile, c: Core, h: Header, payload: seq<byte>, d: Driver, cap: u32): (Core, seq<byte>)
  {
    if h.kind == ICC_POWER_ON then PoweredOn(profile, c, h, d, cap)
    else if h.kind == ICC_POWER_OFF then PoweredOff(profile, c, h, cap)
    else if h.kind == GET_SLOT_STATUS then (c, SlotStatus(cap, h, IccStatus(c.slot), false, 0))
    else if h.kind == XFR_BLOCK then Exchanged(profile, c, h, payload, d, cap)
    else if h.kind == GET_PARAMETERS then (c, ParametersReply(profile, c, h, cap))
    else if h.kind == SET_PARAMETERS then
      if profile.contact then SetContact(profile, c, h, payload, cap) else SetSerial(profile, c, h, payload, cap)
    else if h.kind == RESET_PARAMETERS then Reset(profile, c, h, cap)
    else if h.kind == ESCAPE then Escaped(profile, c, h, payload, cap)
    else if h.kind == SECURE then Secured(profile, c, h, payload, cap)
    else (c, SlotStatus(cap, h, IccStatus(c.slot), !(h.kind == ABORT && profile.contact), 0))
  }

  function Counted(out: (Core, seq<byte>)): (Core, seq<byte>) {
    (if FailedStatus(out.1) then CountError(out.0) else out.0, out.1)
  }

  // One host message: too short for a header, shorter than it declares, or dispatched.
  function Processed(profile: Profile, c: Core, m: seq<byte>, d: Driver, cap: u32): (Core, seq<byte>) {
    match ParseHeader(m)
    case None => (c, [])
    case Some(h) =>
      if |m| < 10 + h.length then (CountError(c), SlotStatus(cap, h, IccStatus(c.slot), true, NOT_SUPPORTED))
      else Counted(Dispatched(profile, c, h, m[10..10 + h.length], d, cap))
  }

  // The three ways a message goes.
  lemma ProcessedIs(profile: Profile, c: Core, m: seq<byte>, d: Driver, cap: u32)
    ensures var h, out := ParseHeader(m), Processed(profile, c, m, d, cap);
            if h.None? then out == (c, [])
            else if |m| < 10 + h.value.length then
              out == (CountError(c), SlotStatus(cap, h.value, IccStatus(c.slot), true, NOT_SUPPORTED))
            else
              var done := Dispatched(profile, c, h.value, m[10..10 + h.value.length], d, cap);
              out == (if FailedStatus(done.1) then CountError(done.0) else done.0, done.1)
  {
    hide Dispatched, ParseHeader, SlotStatus, FailedStatus, CountError;
  }
}
