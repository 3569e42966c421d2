/** What each host message does to the handler core and what it is answered, byte by byte, in
    the numbers of USB CCID Rev 1.1. */
module CcidMessages {
  import opened Bytes
  import opened SecurePin
  import opened CcidCore
  import opened CcidRuns
  import opened CcidHost
  import Atr
  import CcidCard
  import GemPc

  // ---- Messages and answers in bytes ----

  // A whole message of this type.
  predicate Whole(m: seq<byte>, kind: byte) {
    |m| >= 10 && m[0] == kind && |m| >= 10 + FromLe32(m[1], m[2], m[3], m[4])
  }

  function Data(m: seq<byte>): seq<byte>
    requires |m| >= 10 && |m| >= 10 + FromLe32(m[1], m[2], m[3], m[4])
  {
    m[10..10 + FromLe32(m[1], m[2], m[3], m[4])]
  }

  // An answer to m: nothing if it does not fit, else type, length, slot and number of m, card
  // status with bit 0x40 set if the command failed, error, last byte, data.
  predicate Says(cap: u32, r: seq<byte>, m: seq<byte>, kind: byte, icc: byte, failed: bool, error: byte, last: byte,
                 data: seq<byte>)
    requires |m| >= 10
  {
    Tells(cap, r, m[5], m[6], kind, icc, failed, error, last, data)
  }

  predicate Tells(cap: u32, r: seq<byte>, slot: byte, seqno: byte, kind: byte, icc: byte, failed: bool, error: byte,
                  last: byte, data: seq<byte>)
  {
    if 10 + |data| > cap then r == []
    else
      && |r| == 10 + |data| && r[0] == kind && FromLe32(r[1], r[2], r[3], r[4]) == |data|
      && r[5] == slot && r[6] == seqno && r[7] as int == icc + (if failed then 0x40 else 0)
      && r[8] == error && r[9] == last && r[10..] == data
  }

  predicate Refuses(cap: u32, r: seq<byte>, m: seq<byte>, kind: byte, icc: byte, error: byte)
    requires |m| >= 10
  {
    Says(cap, r, m, kind, icc, true, error, 0, [])
  }

  function CardStatus(slot: SlotState): byte {
    match slot case PresentActive => 0 case PresentInactive => 1 case Absent => 2
  }

  // One more failed command, if the failure was told.
  function Failing(c: Core, cap: u32): Core {
    if cap < 10 || c.diag.errors == 0xFFFF_FFFF then c else c.(diag := c.diag.(errors := c.diag.errors + 1))
  }

  lemma ReplySays(cap: u32, kind: byte, m: seq<byte>, icc: byte, failed: bool, error: byte, last: byte, data: seq<byte>)
    requires |m| >= 10 && icc < 3
    ensures ParseHeader(m).Some?
    ensures var r := Reply(cap, kind, ParseHeader(m).value, icc, failed, error, last, data);
            && Says(cap, r, m, kind, icc, failed, error, last, data)
            && (FailedStatus(r) <==> failed && 10 + |data| <= cap)
  {
    hide Reply, FromLe32, FailedStatus, Tells;
    ReplyTells(cap, kind, ParseHeader(m).value, icc, failed, error, last, data);
  }

  lemma ReplyTells(cap: u32, kind: byte, h: Header, icc: byte, failed: bool, error: byte, last: byte, data: seq<byte>)
    requires icc < 3
    ensures var r := Reply(cap, kind, h, icc, failed, error, last, data);
            && Tells(cap, r, h.slot, h.seqno, kind, icc, failed, error, last, data)
            && (FailedStatus(r) <==> failed && 10 + |data| <= cap)
  {
    hide GemPc.Bulk, FromLe32, Reply;
    if 10 + |data| <= cap { ReplyIs(cap, kind, h, icc, failed, error, last, data); }
  }

  // A whole message is dispatched on its type, and a failure that is told is counted.
  lemma WholeIsDispatched(profile: Profile, c: Core, m: seq<byte>, d: Driver, cap: u32, kind: byte)
    requires Whole(m, kind)
    ensures ParseHeader(m) == Some(Header(kind, |Data(m)|, m[5], m[6], m[7]))
    ensures Commands(m, kind) && Payload(m) == Data(m)
    ensures var (after, r) := Dispatched(profile, c, ParseHeader(m).value, Data(m), d, cap);
            Processed(profile, c, m, d, cap) == (if FailedStatus(r) then Failing(after, 10) else after, r)
  {
    hide Dispatched, FromLe32, FailedStatus, SlotStatus;
    ProcessedIs(profile, c, m, d, cap);
  }

  lemma FailingBelow(c: Core, cap: u32)
    ensures Failing(c, cap) == if cap < 10 then c else Failing(c, 10)
  {
  }

  // ---- Slot status and power ----

  lemma SlotStatusTold(profile: Profile, c: Core, m: seq<byte>, d: Driver, cap: u32)
    requires Whole(m, 0x65)
    ensures var (after, r) := Processed(profile, c, m, d, cap);
            after == c && Says(cap, r, m, 0x81, CardStatus(c.slot), false, 0, 0, [])
  {
    hide Dispatched, Reply, FailedStatus, Says, Whole, ParseHeader, FromLe32, PoweredOn, PoweredOff,
      Exchanged, ParametersReply, SetContact, SetSerial, Reset, Escaped, Secured;
    WholeIsDispatched(profile, c, m, d, cap, 0x65);
    WholeHasHeader(m, 0x65);
    DispatchedIs(profile, c, ParseHeader(m).value, Data(m), d, cap);
    ReplySays(cap, 0x81, m, CardStatus(c.slot), false, 0, 0, []);
  }

  lemma WholeHasHeader(m: seq<byte>, kind: byte)
    requires Whole(m, kind)
    ensures |m| >= 10 && |m| >= 10 + FromLe32(m[1], m[2], m[3], m[4])
  {
  }

  // The card is powered down, the slot is inactive whatever it was, and a contact reader is
  // back at T=0; nothing else changes.
  lemma PowerOffTold(profile: Profile, c: Core, m: seq<byte>, d: Driver, cap: u32)
    requires Whole(m, 0x63)
    ensures var (after, r) := Processed(profile, c, m, d, cap);
            && after == c.(slot := PresentInactive, calls := Cons(PowerOff, c.calls),
                           protocol := if profile.contact then 0 else c.protocol)
            && Says(cap, r, m, 0x81, 1, false, 0, 0, [])
  {
    hide Dispatched, Reply, FailedStatus, Says, Whole, ParseHeader, FromLe32, Unknown, PoweredOn,
      Exchanged, ParametersReply, SetContact, SetSerial, Reset, Escaped, Secured;
    WholeIsDispatched(profile, c, m, d, cap, 0x63);
    WholeHasHeader(m, 0x63);
    DispatchedIs(profile, c, ParseHeader(m).value, Data(m), d, cap);
    ReplySays(cap, 0x81, m, 1, false, 0, 0, []);
  }

  // A message cut short of what it announces.
  lemma TruncatedTold(profile: Profile, c: Core, m: seq<byte>, d: Driver, cap: u32)
    requires |m| >= 10 && |m| < 10 + FromLe32(m[1], m[2], m[3], m[4])
    ensures var (after, r) := Processed(profile, c, m, d, cap);
            after == Failing(c, 10) && Refuses(cap, r, m, 0x81, CardStatus(c.slot), 0)
  {
    hide Reply, FailedStatus, Says, Dispatched, FromLe32;
    ProcessedIs(profile, c, m, d, cap);
    ReplySays(cap, 0x81, m, CardStatus(c.slot), true, 0, 0, []);
  }

  // A type the reader does not know; a contact reader takes an abort as done.
  lemma UnknownTold(profile: Profile, c: Core, m: seq<byte>, d: Driver, cap: u32, kind: byte)
    requires Whole(m, kind)
    requires kind !in [0x61, 0x62, 0x63, 0x65, 0x69, 0x6B, 0x6C, 0x6D, 0x6F]
    ensures var (after, r) := Processed(profile, c, m, d, cap);
            if kind == 0x72 && profile.contact then
              after == c && Says(cap, r, m, 0x81, CardStatus(c.slot), false, 0, 0, [])
            else after == Failing(c, cap) && Refuses(cap, r, m, 0x81, CardStatus(c.slot), 0)
  {
    hide Dispatched, Reply, FailedStatus, Says, Whole, ParseHeader, FromLe32, PoweredOn, PoweredOff,
      Exchanged, ParametersReply, SetContact, SetSerial, Reset, Escaped, Secured;
    WholeIsDispatched(profile, c, m, d, cap, kind);
    WholeHasHeader(m, kind);
    DispatchedIs(profile, c, ParseHeader(m).value, Data(m), d, cap);
    ReplySays(cap, 0x81, m, CardStatus(c.slot), true, 0, 0, []);
    ReplySays(cap, 0x81, m, CardStatus(c.slot), false, 0, 0, []);
  }

  // A contactless reader powers up what its polls have seen: it activates the slot with the
  // answer to reset, or fails with a hardware error.
  lemma SerialPowerOnTold(profile: Profile, c: Core, m: seq<byte>, d: Driver, cap: u32)
    requires Whole(m, 0x62) && !profile.contact
    ensures var (after, r) := Processed(profile, c, m, d, cap);
            var asked := c.(calls := Cons(PowerOn, c.calls));
            if !c.present then after == Failing(c, cap) && Refuses(cap, r, m, 0x81, 2, 0)
            else if d.powerOn.Some? then
              && after == asked.(slot := PresentActive, cardReset := true)
              && Says(cap, r, m, 0x80, 0, false, 0, 0, d.powerOn.value)
            else after == Failing(asked.(slot := PresentInactive), cap) && Refuses(cap, r, m, 0x81, 1, 0xFB)
  {
    hide Dispatched, Reply, FailedStatus, Says, Whole, ParseHeader, FromLe32, Unknown, PoweredOff,
      Exchanged, ParametersReply, SetContact, SetSerial, Reset, Escaped, Secured;
    WholeIsDispatched(profile, c, m, d, cap, 0x62);
    WholeHasHeader(m, 0x62);
    DispatchedIs(profile, c, ParseHeader(m).value, Data(m), d, cap);
    ReplySays(cap, 0x81, m, 2, true, 0, 0, []);
    ReplySays(cap, 0x81, m, 1, true, 0xFB, 0, []);
    if d.powerOn.Some? { ReplySays(cap, 0x80, m, 0, false, 0, 0, d.powerOn.value); }
  }

  // A contact reader looks at the length, the card and the voltage, in this order; a card that
  // answers sets the parameters and drops what the host had negotiated.
  lemma ContactPowerOnTold(profile: Profile, c: Core, m: seq<byte>, d: Driver, cap: u32)
    requires Whole(m, 0x62) && profile.contact
    ensures var (after, r) := Processed(profile, c, m, d, cap);
            var asked := c.(calls := Cons(PowerOn, c.calls));
            if Data(m) != [] then after == Failing(c, cap) && Refuses(cap, r, m, 0x81, CardStatus(c.slot), 0)
            else if !d.cardPresent then after == Failing(c, cap) && Refuses(cap, r, m, 0x81, 2, 0xFE)
            else if m[7] == 2 || m[7] == 3 then after == Failing(c, cap) && Refuses(cap, r, m, 0x81, 1, 0)
            else if d.powerOn.Some? then
              var p := Atr.Interpret(Atr.DEFAULT, Atr.AtrItems(d.powerOn.value));
              && after == asked.(slot := PresentActive, present := true, cardReset := true, atr := p,
                                 protocol := p.protocol, hostParams := None)
              && Says(cap, r, m, 0x80, 0, false, 0, 0, d.powerOn.value)
            else after == Failing(asked.(slot := PresentInactive), cap) && Refuses(cap, r, m, 0x81, 1, 0xFE)
  {
    hide Dispatched, Reply, FailedStatus, Says, Whole, ParseHeader, FromLe32, Unknown, PoweredOff,
      Exchanged, ParametersReply, SetContact, SetSerial, Reset, Escaped, Secured, Atr.Interpret, Atr.AtrItems, FromLe32;
    WholeIsDispatched(profile, c, m, d, cap, 0x62);
    WholeHasHeader(m, 0x62);
    DispatchedIs(profile, c, ParseHeader(m).value, Data(m), d, cap);
    ReplySays(cap, 0x81, m, CardStatus(c.slot), true, 0, 0, []);
    ReplySays(cap, 0x81, m, 2, true, 0xFE, 0, []);
    ReplySays(cap, 0x81, m, 1, true, 0, 0, []);
    ReplySays(cap, 0x81, m, 1, true, 0xFE, 0, []);
    if d.powerOn.Some? { ReplySays(cap, 0x80, m, 0, false, 0, 0, d.powerOn.value); }
  }

  // ---- Exchanges ----

  // A protocol and parameter selection request, which the reader echoes.
  predicate Pps(apdu: seq<byte>) {
    3 <= |apdu| <= 5 && apdu[0] == 0xFF && 0x01 <= apdu[1] <= 0x1F
  }

  // The error code of each way an exchange can fail.
  function ErrorCode(f: Failure): byte {
    match f
    case Parity => 0xFD
    case Overrun => 0xFC
    case Timeout => 0xF0
    case Mute => 0xFE
    case Hardware => 0xFB
    case Unclassified => 0xF0
  }

  // What a contactless reader answers to an APDU of class FF itself: the card's UID, or a
  // status word.
  function Pseudo(apdu: seq<byte>, uid: Option<Buffer>): seq<byte>
    requires |apdu| >= 4
  {
    if apdu[1..4] == [0xCA, 0x00, 0x00] then if uid.Some? then uid.value + [0x90, 0x00] else [0x63, 0x00]
    else if apdu[1] == 0xCA then [0x6A, 0x86]
    else [0x63, 0x00]
  }

  function ReadersOwn(profile: Profile, apdu: seq<byte>, uid: Option<Buffer>): Option<seq<byte>> {
    if Pps(apdu) then Some(apdu)
    else if !profile.contact && |apdu| >= 4 && apdu[0] == 0xFF then Some(Pseudo(apdu, uid))
    else None
  }

  lemma LocalAnswerIs(profile: Profile, apdu: seq<byte>, d: Driver)
    ensures LocalAnswer(profile, apdu, d) == ReadersOwn(profile, apdu, d.uid)
    ensures profile.contact ==> LocalAnswer(profile, apdu, d) == (if Pps(apdu) then Some(apdu) else None)
  {
  }

  // The card is given the APDU, which is counted; an answer is counted too.
  function Given(c: Core, apdu: seq<byte>, answered: bool): Core {
    c.(calls := Cons(Transmit(apdu), c.calls),
       diag := c.diag.(tx := if c.diag.tx < 0xFFFF_FFFF then c.diag.tx + 1 else c.diag.tx,
                       rx := if answered && c.diag.rx < 0xFFFF_FFFF then c.diag.rx + 1 else c.diag.rx))
  }

  lemma TransmittedIs(c: Core, apdu: seq<byte>, answer: Exchange)
    ensures Transmitted(c, apdu, answer) == Given(c, apdu, answer.Answer?)
  {
  }

  lemma SerialXfrTold(profile: Profile, c: Core, m: seq<byte>, d: Driver, cap: u32)
    requires Whole(m, 0x6F) && !profile.contact
    ensures var (after, r) := Processed(profile, c, m, d, cap);
            var own := ReadersOwn(profile, Data(m), d.uid);
            if c.slot != PresentActive then
              after == Failing(c, cap) && Refuses(cap, r, m, 0x80, CardStatus(c.slot), 0x05)
            else if own.Some? then after == c && Says(cap, r, m, 0x80, 0, false, 0, 0, own.value)
            else
              match d.answer
              case Answer(data) => after == Given(c, Data(m), true) && Says(cap, r, m, 0x80, 0, false, 0, 0, data)
              case Failed(f) =>
                && after == Failing(Given(c, Data(m), false).(slot := PresentInactive), cap)
                && Refuses(cap, r, m, 0x80, 1, ErrorCode(f))
  {
    hide Dispatched, Reply, FailedStatus, Says, Whole, ParseHeader, FromLe32, Unknown, PoweredOn, PoweredOff,
      ParametersReply, SetContact, SetSerial, Reset, Escaped, Secured, LocalAnswer, Transmitted, ReadersOwn, Given,
      Data;
    WholeIsDispatched(profile, c, m, d, cap, 0x6F);
    WholeHasHeader(m, 0x6F);
    DispatchedIs(profile, c, ParseHeader(m).value, Data(m), d, cap);
    LocalAnswerIs(profile, Data(m), d);
    TransmittedIs(c, Data(m), d.answer);
    var own := ReadersOwn(profile, Data(m), d.uid);
    ReplySays(cap, 0x80, m, CardStatus(c.slot), true, 0x05, 0, []);
    if own.Some? { ReplySays(cap, 0x80, m, 0, false, 0, 0, own.value); }
    match d.answer
    case Answer(data) => ReplySays(cap, 0x80, m, 0, false, 0, 0, data);
    case Failed(f) => ReplySays(cap, 0x80, m, 1, true, ErrorCode(f), 0, []);
  }

  lemma ContactExchangeIs(c: Core, profile: Profile, h: Header, apdu: seq<byte>, d: Driver, cap: u32)
    requires profile.contact
    ensures Exchanged(profile, c, h, apdu, d, cap) ==
              if c.slot != PresentActive then (c, Reply(cap, 0x81, h, CardStatus(c.slot), true, 0xFE, 0, []))
              else if |apdu| > 261 then (c, Reply(cap, 0x81, h, 0, true, 0x07, 0, []))
              else if Pps(apdu) then (c, Reply(cap, 0x80, h, 0, false, 0, 0, apdu))
              else
                match d.answer
                case Answer(data) => (Given(c, apdu, true), Reply(cap, 0x80, h, 0, false, 0, 0, data))
                case Failed(f) => (Given(c, apdu, false), Reply(cap, 0x80, h, 0, true, ErrorCode(f), 0, []))
  {
    hide Reply, LocalAnswer, Transmitted, Given, Pps;
    LocalAnswerIs(profile, apdu, d);
    TransmittedIs(c, apdu, d.answer);
  }

  lemma ContactXfrTold(profile: Profile, c: Core, m: seq<byte>, d: Driver, cap: u32)
    requires Whole(m, 0x6F) && profile.contact
    ensures var (after, r) := Processed(profile, c, m, d, cap);
            if c.slot != PresentActive then
              after == Failing(c, cap) && Refuses(cap, r, m, 0x81, CardStatus(c.slot), 0xFE)
            else if |Data(m)| > 261 then after == Failing(c, cap) && Refuses(cap, r, m, 0x81, 0, 0x07)
            else if Pps(Data(m)) then after == c && Says(cap, r, m, 0x80, 0, false, 0, 0, Data(m))
            else
              match d.answer
              case Answer(data) => after == Given(c, Data(m), true) && Says(cap, r, m, 0x80, 0, false, 0, 0, data)
              case Failed(f) =>
                after == Failing(Given(c, Data(m), false), cap) && Refuses(cap, r, m, 0x80, 0, ErrorCode(f))
  {
    hide Dispatched, Reply, FailedStatus, Says, Whole, ParseHeader, FromLe32, Unknown, PoweredOn, PoweredOff, Exchanged,
      ParametersReply, SetContact, SetSerial, Reset, Escaped, Secured, Given, Pps, Data, Failing, SlotStatus;
    WholeIsDispatched(profile, c, m, d, cap, 0x6F);
    WholeHasHeader(m, 0x6F);
    DispatchedIs(profile, c, ParseHeader(m).value, Data(m), d, cap);
    ContactExchangeIs(c, profile, ParseHeader(m).value, Data(m), d, cap);
    FailingBelow(c, cap);
    FailingBelow(Given(c, Data(m), false), cap);
    ReplySays(cap, 0x81, m, CardStatus(c.slot), true, 0xFE, 0, []);
    ReplySays(cap, 0x81, m, 0, true, 0x07, 0, []);
    ReplySays(cap, 0x80, m, 0, false, 0, 0, Data(m));
    match d.answer
    case Answer(data) => ReplySays(cap, 0x80, m, 0, false, 0, 0, data);
    case Failed(f) => ReplySays(cap, 0x80, m, 0, true, ErrorCode(f), 0, []);
  }

  // ---- Parameters ----

  // The block a contactless reader reports: what was accepted for T=1, else its defaults.
  function SerialBlock(c: Core): seq<byte> {
    if c.protocol == 0 then [0x11, 0x00, 0x00, 0x00, 0x00]
    else if c.protocol == 1 && c.hostParams.Some? && c.hostParams.value.protocol == 1 then c.hostParams.value.raw
    else [0x11, 0x00, 0x00, 0x03, 0x00, 0x20, 0x00]
  }

  // The block of an answer to reset: TA1 or its default, checksum bit, guard time, waiting
  // times, and the size, of which 255 is not one.
  function ResetBlock(p: Atr.AtrParams, protocol: byte): seq<byte> {
    var head: byte := if p.hasTa1 then p.ta1 else 0x11;
    if protocol != 1 then [head, 0, p.guardTimeN, 0, 0]
    else [head, 0x10 * (p.edcType % 2), p.guardTimeN, 0x10 * (p.bwi % 0x10) + p.cwi % 0x10, 0,
          if p.ifsc == 255 then 254 else p.ifsc, 0]
  }

  function ContactBlock(c: Core): seq<byte> {
    if c.hostParams.Some? && c.hostParams.value.protocol == c.protocol then
      if c.protocol == 1 then c.hostParams.value.raw else c.hostParams.value.raw[..5]
    else ResetBlock(c.atr, c.protocol)
  }

  lemma ReportedIs(profile: Profile, c: Core)
    ensures Reported(profile, c) == if profile.contact then ContactBlock(c) else SerialBlock(c)
  {
    HighNibble(c.atr.bwi);
  }

  lemma HighNibble(n: nat)
    ensures n * 16 % 256 == 0x10 * (n % 0x10)
  {
    assert n * 16 == 256 * (n / 16) + 16 * (n % 16);
  }

  lemma ReportSays(profile: Profile, c: Core, m: seq<byte>, cap: u32)
    requires |m| >= 10
    ensures ParseHeader(m).Some?
    ensures var r := ParametersReply(profile, c, ParseHeader(m).value, cap);
            && Says(cap, r, m, 0x82, CardStatus(c.slot), false, 0, c.protocol,
                    if profile.contact then ContactBlock(c) else SerialBlock(c))
            && !FailedStatus(r)
  {
    hide Reply, Says, Reported, ContactBlock, SerialBlock, FailedStatus;
    ReportedIs(profile, c);
    ReplySays(cap, 0x82, m, CardStatus(c.slot), false, 0, c.protocol, Reported(profile, c));
  }

  lemma GetParametersTold(profile: Profile, c: Core, m: seq<byte>, d: Driver, cap: u32)
    requires Whole(m, 0x6C)
    ensures var (after, r) := Processed(profile, c, m, d, cap);
            && after == c
            && Says(cap, r, m, 0x82, CardStatus(c.slot), false, 0, c.protocol,
                    if profile.contact then ContactBlock(c) else SerialBlock(c))
  {
    hide Dispatched, Reply, FailedStatus, Says, Whole, ParseHeader, FromLe32, SlotStatus, PoweredOn, PoweredOff,
      Exchanged, ParametersReply, SetContact, SetSerial, Reset, Escaped, Secured, ContactBlock, SerialBlock;
    WholeIsDispatched(profile, c, m, d, cap, 0x6C);
    WholeHasHeader(m, 0x6C);
    DispatchedIs(profile, c, ParseHeader(m).value, Data(m), d, cap);
    ReportSays(profile, c, m, cap);
  }

  // A contactless reader takes protocol 0 or 1, keeps a block of seven bytes for T=1, and
  // reports what is now in force.
  lemma SerialSetTold(profile: Profile, c: Core, m: seq<byte>, d: Driver, cap: u32)
    requires Whole(m, 0x61) && !profile.contact
    ensures var (after, r) := Processed(profile, c, m, d, cap);
            if m[7] > 1 then after == Failing(c, cap) && Refuses(cap, r, m, 0x81, CardStatus(c.slot), 0)
            else
              var full := m[7] == 1 && |Data(m)| == 7;
              && after == c.(protocol := m[7], paramsAccepted := true,
                             hostParams := if full then Some(Negotiated(1, Data(m))) else c.hostParams)
              && Says(cap, r, m, 0x82, CardStatus(c.slot), false, 0, m[7], if full then Data(m) else SerialBlock(after))
  {
    hide Dispatched, Reply, FailedStatus, Says, Whole, ParseHeader, FromLe32, PoweredOn, PoweredOff, Exchanged,
      ParametersReply, SetContact, Reset, Escaped, Secured, ContactBlock;
    WholeIsDispatched(profile, c, m, d, cap, 0x61);
    WholeHasHeader(m, 0x61);
    DispatchedIs(profile, c, ParseHeader(m).value, Data(m), d, cap);
    ReplySays(cap, 0x81, m, CardStatus(c.slot), true, 0, 0, []);
    ReportSays(profile, SetSerial(profile, c, ParseHeader(m).value, Data(m), cap).0, m, cap);
  }

  // What a contact reader accepts: five bytes for T=0 with at most the convention bit set, or
  // seven for T=1 with at most the checksum bit, a size from 16 to 254 and no node address.
  predicate Legal(protocol: byte, block: seq<byte>) {
    || (protocol == 0 && |block| == 5 && (block[1] == 0x00 || block[1] == 0x80))
    || (protocol == 1 && |block| == 7 && block[1] <= 1 && 16 <= block[5] <= 254 && block[6] == 0)
  }

  lemma LegalIsAcceptable(protocol: byte, block: seq<byte>)
    ensures Acceptable(protocol, block) <==> Legal(protocol, block)
  {
  }

  lemma ContactSetTold(profile: Profile, c: Core, m: seq<byte>, d: Driver, cap: u32)
    requires Whole(m, 0x61) && profile.contact
    ensures var (after, r) := Processed(profile, c, m, d, cap);
            if |Data(m)| != 5 && |Data(m)| != 7 then
              after == Failing(c, cap) && Refuses(cap, r, m, 0x81, CardStatus(c.slot), 0x07)
            else if !Legal(m[7], Data(m)) then
              after == Failing(c, cap) && Refuses(cap, r, m, 0x82, CardStatus(c.slot), 0x08)
            else
              && after == c.(protocol := m[7], paramsAccepted := true, atr := after.atr,
                             hostParams := Some(Negotiated(m[7], if m[7] == 1 then Data(m) else Data(m) + [0, 0])))
              && Says(cap, r, m, 0x82, CardStatus(c.slot), false, 0, m[7], Data(m))
  {
    hide Dispatched, Reply, FailedStatus, Says, Whole, ParseHeader, FromLe32, PoweredOn, PoweredOff, Exchanged,
      ParametersReply, SetSerial, Reset, Escaped, Secured, SerialBlock, Acceptable, Applied, ResetBlock;
    WholeIsDispatched(profile, c, m, d, cap, 0x61);
    WholeHasHeader(m, 0x61);
    DispatchedIs(profile, c, ParseHeader(m).value, Data(m), d, cap);
    LegalIsAcceptable(m[7], Data(m));
    ReplySays(cap, 0x81, m, CardStatus(c.slot), true, 0x07, 0, []);
    ReplySays(cap, 0x82, m, CardStatus(c.slot), true, 0x08, 0, []);
    ReportSays(profile, SetContact(profile, c, ParseHeader(m).value, Data(m), cap).0, m, cap);
    if |Data(m)| == 5 { assert (Data(m) + [0, 0])[..5] == Data(m); }
  }

  lemma ResetParametersTold(profile: Profile, c: Core, m: seq<byte>, d: Driver, cap: u32)
    requires Whole(m, 0x6D)
    ensures var (after, r) := Processed(profile, c, m, d, cap);
            if profile.contact then
              && after == c.(protocol := 0, hostParams := None, atr := Atr.DEFAULT, paramsAccepted := true)
              && Says(cap, r, m, 0x82, CardStatus(c.slot), false, 0, 0, [0x11, 0, 0, 0, 0])
            else
              && after == c.(protocol := 1, paramsAccepted := true)
              && Says(cap, r, m, 0x82, CardStatus(c.slot), false, 0, 1, SerialBlock(after))
  {
    hide Dispatched, Reply, FailedStatus, Says, Whole, ParseHeader, FromLe32, PoweredOn, PoweredOff, Exchanged,
      ParametersReply, SetContact, SetSerial, Escaped, Secured;
    WholeIsDispatched(profile, c, m, d, cap, 0x6D);
    WholeHasHeader(m, 0x6D);
    DispatchedIs(profile, c, ParseHeader(m).value, Data(m), d, cap);
    ReportSays(profile, Reset(profile, c, ParseHeader(m).value, cap).0, m, cap);
  }

  // After an answer to reset a contact reader reports its protocol and what its interface bytes
  // mean, group by group.
  lemma AnswerToResetIsReported(profile: Profile, c: Core, on: seq<byte>, d: Driver, cap: u32, get: seq<byte>,
                                d2: Driver, cap2: u32, ts: byte, historical: Atr.Nibble, chain: Atr.Chain,
                                tail: seq<byte>)
    requires profile.contact && Whole(on, 0x62) && Data(on) == [] && d.cardPresent && on[7] != 2 && on[7] != 3
    requires d.powerOn.Some? && d.powerOn.value == Atr.Print(ts, historical, chain, tail)
    requires Whole(get, 0x6C)
    ensures var c1 := Processed(profile, c, on, d, cap).0;
            var p := Atr.Meaning(chain);
            Says(cap2, Processed(profile, c1, get, d2, cap2).1, get, 0x82, 0, false, 0, p.protocol,
                 ResetBlock(p, p.protocol))
  {
    hide Processed, Says, Whole, Data, Atr.Print, Atr.Interpret, Atr.AtrItems, Atr.Meaning, ResetBlock, Failing,
      Refuses;
    WholeHasHeader(on, 0x62);
    WholeHasHeader(get, 0x6C);
    ContactPowerOnTold(profile, c, on, d, cap);
    Atr.ParsePrinted(ts, historical, chain, tail);
    GetParametersTold(profile, Processed(profile, c, on, d, cap).0, get, d2, cap2);
  }

  // At start-up the slot is empty and nothing is latched, armed, counted or stored; a contact
  // reader is at T=0, a contactless one at T=1 with its default block.
  lemma StartTold(profile: Profile, reinits: u32, get: seq<byte>, d: Driver, cap: u32)
    requires Whole(get, 0x6C)
    ensures var c := Initial(profile, reinits);
            && c.slot == Absent && !c.present && c.hostParams == None && c.secure == Idle && c.calls == Nil
            && !c.cardReset && !c.paramsAccepted && !c.snapshot && !c.syncNotifications
            && c.diag == Diagnostics(0, 0, 0, 0, reinits, false, 0)
            && Says(cap, Processed(profile, c, get, d, cap).1, get, 0x82, 2, false, 0, if profile.contact then 0 else 1,
                    if profile.contact then [0x11, 0, 0, 0, 0] else [0x11, 0x00, 0x00, 0x03, 0x00, 0x20, 0x00])
  {
    hide Processed, Whole, Says;
    WholeHasHeader(get, 0x6C);
    GetParametersTold(profile, Initial(profile, reinits), get, d, cap);
  }

  // ---- Escapes ----

  // The diagnostics as a host reads them: seven little-endian words.
  predicate Counters(s: seq<byte>, d: Diagnostics) {
    && |s| == 28
    && FromLe32(s[0], s[1], s[2], s[3]) == d.tx && FromLe32(s[4], s[5], s[6], s[7]) == d.rx
    && FromLe32(s[8], s[9], s[10], s[11]) == d.naks && FromLe32(s[12], s[13], s[14], s[15]) == d.errors
    && FromLe32(s[16], s[17], s[18], s[19]) == d.reinits
    && FromLe32(s[20], s[21], s[22], s[23]) == (if d.cardPresent then 1 else 0)
    && FromLe32(s[24], s[25], s[26], s[27]) == d.uptime
  }

  lemma SerialisedCounts(d: Diagnostics)
    ensures Counters(Serialised(d), d)
  {
    hide FromLe32;
  }

  lemma EscapeTold(profile: Profile, c: Core, m: seq<byte>, d: Driver, cap: u32)
    requires Whole(m, 0x6B)
    ensures var (after, r) := Processed(profile, c, m, d, cap);
            var icc := CardStatus(c.slot);
            if [0xD0] <= Data(m) then
              after == c && exists s :: Counters(s, c.diag) && Says(cap, r, m, 0x83, icc, false, 0, 0, s)
            else if !profile.contact && [0xD1] <= Data(m) then
              after == c.(snapshot := true) && Says(cap, r, m, 0x83, icc, false, 0, 0, [0xD1])
            else if !profile.contact && [0x02] <= Data(m) then
              after == c && Says(cap, r, m, 0x83, icc, false, 0, 0, profile.firmware)
            else if !profile.contact && [0x01, 0x01, 0x01] <= Data(m) then
              after == c.(syncNotifications := true) && Says(cap, r, m, 0x83, icc, false, 0, 0, [0x01, 0x01, 0x01])
            else after == Failing(c, cap) && Refuses(cap, r, m, 0x83, icc, 0)
  {
    hide Dispatched, Reply, FailedStatus, Says, Whole, ParseHeader, FromLe32, PoweredOn, PoweredOff, Exchanged,
      ParametersReply, SetContact, SetSerial, Reset, Secured, Serialised, Counters;
    WholeIsDispatched(profile, c, m, d, cap, 0x6B);
    WholeHasHeader(m, 0x6B);
    DispatchedIs(profile, c, ParseHeader(m).value, Data(m), d, cap);
    SerialisedCounts(c.diag);
    var icc := CardStatus(c.slot);
    ReplySays(cap, 0x83, m, icc, false, 0, 0, Serialised(c.diag));
    ReplySays(cap, 0x83, m, icc, false, 0, 0, [0xD1]);
    ReplySays(cap, 0x83, m, icc, false, 0, 0, profile.firmware);
    ReplySays(cap, 0x83, m, icc, false, 0, 0, [0x01, 0x01, 0x01]);
    ReplySays(cap, 0x83, m, icc, true, 0, 0, []);
  }

  // ---- PIN entry ----

  // Without a pad, a card or an operation the reader refuses, each in its own way; a structure
  // it can read arms a session and is answered later.
  lemma SecureTold(profile: Profile, c: Core, m: seq<byte>, d: Driver, cap: u32)
    requires Whole(m, 0x69)
    ensures var (after, r) := Processed(profile, c, m, d, cap);
            var data, icc := Data(m), CardStatus(c.slot);
            if profile.pinPad && c.slot != PresentActive then
              after == Failing(c, cap) && Refuses(cap, r, m, 0x80, icc, 0xE0)
            else if profile.pinPad && [0x00] <= data && ParseVerify(data[1..]).Accepted? then
              after == c.(secure := PinVerify(m[6], ParseVerify(data[1..]).params)) && r == []
            else if profile.pinPad && [0x01] <= data && ParseModify(data[1..]).Accepted? then
              after == c.(secure := PinModify(m[6], ParseModify(data[1..]).params)) && r == []
            else if profile.pinPad && [0x01] <= data && ParseModify(data[1..]).Faulted? then after == c && r == []
            else after == Failing(c, cap) && Refuses(cap, r, m, if profile.contact then 0x80 else 0x81, icc, 0)
  {
    hide Dispatched, Reply, FailedStatus, Says, Whole, ParseHeader, FromLe32, PoweredOn, PoweredOff, Exchanged,
      ParametersReply, SetContact, SetSerial, Reset, Escaped, ParseModify;
    WholeIsDispatched(profile, c, m, d, cap, 0x69);
    WholeHasHeader(m, 0x69);
    DispatchedIs(profile, c, ParseHeader(m).value, Data(m), d, cap);
    var icc := CardStatus(c.slot);
    ReplySays(cap, 0x80, m, icc, true, 0xE0, 0, []);
    ReplySays(cap, 0x80, m, icc, true, 0, 0, []);
    ReplySays(cap, 0x81, m, icc, true, 0, 0, []);
    NothingFailed();
  }

  lemma NothingFailed()
    ensures !FailedStatus([])
  {
  }

  // How an entry that brought no PIN is told: cancelled, timed out, of the wrong length.
  function EntryError(result: PinResult): byte
    requires !result.Success?
  {
    match result case Cancelled => 0xEF case TimeOut => 0xF0 case InvalidLength => 0xFF
  }

  // Such an entry never reaches the card, whatever is on the pad: nothing is sent or counted,
  // the session is over, and the host is told what happened.
  lemma UnenteredPinIsNotSent(c: Core, seqno: byte, result: PinResult, pin: seq<byte>, newPin: seq<byte>,
                              p: VerifyParams, q: ModifyParams, d: Driver, cap: u32)
    requires !result.Success? && Digits(pin) && Digits(newPin)
    ensures var (after, r) := CompleteVerify(c, seqno, result, pin, p, d, cap);
            && after == c.(secure := Idle)
            && Tells(cap, r, 0, seqno, 0x80, CardStatus(c.slot), true, EntryError(result), 0, [])
    ensures CompleteModify(c, seqno, result, pin, newPin, q, d, cap) == CompleteVerify(c, seqno, result, pin, p, d, cap)
  {
    hide Reply, Tells, FailedStatus, BuildVerify, BuildModify, PinExchange;
    ReplyTells(cap, 0x80, Header(SECURE, 0, 0, seqno, 0), CardStatus(c.slot), true, EntryError(result), 0, []);
  }

  // The answer to a PIN the glue has verified itself carries what it is given.
  lemma PinAnswerTold(c: Core, seqno: byte, data: Buffer, cap: u32)
    ensures var (after, r) := CompletePin(c, seqno, Success, data, cap);
            after == c.(secure := Idle) && Tells(cap, r, 0, seqno, 0x80, CardStatus(c.slot), false, 0, 0, data)
  {
    hide Reply, Tells, FailedStatus;
    ReplyTells(cap, 0x80, Header(SECURE, 0, 0, seqno, 0), CardStatus(c.slot), false, 0, 0, data);
  }

  // And what is told after an exchange over the digits: the card's answer, a card that failed
  // as a cancelled entry, a length against the rules as an invalid one.
  lemma PinReplyTold(c: Core, seqno: byte, contacted: bool, answer: Exchange, cap: u32)
    ensures var r, icc := CcidCard.PinReply(c, seqno, contacted, answer, cap), CardStatus(c.slot);
            if !contacted then Tells(cap, r, 0, seqno, 0x80, icc, true, 0xFF, 0, [])
            else if answer.Answer? then Tells(cap, r, 0, seqno, 0x80, icc, false, 0, 0, answer.data)
            else Tells(cap, r, 0, seqno, 0x80, icc, true, 0xEF, 0, [])
  {
    hide Reply, Tells, FailedStatus;
    var h := Header(SECURE, 0, 0, seqno, 0);
    ReplyTells(cap, 0x80, h, CardStatus(c.slot), true, 0xFF, 0, []);
    ReplyTells(cap, 0x80, h, CardStatus(c.slot), true, 0xEF, 0, []);
    if answer.Answer? { ReplyTells(cap, 0x80, h, CardStatus(c.slot), false, 0, 0, answer.data); }
  }

  // ---- Polls ----

  // A card that a contactless reader had activated and now has lost the session of.
  predicate SessionLost(profile: Profile, c: Core, d: Driver) {
    !profile.contact && c.slot == PresentActive && !d.sessionActive && d.polledPresent
  }

  // While a session lasts a poll finds an active card and reports nothing. Otherwise presence
  // becomes what the driver sees; a report is that presence, made exactly if it has changed or
  // the session was lost, and a card reported is inactive, one that is gone leaves the slot
  // empty. A contact reader powers down behind a card that was taken out and ends a PIN entry.
  lemma PollTold(profile: Profile, c: Core, d: Driver)
    ensures var (after, report) := Polled(profile, c, d);
            && after.present == (d.sessionActive || d.polledPresent) == after.diag.cardPresent
            && (report.Some? <==> !d.sessionActive && (c.present != d.polledPresent || SessionLost(profile, c, d)))
            && (report.Some? ==> report.value == d.polledPresent)
            && after.slot == (if d.sessionActive then PresentActive else if report.None? then c.slot
                              else if d.polledPresent then PresentInactive else Absent)
            && after.cardReset == (c.cardReset || SessionLost(profile, c, d))
            && after.diag.reinits == (if d.sessionActive then c.diag.reinits else d.reinits)
            && (if profile.contact && report == Some(false) then
                  after.calls == Cons(PowerOff, c.calls) && after.secure == Idle
                else after.calls == c.calls && after.secure == c.secure)
            && c == after.(slot := c.slot, present := c.present, cardReset := c.cardReset, calls := c.calls,
                           secure := c.secure, diag := c.diag)
            && c.diag == after.diag.(cardPresent := c.diag.cardPresent, reinits := c.diag.reinits)
  {
  }

  // ---- After a power-off ----

  // What makes an inactive slot active: an IccPowerOn that succeeds, or a poll that finds a
  // session.
  predicate Activates(profile: Profile, c: Core, op: Op) {
    match op
    case Host(m, d, _) => PowersUp(profile, c, m, d)
    case Poll(d) => d.sessionActive
    case _ => false
  }

  predicate PowersUp(profile: Profile, c: Core, m: seq<byte>, d: Driver) {
    && Whole(m, 0x62) && d.powerOn.Some?
    && if profile.contact then Data(m) == [] && d.cardPresent && m[7] != 2 && m[7] != 3 else c.present
  }

  predicate NeverActivates(profile: Profile, c: Core, ops: List<Op>)
    decreases ops
  {
    match ops
    case Nil => true
    case Cons(op, rest) => !Activates(profile, c, op) && NeverActivates(profile, Step(profile, c, op), rest)
  }

  // How many APDUs the messages of the host brought to the card in a run.
  function HostTransmissions(profile: Profile, c: Core, ops: List<Op>): int
    decreases ops
  {
    match ops
    case Nil => 0
    case Cons(op, rest) =>
      var after := Step(profile, c, op);
      (if op.Host? then Transmissions(after.calls) - Transmissions(c.calls) else 0)
      + HostTransmissions(profile, after, rest)
  }

  lemma ExchangesStayDown(profile: Profile, c: Core, h: Header, apdu: seq<byte>, d: Driver, cap: u32)
    requires c.slot != PresentActive
    ensures Pipeline(profile, c, h, apdu, d, cap).0.slot != PresentActive
    ensures Exchanged(profile, c, h, apdu, d, cap).0.slot != PresentActive
    ensures PoweredOff(profile, c, h, cap).0.slot != PresentActive
  {
    hide Reply, SlotStatus, LocalAnswer;
  }

  lemma OthersStayDown(profile: Profile, c: Core, h: Header, payload: seq<byte>, cap: u32)
    ensures Escaped(profile, c, h, payload, cap).0.slot == Secured(profile, c, h, payload, cap).0.slot == c.slot
  {
    hide Reply, SlotStatus, Armed, Serialised, SecureRefused;
  }

  lemma ParametersStayDown(profile: Profile, c: Core, h: Header, payload: seq<byte>, cap: u32)
    ensures profile.contact ==> SetContact(profile, c, h, payload, cap).0.slot == c.slot
    ensures !profile.contact ==> SetSerial(profile, c, h, payload, cap).0.slot == c.slot
    ensures Reset(profile, c, h, cap).0.slot == c.slot
  {
    hide Reply, SlotStatus, ParametersReply, Applied, Padded, Acceptable;
  }

  lemma PowerOnStaysDown(profile: Profile, c: Core, m: seq<byte>, d: Driver, cap: u32)
    requires c.slot != PresentActive && Whole(m, 0x62) && !PowersUp(profile, c, m, d)
    ensures Processed(profile, c, m, d, cap).0.slot != PresentActive
  {
    hide Processed, Whole, Says, Data, Atr.Interpret, Atr.AtrItems;
    WholeHasHeader(m, 0x62);
    if profile.contact {
      ContactPowerOnTold(profile, c, m, d, cap);
    } else {
      SerialPowerOnTold(profile, c, m, d, cap);
    }
  }

  lemma MessageStaysDown(profile: Profile, c: Core, m: seq<byte>, d: Driver, cap: u32)
    requires c.slot != PresentActive && !PowersUp(profile, c, m, d)
    ensures Processed(profile, c, m, d, cap).0.slot != PresentActive
  {
    hide Dispatched, Processed, PowersUp, FailedStatus, PoweredOn, PoweredOff, Exchanged, ParametersReply, SetContact,
      SetSerial, Reset, Escaped, Secured, SlotStatus, Unknown, Pipeline, GemPc.PayloadLength, FromLe32;
    ProcessedIs(profile, c, m, d, cap);
    WholeIsComplete(m);
    if Whole(m, 0x62) {
      PowerOnStaysDown(profile, c, m, d, cap);
    } else if Complete(m) {
      var h, payload := ParseHeader(m).value, Payload(m);
      DispatchedIs(profile, c, h, payload, d, cap);
      ExchangesStayDown(profile, c, h, payload, d, cap);
      OthersStayDown(profile, c, h, payload, cap);
      ParametersStayDown(profile, c, h, payload, cap);
    }
  }

  lemma WholeIsComplete(m: seq<byte>)
    ensures Whole(m, 0x62) <==> Complete(m) && ParseHeader(m).value.kind == 0x62
  {
    hide FromLe32;
  }

  // An operation that does not activate the slot leaves it down, and a message sends nothing.
  lemma StepStaysDown(profile: Profile, c: Core, op: Op)
    requires c.slot != PresentActive && !Activates(profile, c, op)
    ensures var after := Step(profile, c, op);
            && after.slot != PresentActive
            && (op.Host? ==> Transmissions(after.calls) == Transmissions(c.calls))
  {
    hide Processed, Pipeline, PowersUp, CcidCard.Relayed, ParseHeader, CompletePin, BuildVerify, BuildModify, Ascii;
    match op
    case Host(m, d, cap) =>
      MessageStaysDown(profile, c, m, d, cap);
      CcidCard.CardReached(profile, c, m, d, cap);
      NotRelayed(profile, c, m, d);
    case Poll(d) => PollTold(profile, c, d);
    case RelayApdu(h, apdu, d, cap) => ExchangesStayDown(profile, c, h, apdu, d, cap);
    case VerifyDone(seqno, result, _, _, _, cap) => PinStaysDown(c, seqno, cap);
    case ModifyDone(seqno, result, _, _, _, _, cap) => PinStaysDown(c, seqno, cap);
    case _ =>
  }

  lemma NotRelayed(profile: Profile, c: Core, m: seq<byte>, d: Driver)
    requires c.slot != PresentActive
    ensures var call := CcidCard.Reaches(profile, c, m, d); call.Some? ==> !call.value.Transmit?
  {
    hide ParseHeader, PowerOnRefusal;
  }

  lemma PinStaysDown(c: Core, seqno: byte, cap: u32)
    ensures forall sent: Core, result, data: Buffer :: CompletePin(sent, seqno, result, data, cap).0.slot == sent.slot
  {
  }

  lemma {:induction false} RunStaysDown(profile: Profile, c: Core, ops: List<Op>)
    requires c.slot != PresentActive && NeverActivates(profile, c, ops)
    ensures Run(profile, c, ops).slot != PresentActive && HostTransmissions(profile, c, ops) == 0
    decreases ops
  {
    hide Step, Activates, Transmissions;
    match ops
    case Nil =>
    case Cons(op, rest) =>
      StepStaysDown(profile, c, op);
      RunStaysDown(profile, Step(profile, c, op), rest);
  }

  // From a power-off until an IccPowerOn succeeds or a poll finds a session, whatever else
  // happens: the slot stays inactive and no message of the host brings an APDU to the card.
  lemma PowerOffHolds(profile: Profile, c: Core, off: seq<byte>, d: Driver, cap: u32, ops: List<Op>)
    requires Whole(off, 0x63) && NeverActivates(profile, Processed(profile, c, off, d, cap).0, ops)
    ensures var down := Processed(profile, c, off, d, cap).0;
            Run(profile, down, ops).slot != PresentActive && HostTransmissions(profile, down, ops) == 0
  {
    hide Processed, Whole, Says, NeverActivates, Run, HostTransmissions;
    WholeHasHeader(off, 0x63);
    PowerOffTold(profile, c, off, d, cap);
    RunStaysDown(profile, Processed(profile, c, off, d, cap).0, ops);
  }
}
