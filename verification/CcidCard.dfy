/** When the handler core reaches the card, with what, and what comes of it. */
module CcidCard {
  import opened Bytes
  import opened SecurePin
  import opened CcidCore
  import opened CcidRuns
  import opened CcidHost
  import GemPc

  // ---- Commands that reach the card ----

  // The one thing a host message may ask of the card.
  function Reaches(profile: Profile, c: Core, m: seq<byte>, d: Driver): Option<Call> {
    if !Complete(m) then None
    else
      var h := ParseHeader(m).value;
      if h.kind == ICC_POWER_ON && PowerOnRefusal(profile, c, h, d).None? then Some(PowerOn)
      else if h.kind == ICC_POWER_OFF then Some(PowerOff)
      else if h.kind == XFR_BLOCK && Relayed(profile, c, Payload(m), d) then Some(Transmit(Payload(m)))
      else None
  }

  // An APDU goes to the card only through an active slot, and only if the reader has no
  // answer of its own; the contact profile also holds back what is longer than a short APDU.
  predicate Relayed(profile: Profile, c: Core, apdu: seq<byte>, d: Driver) {
    && c.slot == PresentActive
    && LocalAnswer(profile, apdu, d).None?
    && (profile.contact ==> |apdu| <= 261)
  }

  function Log(calls: List<Call>, call: Option<Call>): List<Call> {
    if call.Some? then Cons(call.value, calls) else calls
  }

  predicate Logs(c: Core, call: Option<Call>, after: Core) {
    && after.calls == Log(c.calls, call)
    && after.diag.tx == (if call.Some? && call.value.Transmit? then Saturated(c.diag.tx) else c.diag.tx)
  }

  lemma ExchangeLogs(profile: Profile, c: Core, h: Header, apdu: seq<byte>, d: Driver, cap: u32)
    ensures Logs(c, if Relayed(profile, c, apdu, d) then Some(Transmit(apdu)) else None,
                 Exchanged(profile, c, h, apdu, d, cap).0)
  {
    hide Reply, SlotStatus, LocalAnswer;
  }

  lemma PowerLogs(profile: Profile, c: Core, h: Header, d: Driver, cap: u32)
    ensures Logs(c, if PowerOnRefusal(profile, c, h, d).None? then Some(PowerOn) else None,
                 PoweredOn(profile, c, h, d, cap).0)
    ensures Logs(c, Some(PowerOff), PoweredOff(profile, c, h, cap).0)
  {
    hide Reply, SlotStatus, PowerOnRefusal, IccStatus;
  }

  lemma OthersLogNothing(profile: Profile, c: Core, h: Header, payload: seq<byte>, cap: u32)
    ensures Logs(c, None, Escaped(profile, c, h, payload, cap).0) &&
            Logs(c, None, Secured(profile, c, h, payload, cap).0)
  {
    hide Reply, SlotStatus, IccStatus, Serialised, SecureRefused, Armed;
  }

  lemma ParametersLogNothing(profile: Profile, c: Core, h: Header, payload: seq<byte>, cap: u32)
    ensures profile.contact ==> Logs(c, None, SetContact(profile, c, h, payload, cap).0)
    ensures !profile.contact ==> Logs(c, None, SetSerial(profile, c, h, payload, cap).0)
    ensures Logs(c, None, Reset(profile, c, h, cap).0)
  {
    hide Reply, SlotStatus, IccStatus, ParametersReply, Applied, Padded, FieldRules;
  }

  lemma DispatchLogs(profile: Profile, c: Core, m: seq<byte>, d: Driver, cap: u32)
    requires Complete(m)
    ensures Logs(c, Reaches(profile, c, m, d), Dispatched(profile, c, ParseHeader(m).value, Payload(m), d, cap).0)
  {
    hide Dispatched, Logs, PoweredOn, PoweredOff, Exchanged, ParametersReply, SetContact, SetSerial, Reset, Escaped,
      Secured, SlotStatus, IccStatus, Relayed, PowerOnRefusal, ParseHeader, Unknown;
    var h, payload := ParseHeader(m).value, Payload(m);
    DispatchedIs(profile, c, h, payload, d, cap);
    NothingLogged(c);
    ExchangeLogs(profile, c, h, payload, d, cap);
    PowerLogs(profile, c, h, d, cap);
    OthersLogNothing(profile, c, h, payload, cap);
    ParametersLogNothing(profile, c, h, payload, cap);
  }

  lemma NothingLogged(c: Core)
    ensures Logs(c, None, c)
  {
  }

  // One message reaches the card with exactly what it says, or not at all.
  lemma CardReached(profile: Profile, c: Core, m: seq<byte>, d: Driver, cap: u32)
    ensures Logs(c, Reaches(profile, c, m, d), Processed(profile, c, m, d, cap).0)
  {
    hide Processed, Dispatched, Relayed, PowerOnRefusal, ParseHeader, FailedStatus, SlotStatus, IccStatus;
    ProcessedIs(profile, c, m, d, cap);
    if Complete(m) { DispatchLogs(profile, c, m, d, cap); }
  }

  lemma NotFailed(cap: u32, kind: byte, h: Header, icc: byte, payload: seq<byte>)
    requires icc < 3
    ensures !FailedStatus(Reply(cap, kind, h, icc, false, 0, 0, payload))
  {
    hide GemPc.Bulk, GemPc.PayloadLength;
    if 10 + |payload| <= cap { ReplyIs(cap, kind, h, icc, false, 0, 0, payload); }
  }

  // What the card answers is what the host gets; a failed exchange costs the serial profile
  // its active slot and the contact profile nothing.
  lemma CardAnswers(profile: Profile, c: Core, m: seq<byte>, d: Driver, cap: u32)
    requires Commands(m, XFR_BLOCK) && Relayed(profile, c, Payload(m), d)
    ensures var (after, r) := Processed(profile, c, m, d, cap);
            var h := ParseHeader(m).value;
            match d.answer
            case Answer(data) =>
              r == Reply(cap, DATA_BLOCK, h, 0, false, 0, 0, data) && after == Transmitted(c, Payload(m), d.answer)
            case Failed(f) =>
              && after.slot == (if profile.contact then PresentActive else PresentInactive)
              && r == Reply(cap, DATA_BLOCK, h, IccStatus(after.slot), true, BError(f), 0, [])
  {
    hide Dispatched, ParseHeader, LocalAnswer, SlotStatus, BError, Reply, FailedStatus;
    ProcessedIs(profile, c, m, d, cap);
    DispatchedIs(profile, c, ParseHeader(m).value, Payload(m), d, cap);
    if d.answer.Answer? { NotFailed(cap, DATA_BLOCK, ParseHeader(m).value, 0, d.answer.data); }
  }

  // ---- Silence ----

  // Whether a message arms a PIN session, whose answer comes later.
  predicate Arms(profile: Profile, c: Core, m: seq<byte>) {
    && Commands(m, SECURE) && profile.pinPad && c.slot == PresentActive
    && Payload(m) != [] && Armed(profile, c, ParseHeader(m).value, Payload(m)).Some?
  }

  // How long a parameter block of a protocol is.
  function BlockLength(profile: Profile, protocol: byte): nat {
    if protocol == 1 || (!profile.contact && protocol != 0) then 7 else 5
  }

  function ExchangeLength(profile: Profile, c: Core, apdu: seq<byte>, d: Driver): nat {
    if !c.slot.PresentActive? || (profile.contact && |apdu| > 261) then 0
    else
      var answered := LocalAnswer(profile, apdu, d);
      if answered.Some? then |answered.value| else if d.answer.Answer? then |d.answer.data| else 0
  }

  function EscapeLength(profile: Profile, payload: seq<byte>): nat {
    if payload != [] && payload[0] == 0xD0 then 28
    else if profile.contact || payload == [] then 0
    else if payload[0] == 0xD1 then 1
    else if payload[0] == 0x02 then |profile.firmware|
    else if [1, 1, 1] <= payload then 3
    else 0
  }

  function SetLength(profile: Profile, requested: byte, payload: seq<byte>): nat {
    if profile.contact then if Acceptable(requested, payload) then |payload| else 0
    else if requested > 1 then 0 else BlockLength(profile, requested)
  }

  // How much a message has to be told, beyond the header: the answer to reset, the card's or
  // the reader's answer, a parameter block, or what an escape asks for.
  function Due(profile: Profile, c: Core, m: seq<byte>, d: Driver): nat {
    if !Complete(m) then 0
    else
      var h, payload := ParseHeader(m).value, Payload(m);
      if h.kind == ICC_POWER_ON then if PowersOn(profile, c, h, d) then |d.powerOn.value| else 0
      else if h.kind == XFR_BLOCK then ExchangeLength(profile, c, payload, d)
      else if h.kind == GET_PARAMETERS then BlockLength(profile, c.protocol)
      else if h.kind == SET_PARAMETERS then SetLength(profile, h.specific, payload)
      else if h.kind == RESET_PARAMETERS then BlockLength(profile, if profile.contact then 0 else 1)
      else if h.kind == ESCAPE then EscapeLength(profile, payload)
      else 0
  }

  lemma ReportedLength(profile: Profile, c: Core)
    ensures |Reported(profile, c)| == BlockLength(profile, c.protocol)
  {
  }

  lemma ReportSilent(profile: Profile, c: Core, h: Header, cap: u32)
    ensures ParametersReply(profile, c, h, cap) == [] <==> 10 + BlockLength(profile, c.protocol) > cap
  {
    hide Reply, IccStatus, Reported, BlockLength;
    ReportedLength(profile, c);
  }

  lemma ExchangeSilent(profile: Profile, c: Core, h: Header, apdu: seq<byte>, d: Driver, cap: u32)
    ensures Exchanged(profile, c, h, apdu, d, cap).1 == [] <==> 10 + ExchangeLength(profile, c, apdu, d) > cap
  {
    hide Reply, LocalAnswer, IccStatus, BError, Transmitted;
  }

  lemma PowerSilent(profile: Profile, c: Core, h: Header, d: Driver, cap: u32)
    ensures PoweredOn(profile, c, h, d, cap).1 == [] <==>
              10 + (if PowersOn(profile, c, h, d) then |d.powerOn.value| else 0) > cap
    ensures PoweredOff(profile, c, h, cap).1 == [] <==> cap < 10
  {
    hide Reply, AfterPowerOn, PowerOnRefusal, IccStatus;
  }

  lemma SetSilent(profile: Profile, c: Core, h: Header, payload: seq<byte>, cap: u32)
    ensures profile.contact ==>
              (SetContact(profile, c, h, payload, cap).1 == [] <==> 10 + SetLength(profile, h.specific, payload) > cap)
    ensures !profile.contact ==>
              (SetSerial(profile, c, h, payload, cap).1 == [] <==> 10 + SetLength(profile, h.specific, payload) > cap)
    ensures Reset(profile, c, h, cap).1 == [] <==> 10 + BlockLength(profile, if profile.contact then 0 else 1) > cap
  {
    hide Reply, ParametersReply, IccStatus, Applied, Padded, FieldRules;
    ReportSilent(profile, SetContact(profile, c, h, payload, cap).0, h, cap);
    ReportSilent(profile, SetSerial(profile, c, h, payload, cap).0, h, cap);
    ReportSilent(profile, Reset(profile, c, h, cap).0, h, cap);
  }

  lemma SerialisedLength(d: Diagnostics)
    ensures |Serialised(d)| == 28
  {
  }

  lemma EscapeSilent(profile: Profile, c: Core, h: Header, payload: seq<byte>, cap: u32)
    ensures Escaped(profile, c, h, payload, cap).1 == [] <==> 10 + EscapeLength(profile, payload) > cap
  {
    hide Reply, IccStatus, Serialised;
    SerialisedLength(c.diag);
  }

  lemma SecureSilent(profile: Profile, c: Core, h: Header, payload: seq<byte>, cap: u32)
    ensures Secured(profile, c, h, payload, cap).1 == [] <==>
              cap < 10 ||
              (profile.pinPad && c.slot == PresentActive && payload != [] && Armed(profile, c, h, payload).Some?)
  {
    hide Reply, IccStatus, Armed;
  }

  lemma DispatchSilent(profile: Profile, c: Core, m: seq<byte>, d: Driver, cap: u32)
    requires Complete(m)
    ensures Dispatched(profile, c, ParseHeader(m).value, Payload(m), d, cap).1 == [] <==>
              Arms(profile, c, m) || 10 + Due(profile, c, m, d) > cap
  {
    hide Dispatched, Armed, PoweredOn, PoweredOff, Exchanged, ParametersReply, SetContact, SetSerial, Reset, Escaped,
      Secured, IccStatus, ParseHeader, Unknown, PowersOn, ExchangeLength, EscapeLength, SetLength, BlockLength;
    var h, payload := ParseHeader(m).value, Payload(m);
    DispatchedIs(profile, c, h, payload, d, cap);
    ExchangeSilent(profile, c, h, payload, d, cap);
    PowerSilent(profile, c, h, d, cap);
    SetSilent(profile, c, h, payload, cap);
    EscapeSilent(profile, c, h, payload, cap);
    SecureSilent(profile, c, h, payload, cap);
    ReportSilent(profile, c, h, cap);
  }

  // For every response buffer: a host is left without an answer exactly if its message has no
  // header, has armed a PIN session, or is due more than the buffer has room for.
  lemma SilenceIsExact(profile: Profile, c: Core, m: seq<byte>, d: Driver, cap: u32)
    ensures Processed(profile, c, m, d, cap).1 == [] <==>
              |m| < 10 || Arms(profile, c, m) || 10 + Due(profile, c, m, d) > cap
  {
    hide Processed, Dispatched, Armed, IccStatus, FailedStatus, Due;
    ProcessedIs(profile, c, m, d, cap);
    if Complete(m) {
      DispatchSilent(profile, c, m, d, cap);
    } else {
      NothingDue(profile, c, m, d);
    }
  }

  lemma NothingDue(profile: Profile, c: Core, m: seq<byte>, d: Driver)
    requires !Complete(m)
    ensures Due(profile, c, m, d) == 0 && !Arms(profile, c, m)
  {
  }

  // The response buffer of the firmware.
  const RESPONSE_BUFFER: u32 := 271

  lemma BlocksAreShort(profile: Profile, protocol: byte)
    ensures BlockLength(profile, protocol) <= 7
  {
  }

  lemma SetIsShort(profile: Profile, requested: byte, payload: seq<byte>)
    ensures SetLength(profile, requested, payload) <= 7
  {
    hide FieldRules;
  }

  lemma EscapeIsShort(profile: Profile, payload: seq<byte>)
    ensures EscapeLength(profile, payload) <= 28 ||
            (EscapeLength(profile, payload) == |profile.firmware| && payload[0] == 0x02)
  {
  }

  // In that buffer only an answer to reset, a card or UID answer, or an identity string of more
  // than 261 bytes is swallowed.
  lemma SwallowedByTheBuffer(profile: Profile, c: Core, m: seq<byte>, d: Driver)
    requires |m| >= 10 && !Arms(profile, c, m) && Processed(profile, c, m, d, RESPONSE_BUFFER).1 == []
    ensures Due(profile, c, m, d) > 261
    ensures Commands(m, ICC_POWER_ON) || Commands(m, XFR_BLOCK) || (Commands(m, ESCAPE) && |profile.firmware| > 261)
  {
    hide Processed, ExchangeLength, EscapeLength, SetLength, BlockLength, PowersOn, ParseHeader, Arms;
    SilenceIsExact(profile, c, m, d, RESPONSE_BUFFER);
    var h, payload := ParseHeader(m).value, Payload(m);
    BlocksAreShort(profile, c.protocol);
    BlocksAreShort(profile, if profile.contact then 0 else 1);
    SetIsShort(profile, h.specific, payload);
    EscapeIsShort(profile, payload);
  }

  // A card's answer of 262 bytes: counted as sent and as answered, and the host hears nothing.
  lemma LongAnswerIsSwallowed(profile: Profile, c: Core, m: seq<byte>, d: Driver)
    requires Commands(m, XFR_BLOCK) && Relayed(profile, c, Payload(m), d) && d.answer.Answer? && |d.answer.data| == 262
    ensures Processed(profile, c, m, d, RESPONSE_BUFFER) == (Transmitted(c, Payload(m), d.answer), [])
    ensures !Arms(profile, c, m)
  {
    hide Processed, Relayed, Transmitted, ParseHeader, Payload;
    CardAnswers(profile, c, m, d, RESPONSE_BUFFER);
  }

  // ---- PIN exchanges ----

  // What is answered once a command was given to the card, or refused before.
  function PinReply(c: Core, seqno: byte, contacted: bool, answer: Exchange, cap: u32): seq<byte> {
    var h, icc := Header(SECURE, 0, 0, seqno, 0), IccStatus(c.slot);
    if !contacted then Reply(cap, DATA_BLOCK, h, icc, true, CMD_ABORTED, 0, [])
    else
      match answer
      case Answer(data) => Reply(cap, DATA_BLOCK, h, icc, false, 0, 0, data)
      case Failed(_) => Reply(cap, DATA_BLOCK, h, icc, true, PIN_CANCELLED, 0, [])
  }

  // The state after a PIN session ended by giving the card a command, or none.
  function PinAfter(c: Core, command: Option<seq<byte>>, answer: Exchange): Core {
    (if command.Some? then Transmitted(c, command.value, answer) else c).(secure := Idle)
  }

  lemma ExchangeExact(c: Core, seqno: byte, built: Built, command: Option<seq<byte>>, d: Driver, cap: u32)
    requires if command.None? then built.Refused?
             else built.Apdu? && |command.value| <= |built.bytes| && built.bytes[..|command.value|] == command.value
    ensures PinExchange(c, seqno, built, if command.Some? then |command.value| else 0, d, cap)
         == (PinAfter(c, command, d.answer), PinReply(c, seqno, command.Some?, d.answer, cap))
  {
    hide Reply, IccStatus;
  }

  lemma RefusedAnyLength(c: Core, seqno: byte, built: Built, n: nat, k: nat, d: Driver, cap: u32)
    requires built.Refused?
    ensures PinExchange(c, seqno, built, n, d, cap) == PinExchange(c, seqno, built, k, d, cap)
  {
  }

  // For every history of keys and every reference number: a PIN reported as entered reaches the
  // card if and only if its length rule holds and it fits, as the template header, Lc and the
  // ASCII of the digits left on the stack; counted once, and answered with what the card says.
  // Digits that do not fit, which only a number without a length rule lets through, end the run.
  lemma VerifyReachesCard(c: Core, seqno: byte, max: nat, keys: List<Key>, p: VerifyParams, d: Driver, cap: u32)
    ensures Digits(Entered(Cap(max), [], keys)) && |Entered(Cap(max), [], keys)| < 100
    ensures var pin := Entered(Cap(max), [], keys);
            var command := if LengthRule(p.head.p2, |pin|)
                           then Some(Command(p.head.cla, INS_VERIFY, p.head.p1, p.head.p2, Ascii(pin))) else None;
            CompleteVerify(c, seqno, Success, pin, p, d, cap)
              == if VerifyOverruns(p.head.p2, pin) then (c, [])
                 else (PinAfter(c, command, d.answer), PinReply(c, seqno, command.Some?, d.answer, cap))
  {
    hide Entered, BuildVerify, Command, LengthRule, PinAfter, PinReply, PinExchange, Digits, VerifyOverruns;
    assert Digits([]) by { NoDigits(); }
    EnteredIsDigits(Cap(max), [], keys);
    var pin := Entered(Cap(max), [], keys);
    AsciiOfDigits(pin);
    BuildVerifyExact(p.head.cla, p.head.p1, p.head.p2, pin);
    var built := BuildVerify(p.head.cla, p.head.p1, p.head.p2, Ascii(pin));
    CommandLength(p.head.cla, INS_VERIFY, p.head.p1, p.head.p2, Ascii(pin));
    if VerifyOverruns(p.head.p2, pin) {
      OverrunEnds(c, seqno, built, 5 + |pin|, d, cap);
    } else if LengthRule(p.head.p2, |pin|) {
      ExchangeExact(c, seqno, built, Some(Command(p.head.cla, INS_VERIFY, p.head.p1, p.head.p2, Ascii(pin))), d, cap);
    } else {
      ExchangeExact(c, seqno, built, None, d, cap);
      RefusedAnyLength(c, seqno, built, 0, 5 + |pin|, d, cap);
    }
  }

  lemma OverrunEnds(c: Core, seqno: byte, built: Built, n: nat, d: Driver, cap: u32)
    requires built.Overrun?
    ensures PinExchange(c, seqno, built, n, d, cap) == (c, [])
  {
  }

  lemma NoDigits()
    ensures Digits([])
  {
  }

  lemma CommandLength(cla: byte, ins: byte, p1: byte, p2: byte, data: seq<byte>)
    requires |data| < 256
    ensures |Command(cla, ins, p1, p2, data)| == 5 + |data|
  {
  }

  // The same for a change of PIN: old digits, then new.
  lemma ModifyReachesCard(c: Core, seqno: byte, max: nat, oldKeys: List<Key>, newKeys: List<Key>, p: ModifyParams,
                          d: Driver, cap: u32)
    ensures Digits(Entered(Cap(max), [], oldKeys)) && |Entered(Cap(max), [], oldKeys)| < 100
    ensures Digits(Entered(Cap(max), [], newKeys)) && |Entered(Cap(max), [], newKeys)| < 100
    ensures var oldPin, newPin := Entered(Cap(max), [], oldKeys), Entered(Cap(max), [], newKeys);
            var command := if LengthRule(p.head.p2, |oldPin|) && LengthRule(p.head.p2, |newPin|)
                           then Some(Command(p.head.cla, INS_CHANGE, p.head.p1, p.head.p2,
                                             Ascii(oldPin) + Ascii(newPin)))
                           else None;
            CompleteModify(c, seqno, Success, oldPin, newPin, p, d, cap)
              == if ModifyOverruns(p.head.p2, oldPin, newPin) then (c, [])
                 else (PinAfter(c, command, d.answer), PinReply(c, seqno, command.Some?, d.answer, cap))
  {
    hide Entered, BuildModify, Command, LengthRule, PinAfter, PinReply, PinExchange, Digits, ModifyOverruns;
    assert Digits([]) by { NoDigits(); }
    EnteredIsDigits(Cap(max), [], oldKeys);
    EnteredIsDigits(Cap(max), [], newKeys);
    var oldPin, newPin := Entered(Cap(max), [], oldKeys), Entered(Cap(max), [], newKeys);
    AsciiOfDigits(oldPin);
    AsciiOfDigits(newPin);
    BuildModifyExact(p.head.cla, p.head.p1, p.head.p2, oldPin, newPin);
    var built := BuildModify(p.head.cla, p.head.p1, p.head.p2, Ascii(oldPin), Ascii(newPin));
    var data := Ascii(oldPin) + Ascii(newPin);
    CommandLength(p.head.cla, INS_CHANGE, p.head.p1, p.head.p2, data);
    if ModifyOverruns(p.head.p2, oldPin, newPin) {
      OverrunEnds(c, seqno, built, 5 + |oldPin| + |newPin|, d, cap);
    } else if LengthRule(p.head.p2, |oldPin|) && LengthRule(p.head.p2, |newPin|) {
      ExchangeExact(c, seqno, built, Some(Command(p.head.cla, INS_CHANGE, p.head.p1, p.head.p2, data)), d, cap);
    } else {
      ExchangeExact(c, seqno, built, None, d, cap);
      RefusedAnyLength(c, seqno, built, 0, 5 + |oldPin| + |newPin|, d, cap);
    }
  }
}
