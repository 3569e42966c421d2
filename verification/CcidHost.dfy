/** What a host sees of the handler core: replies that fit their commands, parameters that
    stay put, polls that settle, and a card that is reached for no other reason. */
module CcidHost {
  import opened Bytes
  import opened SecurePin
  import opened CcidCore
  import opened CcidRuns
  import Atr
  import GemPc

  predicate Complete(m: seq<byte>) {
    ParseHeader(m).Some? && |m| >= 10 + ParseHeader(m).value.length
  }

  // A complete command of a kind.
  predicate Commands(m: seq<byte>, kind: byte) {
    Complete(m) && ParseHeader(m).value.kind == kind
  }

  function Payload(m: seq<byte>): seq<byte>
    requires Complete(m)
  {
    m[10..10 + ParseHeader(m).value.length]
  }

  // ---- Negotiated parameters persist on a contact reader ----

  predicate PowersOn(profile: Profile, c: Core, h: Header, d: Driver) {
    PowerOnRefusal(profile, c, h, d).None? && d.powerOn.Some?
  }

  // What ends a negotiation: a power-on that succeeds, a power-off, a reset, parameters
  // that are taken, or the glue choosing a protocol of its own.
  predicate Renegotiates(profile: Profile, c: Core, op: Op) {
    match op
    case Host(m, d, _) =>
      && Complete(m)
      && var h := ParseHeader(m).value;
         || h.kind == ICC_POWER_OFF
         || h.kind == RESET_PARAMETERS
         || (h.kind == ICC_POWER_ON && PowersOn(profile, c, h, d))
         || (h.kind == SET_PARAMETERS && Acceptable(h.specific, Payload(m)))
    case ChooseProtocol(_) => true
    case _ => false
  }

  predicate Quiet(profile: Profile, c: Core, ops: List<Op>)
    decreases ops
  {
    match ops
    case Nil => true
    case Cons(op, rest) => !Renegotiates(profile, c, op) && Quiet(profile, Step(profile, c, op), rest)
  }

  predicate SameParameters(c: Core, d: Core) {
    c.hostParams == d.hostParams && c.protocol == d.protocol && c.atr == d.atr
  }

  lemma ExchangesKeep(profile: Profile, c: Core, h: Header, payload: seq<byte>, d: Driver, cap: u32)
    ensures SameParameters(c, Pipeline(profile, c, h, payload, d, cap).0)
    ensures SameParameters(c, Exchanged(profile, c, h, payload, d, cap).0)
  {
    hide Reply, SlotStatus, LocalAnswer;
  }

  lemma EscapesKeep(profile: Profile, c: Core, h: Header, payload: seq<byte>, cap: u32)
    ensures SameParameters(c, Escaped(profile, c, h, payload, cap).0)
    ensures SameParameters(c, Secured(profile, c, h, payload, cap).0)
  {
    hide Reply, SlotStatus, Serialised, SecureRefused, Armed;
  }

  lemma PowerOnKeeps(profile: Profile, c: Core, h: Header, d: Driver, cap: u32)
    requires !PowersOn(profile, c, h, d)
    ensures SameParameters(c, PoweredOn(profile, c, h, d, cap).0)
  {
    hide PowerOnRefusal, SlotStatus, Reply, AfterPowerOn;
  }

  lemma RefusedSetKeeps(profile: Profile, c: Core, h: Header, payload: seq<byte>, cap: u32)
    requires !Acceptable(h.specific, payload)
    ensures SetContact(profile, c, h, payload, cap).0 == c
  {
    hide Acceptable, SlotStatus, Reply;
  }

  lemma DispatchKeeps(profile: Profile, c: Core, m: seq<byte>, d: Driver, cap: u32)
    requires profile.contact && Complete(m) && !Renegotiates(profile, c, Host(m, d, cap))
    ensures SameParameters(c, Dispatched(profile, c, ParseHeader(m).value, Payload(m), d, cap).0)
  {
    hide Dispatched, PowersOn, PoweredOn, PoweredOff, Exchanged, ParametersReply, SetContact, SetSerial, Reset,
      Escaped, Secured, SlotStatus, IccStatus, Acceptable, ParseHeader;
    var h, payload := ParseHeader(m).value, Payload(m);
    DispatchedIs(profile, c, h, payload, d, cap);
    if h.kind == ICC_POWER_ON { PowerOnKeeps(profile, c, h, d, cap); }
    if h.kind == SET_PARAMETERS { RefusedSetKeeps(profile, c, h, payload, cap); }
    ExchangesKeep(profile, c, h, payload, d, cap);
    EscapesKeep(profile, c, h, payload, cap);
  }

  lemma HostKeeps(profile: Profile, c: Core, m: seq<byte>, d: Driver, cap: u32)
    requires profile.contact && !Renegotiates(profile, c, Host(m, d, cap))
    ensures SameParameters(c, Processed(profile, c, m, d, cap).0)
  {
    hide Processed, Dispatched, Renegotiates, SlotStatus, IccStatus, FailedStatus, ParseHeader;
    ProcessedIs(profile, c, m, d, cap);
    if Complete(m) { DispatchKeeps(profile, c, m, d, cap); }
  }

  lemma PinKeeps(c: Core, seqno: byte, result: PinResult, built: Built, length: nat, d: Driver, cap: u32)
    ensures SameParameters(c, CompletePin(c, seqno, result, [], cap).0)
    ensures SameParameters(c, PinExchange(c, seqno, built, length, d, cap).0)
  {
    hide Reply;
  }

  lemma PinDoneKeeps(profile: Profile, c: Core, op: Op)
    requires op.VerifyDone? || op.ModifyDone?
    ensures SameParameters(c, Step(profile, c, op))
  {
    hide CompletePin, PinExchange, BuildVerify, BuildModify, Ascii, SameParameters;
    match op
    case VerifyDone(seqno, result, pin, p, d, cap) =>
      PinKeeps(c, seqno, result, BuildVerify(p.head.cla, p.head.p1, p.head.p2, Ascii(pin)), 5 + |pin|, d, cap);
    case ModifyDone(seqno, result, oldPin, newPin, p, d, cap) =>
      PinKeeps(c, seqno, result, BuildModify(p.head.cla, p.head.p1, p.head.p2, Ascii(oldPin), Ascii(newPin)),
               5 + |oldPin| + |newPin|, d, cap);
  }

  lemma PollKeeps(profile: Profile, c: Core, d: Driver)
    ensures SameParameters(c, Polled(profile, c, d).0)
  {
  }

  lemma CountKeeps(c: Core, apdu: seq<byte>, answer: Exchange)
    ensures SameParameters(c, Transmitted(c, apdu, answer)) && SameParameters(c, CountError(c))
  {
  }

  lemma StepKeeps(profile: Profile, c: Core, op: Op)
    requires profile.contact && !Renegotiates(profile, c, op)
    ensures SameParameters(c, Step(profile, c, op))
  {
    hide Processed, Pipeline, Polled, Transmitted, CountError, CompleteVerify, CompleteModify;
    match op
    case Host(m, d, cap) => HostKeeps(profile, c, m, d, cap);
    case Poll(d) => PollKeeps(profile, c, d);
    case RelayApdu(h, apdu, d, cap) => ExchangesKeep(profile, c, h, apdu, d, cap);
    case VerifyDone(_, _, _, _, _, _) => PinDoneKeeps(profile, c, op);
    case ModifyDone(_, _, _, _, _, _, _) => PinDoneKeeps(profile, c, op);
    case TransmitCounted(apdu, d) => CountKeeps(c, apdu, d.answer);
    case RecordError => CountKeeps(c, [], Failed(Unclassified));
    case _ =>
  }

  lemma {:induction false} RunKeeps(profile: Profile, c: Core, ops: List<Op>)
    requires profile.contact && Quiet(profile, c, ops)
    ensures SameParameters(c, Run(profile, c, ops))
    decreases ops
  {
    hide Step, Renegotiates;
    match ops
    case Nil =>
    case Cons(op, rest) =>
      StepKeeps(profile, c, op);
      RunKeeps(profile, Step(profile, c, op), rest);
  }

  lemma TakenBlock(protocol: byte, payload: seq<byte>)
    requires Acceptable(protocol, payload)
    ensures Block(Negotiated(protocol, Padded(payload))) == payload
  {
    if |payload| == 5 { assert (payload + [0, 0])[..5] == payload; }
  }

  lemma SetTakes(profile: Profile, c: Core, m: seq<byte>, d: Driver, cap: u32)
    requires profile.contact && Commands(m, SET_PARAMETERS) && Acceptable(ParseHeader(m).value.specific, Payload(m))
    ensures var c1, p := Processed(profile, c, m, d, cap).0, ParseHeader(m).value.specific;
            c1.protocol == p && c1.hostParams == Some(Negotiated(p, Padded(Payload(m)))) && c1.paramsAccepted
  {
    hide Dispatched, FieldRules, Reply, ParametersReply, SlotStatus, FailedStatus, ParseHeader, Padded, Applied;
    ProcessedIs(profile, c, m, d, cap);
    DispatchedIs(profile, c, ParseHeader(m).value, Payload(m), d, cap);
  }

  lemma GetReports(profile: Profile, c: Core, m: seq<byte>, d: Driver, cap: u32)
    requires Commands(m, GET_PARAMETERS)
    ensures Processed(profile, c, m, d, cap).1 == ParametersReply(profile, c, ParseHeader(m).value, cap)
  {
    hide Dispatched, ParametersReply, SlotStatus, FailedStatus, ParseHeader, IccStatus;
    ProcessedIs(profile, c, m, d, cap);
    DispatchedIs(profile, c, ParseHeader(m).value, Payload(m), d, cap);
  }

  // After SetParameters is taken, every later GetParameters returns those bytes and that
  // protocol, whatever else happens, until something renegotiates.
  lemma ParametersPersist(profile: Profile, c: Core, setting: seq<byte>, d: Driver, cap: u32, ops: List<Op>,
                          getting: seq<byte>, d2: Driver, cap2: u32)
    requires profile.contact && Commands(setting, SET_PARAMETERS) && Commands(getting, GET_PARAMETERS)
    requires Acceptable(ParseHeader(setting).value.specific, Payload(setting))
    requires Quiet(profile, Processed(profile, c, setting, d, cap).0, ops)
    ensures var later := Run(profile, Processed(profile, c, setting, d, cap).0, ops);
            Processed(profile, later, getting, d2, cap2).1 ==
              Reply(cap2, PARAMETERS, ParseHeader(getting).value, IccStatus(later.slot), false, 0,
                    ParseHeader(setting).value.specific, Payload(setting))
  {
    hide Processed, Run, Quiet, Acceptable, Reply, ParseHeader, IccStatus, Padded, Block, Commands, AtrBlock;
    var taken := Processed(profile, c, setting, d, cap).0;
    var later := Run(profile, taken, ops);
    assert Complete(setting) && Complete(getting) by {
      CommandsAre(setting, SET_PARAMETERS);
      CommandsAre(getting, GET_PARAMETERS);
    }
    SetTakes(profile, c, setting, d, cap);
    RunKeeps(profile, taken, ops);
    GetReports(profile, later, getting, d2, cap2);
    TakenBlock(ParseHeader(setting).value.specific, Payload(setting));
  }

  lemma CommandsAre(m: seq<byte>, kind: byte)
    requires Commands(m, kind)
    ensures Complete(m) && ParseHeader(m).value.kind == kind
  {
  }

  // SetParameters that is not taken is answered FAILED and changes the error counter alone.
  lemma RefusedSetIsInert(profile: Profile, c: Core, m: seq<byte>, d: Driver, cap: u32)
    requires profile.contact && Commands(m, SET_PARAMETERS) && !Acceptable(ParseHeader(m).value.specific, Payload(m))
    ensures var (after, r) := Processed(profile, c, m, d, cap);
            if cap >= 10 then after == CountError(c) && FailedStatus(r) else after == c && r == []
  {
    hide Dispatched, Acceptable, ParametersReply, ParseHeader, IccStatus, GemPc.Bulk, GemPc.PayloadLength, Reply;
    ProcessedIs(profile, c, m, d, cap);
    if cap >= 10 {
      ReplyIs(cap, PARAMETERS, ParseHeader(m).value, IccStatus(c.slot), true, BAD_PARAMETER, 0, []);
      ReplyIs(cap, SLOT_STATUS, ParseHeader(m).value, IccStatus(c.slot), true, BAD_LENGTH, 0, []);
    }
    DispatchedIs(profile, c, ParseHeader(m).value, Payload(m), d, cap);
  }

  // What the reader reports is what it would take back, unless it comes from an answer to
  // reset that asks for a CRC, an IFSC below 16, or a protocol other than T=0 and T=1.
  lemma ReportedIsTakenBack(profile: Profile, c: Core)
    requires profile.contact && Coherent(c)
    ensures Acceptable(c.protocol, Reported(profile, c)) <==>
              || (c.hostParams.Some? && c.hostParams.value.protocol == c.protocol)
              || c.protocol == 0
              || (c.protocol == 1 && c.atr.edcType % 2 == 0 && c.atr.ifsc >= 16)
  {
    hide Decoded;
    if c.hostParams.Some? && c.hostParams.value.protocol == c.protocol {
      var n := c.hostParams.value;
      assert |Block(n)| == (if n.protocol == 1 then 7 else 5) && Block(n)[1] == n.raw[1];
    }
  }

  // An answer to reset that asks for a CRC is reported as a block the reader would refuse.
  lemma CrcBlockIsRefused(profile: Profile, c: Core)
    requires profile.contact && c.hostParams.None? && c.protocol == 1 && c.atr == Atr.DEFAULT.(edcType := 1)
    ensures !Acceptable(c.protocol, Reported(profile, c))
  {
    ReportedIsTakenBack(profile, c);
  }

  // ---- Polls settle ----

  // A second poll with the same answer reports nothing and changes nothing.
  lemma PollIsIdempotent(profile: Profile, c: Core, d: Driver)
    ensures var c1 := Polled(profile, c, d).0; Polled(profile, c1, d) == (c1, None)
  {
  }

  // The changes reported by polling again and again while the driver says the same.
  function PollTimes(profile: Profile, c: Core, d: Driver, n: nat): (Core, List<bool>)
    decreases n
  {
    if n == 0 then (c, Nil)
    else
      var (c1, change) := Polled(profile, c, d);
      var (last, later) := PollTimes(profile, c1, d, n - 1);
      (last, if change.Some? then Cons(change.value, later) else later)
  }

  // However often it is asked, a change is reported once and the state is that of one poll.
  lemma {:induction false} PollsSettle(profile: Profile, c: Core, d: Driver, n: nat)
    requires n > 0
    ensures PollTimes(profile, c, d, n) == PollTimes(profile, c, d, 1)
    decreases n
  {
    hide Polled;
    PollIsIdempotent(profile, c, d);
    if n > 1 { PollsSettle(profile, Polled(profile, c, d).0, d, n - 1); }
  }

  // ---- Replies fit their commands ----

  function ReplyKind(kind: byte): byte {
    if kind == ICC_POWER_ON || kind == XFR_BLOCK || kind == SECURE then DATA_BLOCK
    else if kind == GET_PARAMETERS || kind == SET_PARAMETERS || kind == RESET_PARAMETERS then PARAMETERS
    else if kind == ESCAPE then ESCAPE_REPLY
    else SLOT_STATUS
  }

  // A whole message of a fitting kind, for the same slot and sequence number; the card
  // status it carries is that of the slot, IccPowerOn excepted.
  predicate Answers(h: Header, slot: SlotState, cap: u32, r: seq<byte>) {
    && 10 <= |r| <= cap && GemPc.PayloadLength(r) == |r| - 10
    && (r[0] == ReplyKind(h.kind) || r[0] == SLOT_STATUS)
    && r[5] == h.slot && r[6] == h.seqno
    && (h.kind == ICC_POWER_ON || r[7] % 64 == IccStatus(slot))
  }

  predicate AnswersOrNothing(h: Header, cap: u32, out: (Core, seq<byte>)) {
    out.1 == [] || Answers(h, out.0.slot, cap, out.1)
  }

  lemma ReplyAnswers(cap: u32, kind: byte, h: Header, slot: SlotState, icc: byte, failed: bool, error: byte,
                     last: byte, payload: seq<byte>)
    requires icc < 3 && (kind == ReplyKind(h.kind) || kind == SLOT_STATUS)
    requires h.kind == ICC_POWER_ON || icc == IccStatus(slot)
    ensures var r := Reply(cap, kind, h, icc, failed, error, last, payload); r == [] || Answers(h, slot, cap, r)
  {
    hide Reply, GemPc.Bulk, GemPc.PayloadLength, ReplyKind;
    if 10 + |payload| <= cap { ReplyIs(cap, kind, h, icc, failed, error, last, payload); }
  }

  lemma StatusAnswers(cap: u32, h: Header, slot: SlotState, icc: byte, failed: bool, error: byte)
    requires icc < 3 && (h.kind == ICC_POWER_ON || icc == IccStatus(slot))
    ensures var r := SlotStatus(cap, h, icc, failed, error); r == [] || Answers(h, slot, cap, r)
  {
    hide Answers, Reply, IccStatus;
    ReplyAnswers(cap, SLOT_STATUS, h, slot, icc, failed, error, 0, []);
  }

  lemma PowerOnAnswers(profile: Profile, c: Core, h: Header, d: Driver, cap: u32)
    requires h.kind == ICC_POWER_ON
    ensures AnswersOrNothing(h, cap, PoweredOn(profile, c, h, d, cap))
  {
    hide Answers, Reply, PowerOnRefusal, SlotStatus, AfterPowerOn, IccStatus;
    var out := PoweredOn(profile, c, h, d, cap);
    var refusal := PowerOnRefusal(profile, c, h, d);
    if refusal.Some? {
      StatusAnswers(cap, h, out.0.slot, IccStatus(refusal.value.0), true, refusal.value.1);
    } else if d.powerOn.Some? {
      ReplyAnswers(cap, DATA_BLOCK, h, out.0.slot, 0, false, 0, 0, d.powerOn.value);
    } else {
      StatusAnswers(cap, h, out.0.slot, 1, true, if profile.contact then ICC_MUTE else HW_ERROR);
    }
  }

  lemma PowerOffAnswers(profile: Profile, c: Core, h: Header, cap: u32)
    requires h.kind == ICC_POWER_OFF
    ensures AnswersOrNothing(h, cap, PoweredOff(profile, c, h, cap))
  {
    hide Answers, SlotStatus;
    StatusAnswers(cap, h, PresentInactive, 1, false, 0);
  }

  lemma PipelineAnswers(profile: Profile, c: Core, h: Header, apdu: seq<byte>, d: Driver, cap: u32)
    requires h.kind == XFR_BLOCK && c.slot == PresentActive
    ensures AnswersOrNothing(h, cap, Pipeline(profile, c, h, apdu, d, cap))
  {
    hide Answers, Reply, LocalAnswer, BError;
    var out, answered := Pipeline(profile, c, h, apdu, d, cap), LocalAnswer(profile, apdu, d);
    if answered.Some? {
      ReplyAnswers(cap, DATA_BLOCK, h, out.0.slot, 0, false, 0, 0, answered.value);
    } else if d.answer.Answer? {
      ReplyAnswers(cap, DATA_BLOCK, h, out.0.slot, 0, false, 0, 0, d.answer.data);
    } else {
      ReplyAnswers(cap, DATA_BLOCK, h, out.0.slot, 1, true, BError(d.answer.failure), 0, []);
    }
  }

  lemma ContactAnswers(profile: Profile, c: Core, h: Header, apdu: seq<byte>, d: Driver, cap: u32)
    requires h.kind == XFR_BLOCK && c.slot == PresentActive
    ensures AnswersOrNothing(h, cap, ContactExchange(profile, c, h, apdu, d, cap))
  {
    hide Answers, Reply, LocalAnswer, BError, SlotStatus;
    var out, answered := ContactExchange(profile, c, h, apdu, d, cap), LocalAnswer(profile, apdu, d);
    if |apdu| > 261 {
      StatusAnswers(cap, h, c.slot, 0, true, BAD_LENGTH);
    } else if answered.Some? {
      ReplyAnswers(cap, DATA_BLOCK, h, out.0.slot, 0, false, 0, 0, answered.value);
    } else if d.answer.Answer? {
      ReplyAnswers(cap, DATA_BLOCK, h, out.0.slot, 0, false, 0, 0, d.answer.data);
    } else {
      ReplyAnswers(cap, DATA_BLOCK, h, out.0.slot, 0, true, BError(d.answer.failure), 0, []);
    }
  }

  lemma ExchangeAnswers(profile: Profile, c: Core, h: Header, apdu: seq<byte>, d: Driver, cap: u32)
    requires h.kind == XFR_BLOCK
    ensures AnswersOrNothing(h, cap, Exchanged(profile, c, h, apdu, d, cap))
  {
    hide Answers, Reply, Pipeline, ContactExchange, SlotStatus, IccStatus;
    if c.slot.PresentActive? {
      PipelineAnswers(profile, c, h, apdu, d, cap);
      ContactAnswers(profile, c, h, apdu, d, cap);
    } else {
      StatusAnswers(cap, h, c.slot, IccStatus(c.slot), true, ICC_MUTE);
      ReplyAnswers(cap, DATA_BLOCK, h, c.slot, IccStatus(c.slot), true, ICC_NOT_ACTIVE, 0, []);
    }
  }

  lemma ParametersAnswer(profile: Profile, c: Core, h: Header, cap: u32)
    requires ReplyKind(h.kind) == PARAMETERS
    ensures var r := ParametersReply(profile, c, h, cap); r == [] || Answers(h, c.slot, cap, r)
  {
    hide Answers, Reply, Reported, IccStatus;
    ReplyAnswers(cap, PARAMETERS, h, c.slot, IccStatus(c.slot), false, 0, c.protocol, Reported(profile, c));
  }

  lemma SetAnswers(profile: Profile, c: Core, h: Header, payload: seq<byte>, cap: u32)
    requires h.kind == SET_PARAMETERS || h.kind == RESET_PARAMETERS
    ensures profile.contact ==> AnswersOrNothing(h, cap, SetContact(profile, c, h, payload, cap))
    ensures !profile.contact ==> AnswersOrNothing(h, cap, SetSerial(profile, c, h, payload, cap))
    ensures AnswersOrNothing(h, cap, Reset(profile, c, h, cap))
  {
    hide Answers, Reply, ParametersReply, SlotStatus, IccStatus, Acceptable, Padded, Applied;
    ParametersAnswer(profile, SetContact(profile, c, h, payload, cap).0, h, cap);
    ParametersAnswer(profile, SetSerial(profile, c, h, payload, cap).0, h, cap);
    ParametersAnswer(profile, Reset(profile, c, h, cap).0, h, cap);
    StatusAnswers(cap, h, c.slot, IccStatus(c.slot), true, BAD_LENGTH);
    StatusAnswers(cap, h, c.slot, IccStatus(c.slot), true, NOT_SUPPORTED);
    ReplyAnswers(cap, PARAMETERS, h, c.slot, IccStatus(c.slot), true, BAD_PARAMETER, 0, []);
  }

  lemma EscapeAnswers(profile: Profile, c: Core, h: Header, payload: seq<byte>, cap: u32)
    requires h.kind == ESCAPE
    ensures AnswersOrNothing(h, cap, Escaped(profile, c, h, payload, cap))
  {
    hide Answers, Reply, IccStatus, Serialised;
    var icc := IccStatus(c.slot);
    ReplyAnswers(cap, ESCAPE_REPLY, h, c.slot, icc, false, 0, 0, Serialised(c.diag));
    ReplyAnswers(cap, ESCAPE_REPLY, h, c.slot, icc, false, 0, 0, [0xD1]);
    ReplyAnswers(cap, ESCAPE_REPLY, h, c.slot, icc, false, 0, 0, profile.firmware);
    ReplyAnswers(cap, ESCAPE_REPLY, h, c.slot, icc, false, 0, 0, [1, 1, 1]);
    ReplyAnswers(cap, ESCAPE_REPLY, h, c.slot, icc, true, 0, NOT_SUPPORTED, []);
  }

  lemma SecureAnswers(profile: Profile, c: Core, h: Header, payload: seq<byte>, cap: u32)
    requires h.kind == SECURE
    ensures AnswersOrNothing(h, cap, Secured(profile, c, h, payload, cap))
  {
    hide Answers, Reply, SlotStatus, IccStatus, Armed;
    ReplyAnswers(cap, DATA_BLOCK, h, c.slot, IccStatus(c.slot), true, NOT_SUPPORTED, 0, []);
    ReplyAnswers(cap, DATA_BLOCK, h, c.slot, IccStatus(c.slot), true, SLOT_BUSY, 0, []);
    StatusAnswers(cap, h, c.slot, IccStatus(c.slot), true, NOT_SUPPORTED);
  }

  lemma DispatchAnswers(profile: Profile, c: Core, h: Header, payload: seq<byte>, d: Driver, cap: u32)
    ensures AnswersOrNothing(h, cap, Dispatched(profile, c, h, payload, d, cap))
  {
    hide Dispatched, Answers, PoweredOn, PoweredOff, Exchanged, ParametersReply, SetContact, SetSerial, Reset, Escaped,
      Secured, SlotStatus, IccStatus, Unknown;
    DispatchedIs(profile, c, h, payload, d, cap);
    if h.kind == ICC_POWER_ON { PowerOnAnswers(profile, c, h, d, cap); }
    else if h.kind == ICC_POWER_OFF { PowerOffAnswers(profile, c, h, cap); }
    else if h.kind == XFR_BLOCK { ExchangeAnswers(profile, c, h, payload, d, cap); }
    else if h.kind == GET_PARAMETERS { ParametersAnswer(profile, c, h, cap); }
    else if h.kind == SET_PARAMETERS || h.kind == RESET_PARAMETERS { SetAnswers(profile, c, h, payload, cap); }
    else if h.kind == ESCAPE { EscapeAnswers(profile, c, h, payload, cap); }
    else if h.kind == SECURE { SecureAnswers(profile, c, h, payload, cap); }
    else { StatusAnswers(cap, h, c.slot, IccStatus(c.slot), Unknown(profile, h.kind), 0); }
  }

  // Every message with a header is answered by a message that fits it, or not at all.
  lemma RepliesFit(profile: Profile, c: Core, m: seq<byte>, d: Driver, cap: u32)
    ensures var (after, r) := Processed(profile, c, m, d, cap);
            if ParseHeader(m).None? then after == c && r == []
            else r == [] || Answers(ParseHeader(m).value, after.slot, cap, r)
  {
    hide Processed, Dispatched, Answers, ParseHeader, FailedStatus, SlotStatus, IccStatus;
    ProcessedIs(profile, c, m, d, cap);
    var h := ParseHeader(m);
    if h.Some? {
      if |m| < 10 + h.value.length {
        StatusAnswers(cap, h.value, c.slot, IccStatus(c.slot), true, NOT_SUPPORTED);
      } else {
        DispatchAnswers(profile, c, h.value, m[10..10 + h.value.length], d, cap);
      }
    }
  }
}
