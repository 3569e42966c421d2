/** What every run of the handler core keeps, and what a host may rely on across commands. */
module CcidRuns {
  import opened Bytes
  import opened SecurePin
  import opened CcidCore
  import Atr

  // ---- Runs ----

  // The digits a PIN buffer may hold.
  type Pin = s: seq<byte> | Digits(s) && |s| <= 16

  // Everything the transport glue may call, with the answers the driver gives it.
  datatype Op =
    | Host(message: seq<byte>, driver: Driver, cap: u32)
    | Poll(driver: Driver)
    | TakeCardReset
    | TakeParametersAccepted
    | TakeSnapshot
    | TakeSession
    | VerifyDone(seqno: byte, result: PinResult, pin: Pin, checked: VerifyParams, driver: Driver, cap: u32)
    | ModifyDone(seqno: byte, result: PinResult, oldPin: Pin, newPin: Pin, changed: ModifyParams, driver: Driver,
                 cap: u32)
    | RelayApdu(header: Header, apdu: seq<byte>, driver: Driver, cap: u32)
    | TransmitCounted(apdu: seq<byte>, driver: Driver)
    | RecordNak
    | RecordError
    | Refresh(ticks: u32, reinits: u32)
    | ChooseProtocol(protocol: byte)

  function Step(profile: Profile, c: Core, op: Op): Core {
    match op
    case Host(m, d, cap) => Processed(profile, c, m, d, cap).0
    case Poll(d) => Polled(profile, c, d).0
    case TakeCardReset => c.(cardReset := false)
    case TakeParametersAccepted => c.(paramsAccepted := false)
    case TakeSnapshot => c.(snapshot := false)
    case TakeSession => c.(secure := Idle)
    case VerifyDone(seqno, result, pin, p, d, cap) => CompleteVerify(c, seqno, result, pin, p, d, cap).0
    case ModifyDone(seqno, result, oldPin, newPin, p, d, cap) =>
      CompleteModify(c, seqno, result, oldPin, newPin, p, d, cap).0
    case RelayApdu(h, apdu, d, cap) => Pipeline(profile, c, h, apdu, d, cap).0
    case TransmitCounted(apdu, d) => Transmitted(c, apdu, d.answer)
    case RecordNak => c.(diag := c.diag.(naks := Saturated(c.diag.naks)))
    case RecordError => CountError(c)
    case Refresh(ticks, reinits) => c.(diag := c.diag.(uptime := ticks, reinits := reinits))
    case ChooseProtocol(protocol) => c.(protocol := protocol)
  }

  function Run(profile: Profile, c: Core, ops: List<Op>): Core
    decreases ops
  {
    match ops
    case Nil => c
    case Cons(op, rest) => Run(profile, Step(profile, c, op), rest)
  }

  // ---- The invariant ----

  // Stored host parameters obey the field rules and agree with the decoded copy.
  predicate Coherent(c: Core) {
    c.hostParams.Some? ==>
      var n := c.hostParams.value;
      && FieldRules(n.protocol, n.raw)
      && Decoded(c.atr, n)
  }

  predicate Decoded(p: Atr.AtrParams, n: Negotiated) {
    && p.hasTa1 && p.ta1 == n.raw[0] && p.guardTimeN == n.raw[2]
    && p.fi == Atr.FiFromTa1High(n.raw[0] / 16) && p.di == Atr.DiFromTa1Low(n.raw[0] % 16)
    && (n.protocol == 1 ==> 16 * p.bwi + p.cwi == n.raw[3] && p.cwi < 16 && p.ifsc == n.raw[5] && p.edcType == n.raw[1])
  }

  function Transmissions(calls: List<Call>): nat {
    match calls
    case Nil => 0
    case Cons(call, rest) => Transmissions(rest) + if call.Transmit? then 1 else 0
  }

  // The APDU counters count the card traffic.
  predicate Accounts(c: Core) {
    && c.diag.tx == (if Transmissions(c.calls) < U32_MAX then Transmissions(c.calls) else U32_MAX)
    && c.diag.rx <= c.diag.tx
  }

  predicate Sound(profile: Profile, c: Core) {
    && (c.slot == PresentActive ==> c.present)
    && (profile.contact ==> Coherent(c))
    && (profile.contact && c.slot == Absent ==> c.secure == Idle)
    && Accounts(c)
  }

  lemma InitialSound(profile: Profile, reinits: u32)
    ensures Sound(profile, Initial(profile, reinits))
  {
  }

  lemma AppliedDecodes(p: Atr.AtrParams, n: Negotiated)
    requires FieldRules(n.protocol, n.raw)
    ensures Decoded(Applied(p, n), n)
  {
    hide Atr.FiFromTa1High, Atr.DiFromTa1Low;
  }

  lemma TransmittedSound(profile: Profile, c: Core, apdu: seq<byte>, answer: Exchange)
    requires Sound(profile, c)
    ensures Sound(profile, Transmitted(c, apdu, answer))
  {
    hide Decoded, FieldRules;
  }

  lemma AfterPowerOnSound(profile: Profile, c: Core, atr: Buffer)
    requires Sound(profile, c)
    ensures Sound(profile, AfterPowerOn(profile, c, atr))
  {
    hide Decoded, FieldRules, Atr.Interpret, Atr.AtrItems;
  }

  lemma PowerSound(profile: Profile, c: Core, h: Header, d: Driver, cap: u32)
    requires Sound(profile, c)
    ensures Sound(profile, PoweredOn(profile, c, h, d, cap).0)
  {
    hide Decoded, FieldRules, Reply, SlotStatus, PowerOnRefusal, AfterPowerOn;
    if d.powerOn.Some? { AfterPowerOnSound(profile, c, d.powerOn.value); }
  }

  lemma PowerOffSound(profile: Profile, c: Core, h: Header, cap: u32)
    requires Sound(profile, c)
    ensures Sound(profile, PoweredOff(profile, c, h, cap).0)
  {
    hide Decoded, FieldRules, SlotStatus;
  }

  lemma PollSound(profile: Profile, c: Core, d: Driver)
    requires Sound(profile, c)
    ensures Sound(profile, Polled(profile, c, d).0)
  {
    hide Decoded, FieldRules;
  }

  lemma PipelineSound(profile: Profile, c: Core, h: Header, apdu: seq<byte>, d: Driver, cap: u32)
    requires Sound(profile, c)
    ensures Sound(profile, Pipeline(profile, c, h, apdu, d, cap).0)
  {
    hide Decoded, FieldRules, Reply, LocalAnswer, Transmitted;
    TransmittedSound(profile, c, apdu, d.answer);
  }

  lemma ExchangedSound(profile: Profile, c: Core, h: Header, apdu: seq<byte>, d: Driver, cap: u32)
    requires Sound(profile, c)
    ensures Sound(profile, Exchanged(profile, c, h, apdu, d, cap).0)
  {
    hide Sound, Reply, LocalAnswer, Transmitted, Pipeline, SlotStatus;
    TransmittedSound(profile, c, apdu, d.answer);
    PipelineSound(profile, c, h, apdu, d, cap);
  }

  lemma ParametersSound(profile: Profile, c: Core, h: Header, payload: seq<byte>, cap: u32)
    requires Sound(profile, c)
    ensures profile.contact ==> Sound(profile, SetContact(profile, c, h, payload, cap).0)
    ensures !profile.contact ==> Sound(profile, SetSerial(profile, c, h, payload, cap).0)
    ensures Sound(profile, Reset(profile, c, h, cap).0)
  {
    hide Decoded, FieldRules, Reply, SlotStatus, ParametersReply, Applied, Transmissions;
    if Acceptable(h.specific, payload) {
      AppliedDecodes(c.atr, Negotiated(h.specific, Padded(payload)));
    }
  }

  lemma EscapedSound(profile: Profile, c: Core, h: Header, payload: seq<byte>, cap: u32)
    requires Sound(profile, c)
    ensures Sound(profile, Escaped(profile, c, h, payload, cap).0)
    ensures Sound(profile, Secured(profile, c, h, payload, cap).0)
  {
    hide Decoded, FieldRules, Reply, SlotStatus, Serialised, Armed, SecureRefused, Transmissions;
  }

  lemma PinSound(profile: Profile, c: Core, seqno: byte, result: PinResult, data: Buffer, built: Built, length: nat,
                 d: Driver, cap: u32)
    requires Sound(profile, c)
    ensures Sound(profile, CompletePin(c, seqno, result, data, cap).0)
    ensures Sound(profile, PinExchange(c, seqno, built, length, d, cap).0)
  {
    hide Decoded, FieldRules, Reply, Transmitted;
    if built.Apdu? && length <= |built.bytes| {
      TransmittedSound(profile, c, built.bytes[..length], d.answer);
    }
  }

  lemma HostSound(profile: Profile, c: Core, m: seq<byte>, d: Driver, cap: u32)
    requires Sound(profile, c)
    ensures Sound(profile, Processed(profile, c, m, d, cap).0)
  {
    hide *;
    ProcessedIs(profile, c, m, d, cap);
    var h := ParseHeader(m);
    if h.Some? && |m| >= 10 + h.value.length {
      DispatchedSound(profile, c, h.value, m[10..10 + h.value.length], d, cap);
      CountErrorSound(profile, Dispatched(profile, c, h.value, m[10..10 + h.value.length], d, cap).0);
    }
    CountErrorSound(profile, c);
  }

  lemma CountErrorSound(profile: Profile, c: Core)
    requires Sound(profile, c)
    ensures Sound(profile, CountError(c))
  {
    hide Decoded, FieldRules, Transmissions;
  }

  // What the dispatcher hands each message to.
  lemma DispatchedIs(profile: Profile, c: Core, h: Header, payload: seq<byte>, d: Driver, cap: u32)
    ensures var out := Dispatched(profile, c, h, payload, d, cap);
            || (h.kind == ICC_POWER_ON && out == PoweredOn(profile, c, h, d, cap))
            || (h.kind == ICC_POWER_OFF && out == PoweredOff(profile, c, h, cap))
            || (h.kind == XFR_BLOCK && out == Exchanged(profile, c, h, payload, d, cap))
            || (h.kind == GET_PARAMETERS && out == (c, ParametersReply(profile, c, h, cap)))
            || (h.kind == SET_PARAMETERS && profile.contact && out == SetContact(profile, c, h, payload, cap))
            || (h.kind == SET_PARAMETERS && !profile.contact && out == SetSerial(profile, c, h, payload, cap))
            || (h.kind == RESET_PARAMETERS && out == Reset(profile, c, h, cap))
            || (h.kind == ESCAPE && out == Escaped(profile, c, h, payload, cap))
            || (h.kind == SECURE && out == Secured(profile, c, h, payload, cap))
            || (!Handled(h.kind) && out == (c, SlotStatus(cap, h, IccStatus(c.slot), Unknown(profile, h.kind), 0)))
  {
    hide PoweredOn, PoweredOff, Exchanged, ParametersReply, SetContact, SetSerial, Reset, Escaped, Secured, SlotStatus,
      IccStatus;
  }

  predicate Unknown(profile: Profile, kind: byte) {
    kind != GET_SLOT_STATUS && !(kind == ABORT && profile.contact)
  }

  predicate Handled(kind: byte) {
    || kind == ICC_POWER_ON || kind == ICC_POWER_OFF || kind == XFR_BLOCK || kind == GET_PARAMETERS
    || kind == SET_PARAMETERS || kind == RESET_PARAMETERS || kind == ESCAPE || kind == SECURE
  }

  lemma DispatchedSound(profile: Profile, c: Core, h: Header, payload: seq<byte>, d: Driver, cap: u32)
    requires Sound(profile, c)
    ensures Sound(profile, Dispatched(profile, c, h, payload, d, cap).0)
  {
    hide *;
    DispatchedIs(profile, c, h, payload, d, cap);
    PowerSound(profile, c, h, d, cap);
    PowerOffSound(profile, c, h, cap);
    ExchangedSound(profile, c, h, payload, d, cap);
    ParametersSound(profile, c, h, payload, cap);
    EscapedSound(profile, c, h, payload, cap);
  }

  lemma PinDoneSound(profile: Profile, c: Core, op: Op)
    requires Sound(profile, c) && (op.VerifyDone? || op.ModifyDone?)
    ensures Sound(profile, Step(profile, c, op))
  {
    hide Sound, CompletePin, PinExchange, BuildVerify, BuildModify, Ascii;
    match op
    case VerifyDone(seqno, result, pin, p, d, cap) =>
      var built := BuildVerify(p.head.cla, p.head.p1, p.head.p2, Ascii(pin));
      PinSound(profile, c, seqno, result, [], built, 5 + |pin|, d, cap);
    case ModifyDone(seqno, result, oldPin, newPin, p, d, cap) =>
      var built := BuildModify(p.head.cla, p.head.p1, p.head.p2, Ascii(oldPin), Ascii(newPin));
      PinSound(profile, c, seqno, result, [], built, 5 + |oldPin| + |newPin|, d, cap);
  }

  lemma SmallStepSound(profile: Profile, c: Core, op: Op)
    requires Sound(profile, c)
    requires !op.Host? && !op.Poll? && !op.VerifyDone? && !op.ModifyDone? && !op.RelayApdu? && !op.TransmitCounted?
    ensures Sound(profile, Step(profile, c, op))
  {
    hide Decoded, FieldRules, Transmissions;
  }

  // No operation, on any input and with any driver, breaks the invariant.
  lemma StepSound(profile: Profile, c: Core, op: Op)
    requires Sound(profile, c)
    ensures Sound(profile, Step(profile, c, op))
  {
    hide Sound, Processed, Polled, Pipeline, Transmitted, CompleteVerify, CompleteModify;
    match op
    case Host(m, d, cap) => HostSound(profile, c, m, d, cap);
    case Poll(d) => PollSound(profile, c, d);
    case VerifyDone(_, _, _, _, _, _) => PinDoneSound(profile, c, op);
    case ModifyDone(_, _, _, _, _, _, _) => PinDoneSound(profile, c, op);
    case RelayApdu(h, apdu, d, cap) => PipelineSound(profile, c, h, apdu, d, cap);
    case TransmitCounted(apdu, d) => TransmittedSound(profile, c, apdu, d.answer);
    case _ => SmallStepSound(profile, c, op);
  }

  lemma {:induction false} RunSound(profile: Profile, c: Core, ops: List<Op>)
    requires Sound(profile, c)
    ensures Sound(profile, Run(profile, c, ops))
    decreases ops
  {
    hide Sound, Step;
    match ops
    case Nil =>
    case Cons(op, rest) =>
      StepSound(profile, c, op);
      RunSound(profile, Step(profile, c, op), rest);
  }

  // Whatever has happened since start-up: an active slot has a card, the counters count the
  // card traffic, and on a contact reader the stored parameters are legal, the timing given to
  // the wire is that of the decoded copy, and no PIN session waits on an empty slot.
  lemma EveryRun(profile: Profile, reinits: u32, ops: List<Op>)
    ensures var c := Run(profile, Initial(profile, reinits), ops);
            && (c.slot == PresentActive ==> c.present)
            && Accounts(c)
            && (profile.contact && c.slot == Absent ==> c.secure == Idle)
            && (profile.contact && c.hostParams.Some? ==>
                  && FieldRules(c.hostParams.value.protocol, c.hostParams.value.raw)
                  && Decoded(c.atr, c.hostParams.value)
                  && AcceptedTiming(c) ==
                       Some(WireTiming(c.atr.fi, c.atr.di, c.atr.guardTimeN, c.hostParams.value.protocol)))
  {
    hide Run, Initial, Accounts, FieldRules, Atr.FiFromTa1High, Atr.DiFromTa1Low;
    InitialSound(profile, reinits);
    RunSound(profile, Initial(profile, reinits), ops);
  }
}
