/** The handler core as the object it is: fields updated command by command. */
module CcidHandler {
  import opened Bytes
  import opened SecurePin
  import opened CcidCore
  import opened CcidRuns
  import Atr

  class CcidHandlerCore {
    const profile: Profile
    var slotState: SlotState
    var present: bool
    var currentProtocol: byte
    var hostParams: Option<Negotiated>
    var atrParams: Atr.AtrParams
    var secureState: SecureState
    var cardResetEvent: bool
    var parametersAcceptedEvent: bool
    var snapshotRequested: bool
    var syncNotifications: bool
    var diagnostics: Diagnostics
    var calls: List<Call>

    ghost function View(): Core
      reads this
    {
      Core(slotState, present, currentProtocol, hostParams, atrParams, secureState, cardResetEvent,
           parametersAcceptedEvent, snapshotRequested, syncNotifications, diagnostics, calls)
    }

    constructor (profile: Profile, reinits: u32)
      ensures View() == Initial(profile, reinits) && this.profile == profile
    {
      this.profile := profile;
      slotState, present := Absent, false;
      currentProtocol := if profile.contact then 0 else 1;
      hostParams, atrParams, secureState := None, Atr.DEFAULT, Idle;
      cardResetEvent, parametersAcceptedEvent, snapshotRequested, syncNotifications := false, false, false, false;
      diagnostics := Diagnostics(0, 0, 0, 0, reinits, false, 0);
      calls := Nil;
    }

    // ---- Events, taken once ----

    method TakeCardReset() returns (event: bool)
      modifies this`cardResetEvent
      ensures event == old(cardResetEvent) && !cardResetEvent
    {
      event := cardResetEvent;
      cardResetEvent := false;
    }

    method TakeParametersAccepted() returns (event: bool)
      modifies this`parametersAcceptedEvent
      ensures event == old(parametersAcceptedEvent) && !parametersAcceptedEvent
    {
      event := parametersAcceptedEvent;
      parametersAcceptedEvent := false;
    }

    method TakeSnapshotRequest() returns (event: bool)
      modifies this`snapshotRequested
      ensures event == old(snapshotRequested) && !snapshotRequested
    {
      event := snapshotRequested;
      snapshotRequested := false;
    }

    // Taking for one kind of session drops a session of the other kind too.
    method TakeSecureParams() returns (session: Option<(byte, VerifyParams)>)
      modifies this`secureState
      ensures secureState == Idle
      ensures session == match old(secureState) case PinVerify(s, p) => Some((s, p)) case _ => None
    {
      var armed := secureState;
      secureState := Idle;
      match armed
      case PinVerify(s, p) => session := Some((s, p));
      case _ => session := None;
    }

    method TakeSecureModifyParams() returns (session: Option<(byte, ModifyParams)>)
      modifies this`secureState
      ensures secureState == Idle
      ensures session == match old(secureState) case PinModify(s, p) => Some((s, p)) case _ => None
    {
      var armed := secureState;
      secureState := Idle;
      match armed
      case PinModify(s, p) => session := Some((s, p));
      case _ => session := None;
    }

    method CancelSecure()
      modifies this`secureState
      ensures secureState == Idle
    {
      secureState := Idle;
    }

    // ---- Counting ----

    method RecordNak()
      modifies this`diagnostics
      ensures diagnostics == old(diagnostics).(naks := Saturated(old(diagnostics).naks))
    {
      diagnostics := diagnostics.(naks := Saturated(diagnostics.naks));
    }

    method RefreshDiagnostics(ticks: u32, reinits: u32)
      modifies this`diagnostics
      ensures diagnostics == old(diagnostics).(uptime := ticks, reinits := reinits)
    {
      diagnostics := diagnostics.(uptime := ticks);
      diagnostics := diagnostics.(reinits := reinits);
    }

    method SetCurrentProtocol(protocol: byte)
      modifies this`currentProtocol
      ensures currentProtocol == protocol
    {
      currentProtocol := protocol;
    }

    method RecordProtocolError()
      modifies this`diagnostics
      ensures View() == CountError(old(View()))
    {
      diagnostics := diagnostics.(errors := Saturated(diagnostics.errors));
    }

    method TransmitCounted(apdu: seq<byte>, d: Driver) returns (answer: Exchange)
      modifies this`diagnostics, this`calls
      ensures View() == Transmitted(old(View()), apdu, d.answer) && answer == d.answer
    {
      diagnostics := diagnostics.(tx := Saturated(diagnostics.tx));
      calls := Cons(Transmit(apdu), calls);
      answer := d.answer;
      if answer.Answer? {
        diagnostics := diagnostics.(rx := Saturated(diagnostics.rx));
      }
    }

    // ---- Slot life cycle ----

    method CheckCardChange(d: Driver) returns (change: Option<bool>)
      modifies this
      ensures (View(), change) == Polled(profile, old(View()), d)
    {
      if d.sessionActive {
        present, slotState := true, PresentActive;
        diagnostics := diagnostics.(cardPresent := true);
        return None;
      }
      diagnostics := diagnostics.(cardPresent := d.polledPresent);
      diagnostics := diagnostics.(reinits := d.reinits);
      if !profile.contact && slotState == PresentActive && d.polledPresent {
        slotState, present, cardResetEvent := PresentInactive, d.polledPresent, true;
        return Some(true);
      }
      if d.polledPresent != present {
        present := d.polledPresent;
        if present {
          slotState := PresentInactive;
        } else {
          if profile.contact {
            calls := Cons(PowerOff, calls);
            secureState := Idle;
          }
          slotState := Absent;
        }
        return Some(present);
      }
      change := None;
    }

    method HandlePowerOn(h: Header, d: Driver, cap: u32) returns (response: seq<byte>)
      modifies this
      ensures (View(), response) == PoweredOn(profile, old(View()), h, d, cap)
    {
      hide Reply, SlotStatus, Atr.Interpret, Atr.AtrItems;
      if profile.contact {
        response := HandlePowerOnContact(h, d, cap);
        return;
      }
      if !present {
        return SlotStatus(cap, h, IccStatus(Absent), true, NOT_SUPPORTED);
      }
      calls := Cons(PowerOn, calls);
      match d.powerOn
      case Some(atr) =>
        present, slotState, cardResetEvent := true, PresentActive, true;
        response := Reply(cap, DATA_BLOCK, h, 0, false, 0, 0, atr);
      case None =>
        slotState := PresentInactive;
        response := SlotStatus(cap, h, 1, true, HW_ERROR);
    }

    method HandlePowerOnContact(h: Header, d: Driver, cap: u32) returns (response: seq<byte>)
      requires profile.contact
      modifies this
      ensures (View(), response) == PoweredOn(profile, old(View()), h, d, cap)
    {
      hide Reply, SlotStatus, AfterPowerOn;
      if h.length != 0 {
        return SlotStatus(cap, h, IccStatus(slotState), true, NOT_SUPPORTED);
      }
      if !d.cardPresent {
        return SlotStatus(cap, h, IccStatus(Absent), true, ICC_MUTE);
      }
      if h.specific == 2 || h.specific == 3 {
        return SlotStatus(cap, h, IccStatus(PresentInactive), true, NOT_SUPPORTED);
      }
      response := ActivateContact(h, d, cap);
    }

    // Past the guards: the card's answer to reset governs, and host parameters are dropped.
    method ActivateContact(h: Header, d: Driver, cap: u32) returns (response: seq<byte>)
      requires profile.contact && PowerOnRefusal(profile, View(), h, d).None?
      modifies this
      ensures (View(), response) == PoweredOn(profile, old(View()), h, d, cap)
    {
      hide Reply, SlotStatus, PowerOnRefusal, Atr.Interpret, Atr.AtrItems;
      calls := Cons(PowerOn, calls);
      match d.powerOn
      case Some(atr) =>
        var params := Atr.ParseAtr(atr);
        present, slotState, cardResetEvent := true, PresentActive, true;
        atrParams, currentProtocol, hostParams := params, params.protocol, None;
        response := Reply(cap, DATA_BLOCK, h, 0, false, 0, 0, atr);
      case None =>
        slotState := PresentInactive;
        response := SlotStatus(cap, h, 1, true, ICC_MUTE);
    }

    method HandlePowerOff(h: Header, cap: u32) returns (response: seq<byte>)
      modifies this
      ensures (View(), response) == PoweredOff(profile, old(View()), h, cap)
    {
      hide SlotStatus;
      calls := Cons(PowerOff, calls);
      slotState := PresentInactive;
      if profile.contact { currentProtocol := 0; }
      response := SlotStatus(cap, h, 1, false, 0);
    }

    // ---- Card exchanges ----

    method ApduPipeline(h: Header, apdu: seq<byte>, d: Driver, cap: u32) returns (response: seq<byte>)
      modifies this
      ensures (View(), response) == Pipeline(profile, old(View()), h, apdu, d, cap)
    {
      hide Reply, PseudoAnswer, BError, Transmitted;
      if IsPpsRequest(apdu) {
        return Reply(cap, DATA_BLOCK, h, 0, false, 0, 0, apdu);
      }
      if !profile.contact && |apdu| >= 4 && apdu[0] == 0xFF {
        var sw := PseudoAnswer(apdu, d.uid);
        return Reply(cap, DATA_BLOCK, h, 0, false, 0, 0, sw);
      }
      var answer := TransmitCounted(apdu, d);
      match answer
      case Answer(data) =>
        response := Reply(cap, DATA_BLOCK, h, 0, false, 0, 0, data);
      case Failed(f) =>
        slotState := PresentInactive;
        response := Reply(cap, DATA_BLOCK, h, 1, true, BError(f), 0, []);
    }

    method HandleXfrBlock(h: Header, apdu: seq<byte>, d: Driver, cap: u32) returns (response: seq<byte>)
      modifies this
      ensures (View(), response) == Exchanged(profile, old(View()), h, apdu, d, cap)
    {
      hide Reply, SlotStatus, IccStatus, Pipeline, ContactExchange;
      if profile.contact {
        response := HandleXfrBlockContact(h, apdu, d, cap);
        return;
      }
      if slotState != PresentActive {
        return Reply(cap, DATA_BLOCK, h, IccStatus(slotState), true, ICC_NOT_ACTIVE, 0, []);
      }
      response := ApduPipeline(h, apdu, d, cap);
    }

    method HandleXfrBlockContact(h: Header, apdu: seq<byte>, d: Driver, cap: u32) returns (response: seq<byte>)
      requires profile.contact
      modifies this
      ensures (View(), response) == Exchanged(profile, old(View()), h, apdu, d, cap)
    {
      hide Reply, SlotStatus, IccStatus, BError, Transmitted;
      if slotState != PresentActive {
        return SlotStatus(cap, h, IccStatus(slotState), true, ICC_MUTE);
      }
      if |apdu| > 261 {
        return SlotStatus(cap, h, 0, true, BAD_LENGTH);
      }
      if IsPpsRequest(apdu) {
        return Reply(cap, DATA_BLOCK, h, 0, false, 0, 0, apdu);
      }
      var answer := TransmitCounted(apdu, d);
      match answer
      case Answer(data) => response := Reply(cap, DATA_BLOCK, h, 0, false, 0, 0, data);
      case Failed(f) => response := Reply(cap, DATA_BLOCK, h, 0, true, BError(f), 0, []);
    }

    // ---- Parameters ----

    method HandleSetParameters(h: Header, payload: seq<byte>, cap: u32) returns (response: seq<byte>)
      requires !profile.contact
      modifies this
      ensures (View(), response) == SetSerial(profile, old(View()), h, payload, cap)
    {
      hide ParametersReply, SlotStatus, IccStatus;
      if h.specific > 1 {
        return SlotStatus(cap, h, IccStatus(slotState), true, NOT_SUPPORTED);
      }
      currentProtocol := h.specific;
      if h.specific == 1 && |payload| == 7 {
        hostParams := Some(Negotiated(1, payload));
      }
      parametersAcceptedEvent := true;
      response := WriteParameters(h, cap);
    }

    method HandleSetParametersContact(h: Header, payload: seq<byte>, cap: u32) returns (response: seq<byte>)
      requires profile.contact
      modifies this
      ensures (View(), response) == SetContact(profile, old(View()), h, payload, cap)
    {
      hide Reply, ParametersReply, SlotStatus, IccStatus, FieldRules, Padded, Atr.FiFromTa1High, Atr.DiFromTa1Low;
      if |payload| != 5 && |payload| != 7 {
        return SlotStatus(cap, h, IccStatus(slotState), true, BAD_LENGTH);
      }
      var raw := Padded(payload);
      var implied := if |payload| == 7 then 1 else 0;
      if h.specific != implied || !FieldRules(h.specific, raw) {
        return Reply(cap, PARAMETERS, h, IccStatus(slotState), true, BAD_PARAMETER, 0, []);
      }
      currentProtocol := h.specific;
      hostParams := Some(Negotiated(h.specific, raw));
      parametersAcceptedEvent := true;
      atrParams := atrParams.(hasTa1 := true, ta1 := raw[0], fi := Atr.FiFromTa1High(raw[0] / 16),
                              di := Atr.DiFromTa1Low(raw[0] % 16), guardTimeN := raw[2]);
      if h.specific == 1 {
        atrParams := atrParams.(bwi := raw[3] / 16, cwi := raw[3] % 16, edcType := raw[1] % 2, ifsc := raw[5]);
      }
      response := WriteParameters(h, cap);
    }

    method HandleResetParameters(h: Header, cap: u32) returns (response: seq<byte>)
      modifies this
      ensures (View(), response) == Reset(profile, old(View()), h, cap)
    {
      hide ParametersReply;
      if profile.contact {
        atrParams, currentProtocol, hostParams := Atr.DEFAULT, 0, None;
      } else {
        currentProtocol := 1;
      }
      parametersAcceptedEvent := true;
      response := WriteParameters(h, cap);
    }

    method WriteParameters(h: Header, cap: u32) returns (response: seq<byte>)
      ensures response == ParametersReply(profile, View(), h, cap)
    {
      hide Reply, DefaultParams, AtrBlock, IccStatus;
      var block := DefaultParams(currentProtocol);
      if hostParams.Some? && hostParams.value.protocol == currentProtocol && (profile.contact || currentProtocol == 1) {
        block := if currentProtocol == 1 then hostParams.value.raw else hostParams.value.raw[..5];
      } else if profile.contact {
        block := AtrBlock(atrParams, currentProtocol);
      }
      response := Reply(cap, PARAMETERS, h, IccStatus(slotState), false, 0, currentProtocol, block);
    }

    // ---- Escape and Secure ----

    method HandleEscape(h: Header, payload: seq<byte>, cap: u32) returns (response: seq<byte>)
      modifies this
      ensures (View(), response) == Escaped(profile, old(View()), h, payload, cap)
    {
      hide Reply, IccStatus, Serialised;
      var icc := IccStatus(slotState);
      if payload != [] && payload[0] == 0xD0 {
        return Reply(cap, ESCAPE_REPLY, h, icc, false, 0, 0, Serialised(diagnostics));
      }
      if !profile.contact {
        if payload != [] && payload[0] == 0xD1 {
          snapshotRequested := true;
          return Reply(cap, ESCAPE_REPLY, h, icc, false, 0, 0, [0xD1]);
        }
        if payload != [] && payload[0] == 0x02 {
          return Reply(cap, ESCAPE_REPLY, h, icc, false, 0, 0, profile.firmware);
        }
        if [1, 1, 1] <= payload {
          syncNotifications := true;
          return Reply(cap, ESCAPE_REPLY, h, icc, false, 0, 0, [1, 1, 1]);
        }
      }
      response := Reply(cap, ESCAPE_REPLY, h, icc, true, 0, NOT_SUPPORTED, []);
    }

    method HandleSecure(h: Header, payload: seq<byte>, cap: u32) returns (response: seq<byte>)
      modifies this
      ensures (View(), response) == Secured(profile, old(View()), h, payload, cap)
    {
      hide Reply, IccStatus, SecureRefused, ParseVerify, ParseModify;
      if !profile.pinPad {
        return SecureRefused(profile, slotState, h, cap);
      }
      if slotState != PresentActive {
        return Reply(cap, DATA_BLOCK, h, IccStatus(slotState), true, SLOT_BUSY, 0, []);
      }
      if |payload| == 0 {
        return SecureRefused(profile, slotState, h, cap);
      }
      if payload[0] == 0 {
        match ParseVerify(payload[1..]) {
          case Accepted(p) =>
            secureState := PinVerify(h.seqno, p);
            return [];
          case _ =>
        }
      } else if payload[0] == 1 {
        var parsed := ParsePinModify(payload[1..]);
        match parsed {
          case Accepted(p) =>
            secureState := PinModify(h.seqno, p);
            return [];
          case Faulted => return [];
          case Rejected =>
        }
      }
      response := SecureRefused(profile, slotState, h, cap);
    }

    // ---- The end of a PIN session ----

    method CompletePinEntry(seqno: byte, result: PinResult, data: Buffer, cap: u32) returns (response: seq<byte>)
      modifies this
      ensures (View(), response) == CompletePin(old(View()), seqno, result, data, cap)
    {
      hide Reply, IccStatus;
      var h, icc := Header(SECURE, 0, 0, seqno, 0), IccStatus(slotState);
      match result {
        case Success => response := Reply(cap, DATA_BLOCK, h, icc, false, 0, 0, data);
        case Cancelled => response := Reply(cap, DATA_BLOCK, h, icc, true, PIN_CANCELLED, 0, []);
        case TimeOut => response := Reply(cap, DATA_BLOCK, h, icc, true, TIMED_OUT, 0, []);
        case InvalidLength => response := Reply(cap, DATA_BLOCK, h, icc, true, CMD_ABORTED, 0, []);
      }
      secureState := Idle;
    }

    // A built APDU to the card, or the refusal to build one to the host.
    method Deliver(seqno: byte, built: Built, length: nat, d: Driver, cap: u32) returns (response: seq<byte>)
      modifies this
      ensures (View(), response) == PinExchange(old(View()), seqno, built, length, d, cap)
    {
      hide CompletePin, Transmitted;
      match built
      case Overrun => response := [];
      case Refused(_) => response := CompletePinEntry(seqno, InvalidLength, [], cap);
      case Apdu(bytes) =>
        if length > |bytes| { return []; }
        var answer := TransmitCounted(bytes[..length], d);
        match answer
        case Answer(data) => response := CompletePinEntry(seqno, Success, data, cap);
        case Failed(_) => response := CompletePinEntry(seqno, Cancelled, [], cap);
    }

    method CompletePinVerifyExchange(seqno: byte, result: PinResult, buffer: PinBuffer, p: VerifyParams, d: Driver,
                                     cap: u32)
      returns (response: seq<byte>)
      requires buffer.Valid()
      modifies this
      ensures (View(), response) == CompleteVerify(old(View()), seqno, result, old(buffer.Stack()), p, d, cap)
    {
      hide CompletePin, PinExchange, BuildVerify, Ascii, Digits;
      if !result.Success? {
        response := CompletePinEntry(seqno, result, [], cap);
        return;
      }
      var ascii := buffer.ToAscii();
      var length := buffer.len;
      var built := BuildVerifyApdu(p.head.cla, p.head.p1, p.head.p2, ascii[..length]);
      response := Deliver(seqno, built, 5 + length, d, cap);
    }

    method CompletePinModifyExchange(seqno: byte, result: PinResult, oldBuffer: PinBuffer, newBuffer: PinBuffer,
                                     p: ModifyParams, d: Driver, cap: u32)
      returns (response: seq<byte>)
      requires oldBuffer.Valid() && newBuffer.Valid()
      modifies this
      ensures (View(), response)
           == CompleteModify(old(View()), seqno, result, old(oldBuffer.Stack()), old(newBuffer.Stack()), p, d, cap)
    {
      hide CompletePin, PinExchange, BuildModify, Ascii, Digits;
      if !result.Success? {
        response := CompletePinEntry(seqno, result, [], cap);
        return;
      }
      var oldPin := oldBuffer.ToAscii();
      var newPin := newBuffer.ToAscii();
      var oldLength, newLength := oldBuffer.len, newBuffer.len;
      var built := BuildModifyApdu(p.head.cla, p.head.p1, p.head.p2, oldPin[..oldLength], newPin[..newLength]);
      response := Deliver(seqno, built, 5 + oldLength + newLength, d, cap);
    }

    // ---- The dispatcher ----

    method Dispatch(h: Header, payload: seq<byte>, d: Driver, cap: u32) returns (response: seq<byte>)
      modifies this
      ensures (View(), response) == Dispatched(profile, old(View()), h, payload, d, cap)
    {
      hide PoweredOn, PoweredOff, Exchanged, ParametersReply, SetContact, SetSerial, Reset, Escaped, Secured,
        SlotStatus, IccStatus;
      if h.kind == ICC_POWER_ON { response := HandlePowerOn(h, d, cap); }
      else if h.kind == ICC_POWER_OFF { response := HandlePowerOff(h, cap); }
      else if h.kind == GET_SLOT_STATUS { response := SlotStatus(cap, h, IccStatus(slotState), false, 0); }
      else if h.kind == XFR_BLOCK { response := HandleXfrBlock(h, payload, d, cap); }
      else if h.kind == GET_PARAMETERS { response := WriteParameters(h, cap); }
      else if h.kind == SET_PARAMETERS {
        if profile.contact { response := HandleSetParametersContact(h, payload, cap); }
        else { response := HandleSetParameters(h, payload, cap); }
      }
      else if h.kind == RESET_PARAMETERS { response := HandleResetParameters(h, cap); }
      else if h.kind == ESCAPE { response := HandleEscape(h, payload, cap); }
      else if h.kind == SECURE { response := HandleSecure(h, payload, cap); }
      else if h.kind == ABORT && profile.contact { response := SlotStatus(cap, h, IccStatus(slotState), false, 0); }
      else { response := SlotStatus(cap, h, IccStatus(slotState), true, NOT_SUPPORTED); }
    }

    method ProcessCommand(m: seq<byte>, d: Driver, cap: u32) returns (response: seq<byte>)
      modifies this
      ensures (View(), response) == Processed(profile, old(View()), m, d, cap)
    {
      hide Processed, ParseHeader, Dispatched, SlotStatus, IccStatus, CountError, FailedStatus;
      ProcessedIs(profile, View(), m, d, cap);
      var header := ParseHeader(m);
      if header.None? { return []; }
      var h := header.value;
      if |m| < 10 + h.length {
        RecordProtocolError();
        return SlotStatus(cap, h, IccStatus(slotState), true, NOT_SUPPORTED);
      }
      response := Dispatch(h, m[10..10 + h.length], d, cap);
      if FailedStatus(response) {
        RecordProtocolError();
      }
    }

    // ---- Whole runs ----

    method PerformPin(op: Op)
      requires op.VerifyDone? || op.ModifyDone?
      modifies this
      ensures View() == Step(profile, old(View()), op)
    {
      hide CompleteVerify, CompleteModify;
      match op
      case VerifyDone(seqno, result, pin, p, d, cap) =>
        var buffer := Keyed(pin);
        var _ := CompletePinVerifyExchange(seqno, result, buffer, p, d, cap);
      case ModifyDone(seqno, result, oldPin, newPin, p, d, cap) =>
        var oldBuffer := Keyed(oldPin);
        var newBuffer := Keyed(newPin);
        var _ := CompletePinModifyExchange(seqno, result, oldBuffer, newBuffer, p, d, cap);
    }

    method PerformEvent(op: Op)
      requires op.TakeCardReset? || op.TakeParametersAccepted? || op.TakeSnapshot? || op.TakeSession?
      modifies this
      ensures View() == Step(profile, old(View()), op)
    {
      if op.TakeCardReset? { var _ := TakeCardReset(); }
      else if op.TakeParametersAccepted? { var _ := TakeParametersAccepted(); }
      else if op.TakeSnapshot? { var _ := TakeSnapshotRequest(); }
      else { CancelSecure(); }
    }

    method PerformSmall(op: Op)
      requires op.RecordNak? || op.RecordError? || op.Refresh? || op.ChooseProtocol?
      modifies this
      ensures View() == Step(profile, old(View()), op)
    {
      if op.RecordNak? { RecordNak(); }
      else if op.RecordError? { RecordProtocolError(); }
      else if op.Refresh? { RefreshDiagnostics(op.ticks, op.reinits); }
      else { SetCurrentProtocol(op.protocol); }
    }

    // Any operation of a run, done by the method that stands for it.
    method Perform(op: Op)
      modifies this
      ensures View() == Step(profile, old(View()), op)
    {
      hide Processed, Polled, Pipeline, Transmitted, CompleteVerify, CompleteModify;
      match op
      case Host(m, d, cap) => var _ := ProcessCommand(m, d, cap);
      case Poll(d) => var _ := CheckCardChange(d);
      case RelayApdu(h, apdu, d, cap) => var _ := ApduPipeline(h, apdu, d, cap);
      case TransmitCounted(apdu, d) => var _ := TransmitCounted(apdu, d);
      case VerifyDone(_, _, _, _, _, _) => PerformPin(op);
      case ModifyDone(_, _, _, _, _, _, _) => PerformPin(op);
      case TakeCardReset => PerformEvent(op);
      case TakeParametersAccepted => PerformEvent(op);
      case TakeSnapshot => PerformEvent(op);
      case TakeSession => PerformEvent(op);
      case RecordNak => PerformSmall(op);
      case RecordError => PerformSmall(op);
      case Refresh(_, _) => PerformSmall(op);
      case ChooseProtocol(_) => PerformSmall(op);
    }

    // Whatever is asked of the object, in whatever order, is a run: what holds of every run
    // holds of it, the invariant among the rest.
    method PerformAll(ops: List<Op>)
      modifies this
      ensures View() == Run(profile, old(View()), ops)
      ensures Sound(profile, old(View())) ==> Sound(profile, View())
    {
      hide Step, Sound;
      ghost var c := View();
      var left := ops;
      while left.Cons?
        invariant Run(profile, View(), left) == Run(profile, c, ops)
        decreases left
      {
        Perform(left.head);
        left := left.tail;
      }
      if Sound(profile, c) { RunSound(profile, c, ops); }
    }
  }

  // A buffer with these digits typed into it.
  method Keyed(pin: Pin) returns (buffer: PinBuffer)
    ensures fresh(buffer) && fresh(buffer.digits) && buffer.Valid() && buffer.Stack() == pin
  {
    buffer := new PinBuffer(16);
    for i := 0 to |pin|
      invariant fresh(buffer) && fresh(buffer.digits) && buffer.Valid() && buffer.maxLen == 16
      invariant buffer.Stack() == pin[..i]
    {
      assert pin[..i + 1] == pin[..i] + [pin[i]];
      var _ := buffer.Push(pin[i]);
    }
    assert pin[..|pin|] == pin;
  }

  // A handler from start-up through any run: its active slot has a card, its counters count,
  // and on a contact reader its parameters are legal and decoded as stored.
  method Boot(profile: Profile, reinits: u32, ops: List<Op>) returns (core: CcidHandlerCore)
    ensures fresh(core) && core.profile == profile
    ensures core.View() == Run(profile, Initial(profile, reinits), ops) && Sound(profile, core.View())
  {
    hide Run, Sound, Initial;
    core := new CcidHandlerCore(profile, reinits);
    InitialSound(profile, reinits);
    core.PerformAll(ops);
  }
}
