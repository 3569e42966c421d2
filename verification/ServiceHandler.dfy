/** The serial reader's handler as the object it is: a core, an endpoint and the arming flag. */
module ServiceHandler {
  import opened Bytes
  import opened CcidCore
  import opened CcidService
  import ServiceRuns
  import CcidHandler
  import T1Reader
  import T1

  class Handler {
    const firmware: Buffer
    const core: CcidHandler.CcidHandlerCore
    const t1: T1Reader.T1Endpoint
    var t1Armed: bool
    var baudEscapeEnabled: bool
    var pendingBaudChange: Option<u32>

    ghost predicate Valid()
      reads this, core, t1
    {
      core.profile == Serial(firmware) && T1.Valid(t1.View())
    }

    ghost function View(): Service
      reads this, core, t1
    {
      Service(firmware, core.View(), t1.View(), t1Armed, baudEscapeEnabled, pendingBaudChange)
    }

    constructor (firmware: Buffer, reinits: u32)
      ensures Valid() && fresh(core) && fresh(t1) && View() == Boot(firmware, reinits, false)
    {
      this.firmware := firmware;
      core := new CcidHandler.CcidHandlerCore(Serial(firmware), reinits);
      t1 := new T1Reader.T1Endpoint();
      t1Armed, baudEscapeEnabled, pendingBaudChange := false, false, None;
    }

    method EnableBaudEscape()
      requires Valid()
      modifies this
      ensures Valid() && View() == old(View()).(baudEnabled := true)
    {
      baudEscapeEnabled := true;
    }

    method TakeBaudChange() returns (baud: Option<u32>)
      requires Valid()
      modifies this
      ensures Valid() && View() == old(View()).(pendingBaud := None) && baud == old(View()).pendingBaud
    {
      baud := pendingBaudChange;
      pendingBaudChange := None;
    }

    // The endpoint forgets everything and the route is closed, if the card was reset.
    method DisarmOnReset()
      requires Valid()
      modifies this`t1Armed, core`cardResetEvent, t1
      ensures Valid() && View() == TakeReset(old(View()))
    {
      var reset := core.TakeCardReset();
      if reset {
        t1.Reset();
        t1Armed := false;
      }
    }

    method ArmOnAccepted()
      requires Valid()
      modifies this`t1Armed, core`parametersAcceptedEvent, t1
      ensures Valid() && View() == TakeAccepted(old(View()))
    {
      hide T1.FRESH, T1.Valid, T1.Timed;
      TimedIsValid(core.View());
      var accepted := core.TakeParametersAccepted();
      if accepted {
        t1Armed := true;
        t1.Reset();
        var params := core.hostParams;
        if params.Some? && params.value.protocol == 1 && core.currentProtocol == 1 {
          t1.SetHostTiming(params.value.raw[3] / 16, params.value.raw[5]);
        }
      }
    }

    method CheckCardChange(d: Driver) returns (change: Option<bool>)
      requires Valid()
      modifies this, core, t1
      ensures Valid() && (View(), change) == CardChange(old(View()), d)
    {
      hide Polled, TakeReset;
      change := core.CheckCardChange(d);
      DisarmOnReset();
    }

    method ProcessCommand(m: seq<byte>, w: World, cap: u32) returns (response: seq<byte>)
      requires Valid()
      modifies this, core, t1
      ensures Valid() && (View(), response) == Served(old(View()), m, w, cap)
    {
      hide ViaT1, SwitchBaud, Processed, Reply, IccStatus, ParseHeader, TakeReset, TakeAccepted, ProbeEscape,
        BaudEscape, T1.Valid;
      var header := ParseHeader(m);
      HeaderLength(m);
      if header.Some? {
        var h := header.value;
        if h.kind == XFR_BLOCK && t1Armed && core.currentProtocol == 1 {
          response := XfrViaT1(h, m, w, cap);
          return;
        }
        if ProbeEscape(h, m) && w.probe.Some? {
          return Reply(cap, ESCAPE_REPLY, h, IccStatus(core.slotState), w.probe.value.0, 0, 0, w.probe.value.1);
        }
        if baudEscapeEnabled && BaudEscape(h, m) {
          response := AnswerBaud(h, m, cap);
          return;
        }
      }
      response := core.ProcessCommand(m, w.driver, cap);
      ArmOnAccepted();
      DisarmOnReset();
    }

    method AnswerBaud(h: Header, m: seq<byte>, cap: u32) returns (response: seq<byte>)
      requires Valid()
      modifies this
      ensures Valid() && (View(), response) == SwitchBaud(old(View()), h, m, cap)
    {
      hide Reply, IccStatus, BaudFromCode;
      var icc, baud := IccStatus(core.slotState), RequestedBaud(h, m);
      if baud.None? {
        return Reply(cap, ESCAPE_REPLY, h, icc, true, 0, NOT_SUPPORTED, []);
      }
      pendingBaudChange := baud;
      response := Reply(cap, ESCAPE_REPLY, h, icc, false, 0, 0, [0x05, m[11]] + Le32(baud.value));
    }

    method XfrViaT1(h: Header, m: seq<byte>, w: World, cap: u32) returns (response: seq<byte>)
      requires Valid() && |m| >= 10
      modifies this, core, t1
      ensures Valid() && (View(), response) == ViaT1(old(View()), h, m, w, cap)
    {
      hide Reply, SlotStatus, IccStatus, FailedStatus, IsSBlockRequest, T1.Feed, T1.Valid, RelayedApdu, CountError;
      if |m| < 10 + h.length {
        core.RecordProtocolError();
        return SlotStatus(cap, h, IccStatus(core.slotState), true, NOT_SUPPORTED);
      }
      var block := m[10..10 + h.length];
      if !IsSBlockRequest(block) && core.slotState != PresentActive {
        response := Reply(cap, DATA_BLOCK, h, IccStatus(core.slotState), true, ICC_NOT_ACTIVE, 0, []);
        if FailedStatus(response) { core.RecordProtocolError(); }
        return;
      }
      var fed := t1.Feed(block);
      match fed
      case Immediate(bytes) =>
        response := Reply(cap, DATA_BLOCK, h, IccStatus(core.slotState), false, 0, 0, bytes);
      case Apdu(apdu) =>
        response := RelayToCard(h, apdu, w, cap);
    }

    method RelayToCard(h: Header, apdu: seq<byte>, w: World, cap: u32) returns (response: seq<byte>)
      requires Valid()
      modifies this, core, t1
      ensures Valid() && (View(), response) == RelayedApdu(old(View()), h, apdu, w, cap)
    {
      hide Reply, Pipeline, T1.CardResponse, T1.Valid, FailedStatus;
      var scratch := core.ApduPipeline(h, apdu, w.driver, SCRATCH);
      var payload := if FailedStatus(scratch) then CARD_TIMEOUT_SW else if |scratch| < 10 then [] else scratch[10..];
      var blocks := t1.CardResponse(payload, w.took);
      response := Reply(cap, DATA_BLOCK, h, 0, false, 0, 0, blocks);
    }

    // ---- Whole runs ----

    method SetCurrentProtocol(protocol: byte)
      requires Valid()
      modifies core
      ensures Valid() && View() == old(View()).(core := old(View()).core.(protocol := protocol))
    {
      core.SetCurrentProtocol(protocol);
    }

    method RefreshDiagnostics(ticks: u32, reinits: u32)
      requires Valid()
      modifies core
      ensures Valid()
      ensures var c := old(View()).core;
              View() == old(View()).(core := c.(diag := c.diag.(uptime := ticks, reinits := reinits)))
    {
      core.RefreshDiagnostics(ticks, reinits);
    }

    method RecordNak()
      requires Valid()
      modifies core
      ensures Valid()
      ensures var c := old(View()).core;
              View() == old(View()).(core := c.(diag := c.diag.(naks := Saturated(c.diag.naks))))
    {
      core.RecordNak();
    }

    method Perform(op: ServiceRuns.ServiceOp)
      requires Valid()
      modifies this, core, t1
      ensures Valid() && View() == ServiceRuns.After(old(View()), op)
    {
      hide Served, CardChange, T1.Valid, ServiceRuns.StepCore;
      match op
      case Command(m, w, cap) => var _ := ProcessCommand(m, w, cap);
      case CheckCard(d) => var _ := CheckCardChange(d);
      case SetProtocol(_) => PerformSmall(op);
      case RefreshTicks(_, _) => PerformSmall(op);
      case CountNak => PerformSmall(op);
      case TakeBaud => var _ := TakeBaudChange();
    }

    method PerformSmall(op: ServiceRuns.ServiceOp)
      requires Valid() && (op.SetProtocol? || op.RefreshTicks? || op.CountNak?)
      modifies core
      ensures Valid() && View() == ServiceRuns.After(old(View()), op)
    {
      hide T1.Valid;
      if op.SetProtocol? { SetCurrentProtocol(op.protocol); }
      else if op.RefreshTicks? { RefreshDiagnostics(op.ticks, op.reinits); }
      else { RecordNak(); }
    }

    // Any run of the object: it is armed at the end exactly if parameters were accepted since
    // the last card reset, no event waits, and at every moment on the way the endpoint was fed
    // only while armed for T=1.
    method PerformAll(ops: List<ServiceRuns.ServiceOp>)
      requires Valid() && ServiceRuns.Settled(View())
      modifies this, core, t1
      ensures Valid() && ServiceRuns.Settled(View()) && View() == ServiceRuns.Final(old(View()), ops)
      ensures t1Armed == ServiceRuns.StillNegotiatedAfter(old(View()), ops, old(t1Armed))
      ensures ServiceRuns.AllProper(ServiceRuns.Moments(old(View()), ops, old(t1Armed)))
    {
      hide ServiceRuns.After, ServiceRuns.Settled, ServiceRuns.Moments, ServiceRuns.AllProper, T1.Valid,
        ServiceRuns.StillNegotiatedAfter;
      ghost var s := View();
      var left := ops;
      while left.Cons?
        invariant Valid() && ServiceRuns.Settled(View())
        invariant ServiceRuns.Final(View(), left) == ServiceRuns.Final(s, ops)
        decreases left
      {
        ServiceRuns.OperationArms(View(), left.head);
        Perform(left.head);
        left := left.tail;
      }
      ServiceRuns.FinalIsSettled(s, ops);
      ServiceRuns.RunIsProper(s, ops);
    }
  }
}
