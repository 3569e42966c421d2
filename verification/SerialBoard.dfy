/** The serial reader behind its burst loop, as a board the driver may trust. */
module SerialBoard {
  import opened Bytes
  import opened CcidCore
  import opened CcidService
  import opened ServiceRuns
  import opened CcidRuns
  import opened CcidHost
  import opened CcidMessages
  import CcidCard
  import T1
  import T1Laws
  import GemPc
  import IfdCodec
  import Ifd = IfdDriver
  import Loop = CdcBurst
  import opened ReaderBoard

  // ---- The service between operations ----

  // No event latched, and whatever its endpoint may have to repeat is a whole block.
  predicate Quiescent(s: Service) {
    Settled(s) && T1Laws.Closed(s.t1)
  }

  type Steady = s: Service | Quiescent(s) witness Boot([], 0, false)

  lemma SessionCloses(c: Core)
    ensures T1Laws.Closed(Session(c)) && T1Laws.Closed(T1.FRESH)
  {
    TimedIsValid(c);
  }

  lemma FedCloses(s: Service, b: seq<byte>, after: Service)
    requires Quiescent(s) && Fed(s, b, after)
    ensures T1Laws.Closed(after.t1)
  {
    hide T1.Feed, T1.CardResponse, T1Laws.Closed, T1.Valid;
    SettledIsValid(s);
    T1Laws.FeedKeepsValid(s.t1, b);
    T1Laws.FeedCloses(s.t1, b);
    var (t1, fed) := T1.Feed(s.t1, b);
    if fed.Apdu? {
      var answer: seq<byte>, took: nat :| after.t1 == T1.CardResponse(t1, answer, took).0;
      T1Laws.AnswerCloses(t1, answer, took);
    }
  }

  lemma ArmsCloses(s: Service, after: Service, accepts: bool, resets: bool)
    requires Quiescent(s) && Arms(s, after, accepts, resets)
    ensures T1Laws.Closed(after.t1)
  {
    hide T1Laws.Closed, Session;
    SessionCloses(after.core);
  }

  // Every operation leaves the service steady.
  lemma AfterIsSteady(s: Service, op: ServiceOp)
    requires Quiescent(s)
    ensures T1.Valid(s.t1) && Quiescent(After(s, op))
  {
    hide Served, CardChange, Settled, Accepts, ResetsCard, LosesSession, ToEndpoint, ParseHeader, IsSBlockRequest, Fed,
      Arms, StepCore, T1Laws.Closed;
    SettledIsValid(s);
    OperationArms(s, op);
    match op
    case Command(m, w, cap) =>
      CommandArms(s, m, w, cap);
      if Feeds(s, m) {
        FedCloses(s, Payload(m), Served(s, m, w, cap).0);
      } else {
        ArmsCloses(s, Served(s, m, w, cap).0, Accepts(m), ResetsCard(s, m, w.driver));
      }
    case CheckCard(d) =>
      PollArms(s, d);
      ArmsCloses(s, CardChange(s, d).0, false, LosesSession(s, d));
    case _ =>
      SmallStepArms(s, op);
      ArmsCloses(s, After(s, op), false, false);
  }

  function Next(s: Steady, op: ServiceOp): Steady {
    AfterIsSteady(s, op);
    After(s, op)
  }

  // ---- Conclusive answers ----

  // One whole message, which for a command the driver extends is not to be taken for a time
  // extension: a SlotStatus only if it failed.
  predicate Conclusive(kind: byte, r: seq<byte>) {
    && GemPc.Message(r)
    && (IfdCodec.MayExtend(kind) ==> r[7] < 0x80 && (r[0] == SLOT_STATUS ==> FailedStatus(r)))
  }

  lemma ConclusiveIsNoExtension(kind: byte, r: seq<byte>, seqno: byte)
    requires Conclusive(kind, r) && IfdCodec.MayExtend(kind)
    ensures !IfdCodec.IsTimeExtension(GemPc.Build(r), seqno)
  {
    hide GemPc.Build, GemPc.Message, IfdCodec.Sealed, FromLe32;
    IfdCodec.BuildIsSealed(r);
    IfdCodec.SealedLength(GemPc.Build(r));
  }

  lemma ReplyIsFinal(kind: byte, cap: u32, replyKind: byte, h: Header, icc: byte, failed: bool, error: byte,
                     payload: seq<byte>)
    requires icc < 3 && cap <= CcidCard.RESPONSE_BUFFER && (replyKind == SLOT_STATUS ==> failed)
    ensures var r := Reply(cap, replyKind, h, icc, failed, error, 0, payload); r == [] || Conclusive(kind, r)
  {
    hide Reply, GemPc.PayloadLength;
    if 10 + |payload| <= cap { ReplyIs(cap, replyKind, h, icc, failed, error, 0, payload); }
  }

  lemma PowerOnIsFinal(profile: Profile, c: Core, h: Header, d: Driver, cap: u32, kind: byte)
    requires cap <= CcidCard.RESPONSE_BUFFER
    ensures var r := PoweredOn(profile, c, h, d, cap).1; r == [] || Conclusive(kind, r)
  {
    hide Reply, Conclusive, AfterPowerOn, PowerOnRefusal, IccStatus;
    var refusal := PowerOnRefusal(profile, c, h, d);
    if refusal.Some? {
      ReplyIsFinal(kind, cap, SLOT_STATUS, h, IccStatus(refusal.value.0), true, refusal.value.1, []);
    } else if d.powerOn.Some? {
      ReplyIsFinal(kind, cap, DATA_BLOCK, h, 0, false, 0, d.powerOn.value);
    } else {
      ReplyIsFinal(kind, cap, SLOT_STATUS, h, 1, true, if profile.contact then ICC_MUTE else HW_ERROR, []);
    }
  }

  lemma ExchangeIsFinal(profile: Profile, c: Core, h: Header, apdu: seq<byte>, d: Driver, cap: u32, kind: byte)
    requires cap <= CcidCard.RESPONSE_BUFFER && !profile.contact
    ensures var r := Exchanged(profile, c, h, apdu, d, cap).1; r == [] || Conclusive(kind, r)
  {
    hide Reply, Conclusive, LocalAnswer, BError, Transmitted, IccStatus;
    var answered := LocalAnswer(profile, apdu, d);
    if c.slot != PresentActive {
      ReplyIsFinal(kind, cap, DATA_BLOCK, h, IccStatus(c.slot), true, ICC_NOT_ACTIVE, []);
    } else if answered.Some? {
      ReplyIsFinal(kind, cap, DATA_BLOCK, h, 0, false, 0, answered.value);
    } else if d.answer.Answer? {
      ReplyIsFinal(kind, cap, DATA_BLOCK, h, 0, false, 0, d.answer.data);
    } else {
      ReplyIsFinal(kind, cap, DATA_BLOCK, h, 1, true, BError(d.answer.failure), []);
    }
  }

  lemma EscapeIsFinal(profile: Profile, c: Core, h: Header, payload: seq<byte>, cap: u32, kind: byte)
    requires cap <= CcidCard.RESPONSE_BUFFER
    ensures var r := Escaped(profile, c, h, payload, cap).1; r == [] || Conclusive(kind, r)
  {
    hide Reply, Conclusive, Serialised, IccStatus;
    var icc := IccStatus(c.slot);
    ReplyIsFinal(kind, cap, ESCAPE_REPLY, h, icc, false, 0, Serialised(c.diag));
    ReplyIsFinal(kind, cap, ESCAPE_REPLY, h, icc, false, 0, [0xD1]);
    ReplyIsFinal(kind, cap, ESCAPE_REPLY, h, icc, false, 0, profile.firmware);
    ReplyIsFinal(kind, cap, ESCAPE_REPLY, h, icc, false, 0, [1, 1, 1]);
    ReplyIsFinal(kind, cap, ESCAPE_REPLY, h, icc, true, NOT_SUPPORTED, []);
  }

  lemma AnswersAreMessages(h: Header, slot: SlotState, cap: u32, r: seq<byte>)
    requires Answers(h, slot, cap, r) && cap <= CcidCard.RESPONSE_BUFFER
    ensures GemPc.Message(r)
  {
    hide ReplyKind, GemPc.PayloadLength;
  }

  lemma ProcessedIsFinal(profile: Profile, c: Core, m: seq<byte>, d: Driver, cap: u32)
    requires cap <= CcidCard.RESPONSE_BUFFER && !profile.contact && |m| >= 10
    ensures var r := Processed(profile, c, m, d, cap).1; r == [] || Conclusive(m[0], r)
  {
    hide Processed, Dispatched, Answers, IccStatus, PoweredOn, Exchanged, Escaped, GemPc.Message, FailedStatus, Reply;
    var h := ParseHeader(m).value;
    ProcessedIs(profile, c, m, d, cap);
    RepliesFit(profile, c, m, d, cap);
    var (after, r) := Processed(profile, c, m, d, cap);
    if r != [] { AnswersAreMessages(h, after.slot, cap, r); }
    if IfdCodec.MayExtend(m[0]) {
      if |m| < 10 + h.length {
        ReplyIsFinal(m[0], cap, SLOT_STATUS, h, IccStatus(c.slot), true, NOT_SUPPORTED, []);
      } else {
        var payload := m[10..10 + h.length];
        DispatchedIs(profile, c, h, payload, d, cap);
        PowerOnIsFinal(profile, c, h, d, cap, m[0]);
        ExchangeIsFinal(profile, c, h, payload, d, cap, m[0]);
        EscapeIsFinal(profile, c, h, payload, cap, m[0]);
      }
    }
  }

  // A world, and an identity string, that ask for no longer message than a frame carries.
  predicate Modest(firmware: Buffer, w: World) {
    && |firmware| <= GemPc.MAX_PAYLOAD
    && (w.driver.powerOn.Some? ==> |w.driver.powerOn.value| <= GemPc.MAX_PAYLOAD)
    && (w.driver.answer.Answer? ==> |w.driver.answer.data| <= GemPc.MAX_PAYLOAD)
    && (w.driver.uid.Some? ==> |w.driver.uid.value| + 2 <= GemPc.MAX_PAYLOAD)
    && (w.probe.Some? ==> |w.probe.value.1| <= GemPc.MAX_PAYLOAD)
  }

  lemma DueIsModest(firmware: Buffer, c: Core, m: seq<byte>, w: World)
    requires Modest(firmware, w)
    ensures CcidCard.Due(Serial(firmware), c, m, w.driver) <= GemPc.MAX_PAYLOAD
  {
    hide ParseHeader, PowerOnRefusal, IsPpsRequest;
    LocalIsModest(firmware, c, m, w);
  }

  lemma LocalIsModest(firmware: Buffer, c: Core, m: seq<byte>, w: World)
    requires Modest(firmware, w)
    ensures Complete(m) ==> CcidCard.ExchangeLength(Serial(firmware), c, Payload(m), w.driver) <= GemPc.MAX_PAYLOAD
  {
    hide ParseHeader;
  }

  lemma DelegatedSpeaks(s: Service, m: seq<byte>, w: World)
    requires |m| >= 10
    ensures var r := Delegated(s, m, w, CcidCard.RESPONSE_BUFFER).1;
            (r == [] || Conclusive(m[0], r)) && (Modest(s.firmware, w) ==> r != [])
  {
    hide Processed, Conclusive, CcidCard.Due;
    ProcessedIsFinal(Serial(s.firmware), s.core, m, w.driver, CcidCard.RESPONSE_BUFFER);
    CcidCard.SilenceIsExact(Serial(s.firmware), s.core, m, w.driver, CcidCard.RESPONSE_BUFFER);
    if Modest(s.firmware, w) { DueIsModest(s.firmware, s.core, m, w); }
  }

  // A T=1 block in a DataBlock fits and is final.
  lemma BlockSpeaks(kind: byte, h: Header, icc: byte, block: seq<byte>)
    requires icc < 3 && T1.WellFormed(block)
    ensures var r := Reply(CcidCard.RESPONSE_BUFFER, DATA_BLOCK, h, icc, false, 0, 0, block);
            r != [] && Conclusive(kind, r)
  {
    hide Reply, Conclusive, T1.WellFormed;
    T1Laws.WellFormedLength(block);
    ReplyIsFinal(kind, CcidCard.RESPONSE_BUFFER, DATA_BLOCK, h, icc, false, 0, block);
  }

  lemma ViaT1Speaks(s: Service, h: Header, m: seq<byte>, w: World)
    requires Quiescent(s) && |m| >= 10
    ensures T1.Valid(s.t1)
    ensures var r := ViaT1(s, h, m, w, CcidCard.RESPONSE_BUFFER).1; r != [] && Conclusive(m[0], r)
  {
    hide T1.Feed, T1.CardResponse, T1.Valid, T1.WellFormed, Reply, Conclusive, Relay, Pipeline, IccStatus, FailedStatus,
      IsSBlockRequest;
    SettledIsValid(s);
    var cap, icc := CcidCard.RESPONSE_BUFFER, IccStatus(s.core.slot);
    ReplyIsFinal(m[0], cap, SLOT_STATUS, h, icc, true, NOT_SUPPORTED, []);
    ReplyIsFinal(m[0], cap, DATA_BLOCK, h, icc, true, ICC_NOT_ACTIVE, []);
    if |m| >= 10 + h.length {
      var block := m[10..10 + h.length];
      T1Laws.FeedKeepsValid(s.t1, block);
      T1Laws.FeedCloses(s.t1, block);
      var (t1, fed) := T1.Feed(s.t1, block);
      match fed
      case Immediate(bytes) => BlockSpeaks(m[0], h, icc, bytes);
      case Apdu(apdu) =>
        var answer := Relay(Pipeline(Serial(s.firmware), s.core, h, apdu, w.driver, SCRATCH).1);
        T1Laws.AnswerCloses(t1, answer, w.took);
        BlockSpeaks(m[0], h, 0, T1.CardResponse(t1, answer, w.took).1);
    }
  }

  lemma LocalSpeaks(s: Service, h: Header, m: seq<byte>, w: World)
    requires |m| >= 10
    ensures w.probe.Some? ==>
              var (failed, payload) := w.probe.value;
              var r := Reply(CcidCard.RESPONSE_BUFFER, ESCAPE_REPLY, h, IccStatus(s.core.slot), failed, 0, 0, payload);
              (r == [] || Conclusive(m[0], r)) && (Modest(s.firmware, w) ==> r != [])
    ensures BaudEscape(h, m) ==>
              var r := SwitchBaud(s, h, m, CcidCard.RESPONSE_BUFFER).1; r != [] && Conclusive(m[0], r)
  {
    hide Reply, Conclusive, IccStatus, BaudFromCode;
    var cap, icc := CcidCard.RESPONSE_BUFFER, IccStatus(s.core.slot);
    if w.probe.Some? { ReplyIsFinal(m[0], cap, ESCAPE_REPLY, h, icc, w.probe.value.0, 0, w.probe.value.1); }
    ReplyIsFinal(m[0], cap, ESCAPE_REPLY, h, icc, true, NOT_SUPPORTED, []);
    var baud := RequestedBaud(h, m);
    if BaudEscape(h, m) && baud.Some? {
      ReplyIsFinal(m[0], cap, ESCAPE_REPLY, h, icc, false, 0, [0x05, m[11]] + Le32(baud.value));
    }
  }

  // Whatever it is sent and whatever the card does, what the serial reader answers is final,
  // and it answers, unless the world has more to say than fits a frame.
  lemma ServedSpeaks(s: Service, m: seq<byte>, w: World)
    requires Quiescent(s) && |m| >= 10
    ensures T1.Valid(s.t1)
    ensures var r := Served(s, m, w, CcidCard.RESPONSE_BUFFER).1;
            (r == [] || Conclusive(m[0], r)) && (Modest(s.firmware, w) ==> r != [])
  {
    hide ViaT1, Delegated, SwitchBaud, Reply, Conclusive, IccStatus, Modest, T1.Valid, T1Laws.Closed,
      GemPc.PayloadLength;
    var h := ParseHeader(m).value;
    ViaT1Speaks(s, h, m, w);
    LocalSpeaks(s, h, m, w);
    DelegatedSpeaks(s, m, w);
  }

  // ---- The reader as the handler of the loop ----

  // What the world does about the k-th operation: the card and the probes, what a poll sees,
  // the count of reinitialisations, and how often the card stalls.
  datatype Ambience = Ambience(world: World, polled: Driver, reinits: u32, stalls: nat)

  datatype Reader = Reader(service: Steady, lastPoll: nat, interval: nat, ambience: nat -> Ambience, k: nat)

  predicate PollDue(r: Reader, tick: nat) {
    Loop.Elapsed(r.lastPoll, tick) >= r.interval
  }

  // A presence poll, if one is due.
  function PollIfDue(r: Reader, tick: nat): Reader {
    if PollDue(r, tick) then
      r.(service := Next(r.service, CheckCard(r.ambience(r.k).polled)), lastPoll := tick, k := r.k + 1)
    else r
  }

  function Refreshed(r: Reader, tick: nat): Reader {
    r.(service := Next(r.service, RefreshTicks(tick % Loop.TICKS, r.ambience(r.k).reinits)))
  }

  // GetSlotStatus polls inline, with fresh diagnostics; every command refreshes them.
  function Prepared(r: Reader, m: seq<byte>, tick: nat): Reader {
    var polls := m != [] && m[0] == GET_SLOT_STATUS && PollDue(r, tick);
    Refreshed(if polls then PollIfDue(Refreshed(r, tick), tick) else r, tick)
  }

  // What the service answers in the buffer of the firmware, and the frame around it. A
  // snapshot asked for is taken by the loop.
  function Handle(r: Reader, m: seq<byte>, tick: nat): (Reader, Loop.Reply) {
    var p := Prepared(r, m, tick);
    var s := Next(p.service, Command(m, p.ambience(p.k).world, CcidCard.RESPONSE_BUFFER));
    (p.(service := Unsnapped(s), k := p.k + 1),
     Loop.Reply([], GemPc.Build(AnswerOf(p, m)), s.core.snapshot, p.ambience(p.k).stalls))
  }

  function AnswerOf(p: Reader, m: seq<byte>): seq<byte> {
    SettledIsValid(p.service);
    Served(p.service, m, p.ambience(p.k).world, CcidCard.RESPONSE_BUFFER).1
  }

  function Unsnapped(s: Steady): Steady {
    s.(core := s.core.(snapshot := false))
  }

  // A response dropped as late takes its snapshot and its baud rate with it.
  function Dropped(r: Reader): Reader {
    r.(service := Unsnapped(Next(r.service, TakeBaud)))
  }

  function ReaderStatus(r: Reader): Loop.Icc {
    IccStatus(r.service.core.slot)
  }

  // The silent profile of the CDC reader: no NAK, no slot change notification.
  function CdcReader(bridged: bool, windows: Loop.Windows): Loop.Firmware<Reader> {
    Loop.Firmware(Handle, PollIfDue, Dropped, ReaderStatus, bridged, false, windows)
  }

  lemma RefreshedTells(r: Reader, tick: nat)
    ensures var c, after := r.service.core, Refreshed(r, tick).service.core;
            && after.diag.uptime == tick % 0x1_0000_0000 && after.present == c.present && after.slot == c.slot
            && Refreshed(r, tick).lastPoll == r.lastPoll && Refreshed(r, tick).k == r.k
            && Refreshed(r, tick).ambience == r.ambience && Refreshed(r, tick).interval == r.interval
  {
    hide Settled, T1Laws.Closed;
    SettledIsValid(r.service);
  }

  lemma PollTells(r: Reader, tick: nat)
    requires PollDue(r, tick)
    ensures var d, after := r.ambience(r.k).polled, PollIfDue(r, tick);
            && after.service.core.present == (d.sessionActive || d.polledPresent) && after.lastPoll == tick
  {
    hide Settled, T1Laws.Closed, Polled;
    SettledIsValid(r.service);
    PollTold(Serial(r.service.firmware), r.service.core, r.ambience(r.k).polled);
  }

  // Before any command the uptime is that of the command, and GetSlotStatus alone polls, if a
  // poll is due.
  lemma PreparedTells(r: Reader, m: seq<byte>, tick: nat)
    requires |m| >= 10
    ensures var p := Prepared(r, m, tick);
            var d, c := r.ambience(r.k).polled, p.service.core;
            && c.diag.uptime == tick % 0x1_0000_0000
            && if m[0] == 0x65 && Loop.Elapsed(r.lastPoll, tick) >= r.interval then
                 c.present == (d.sessionActive || d.polledPresent) && p.lastPoll == tick
               else c.present == r.service.core.present && c.slot == r.service.core.slot && p.lastPoll == r.lastPoll
  {
    hide Refreshed, PollIfDue;
    RefreshedTells(r, tick);
    if PollDue(r, tick) {
      PollTells(Refreshed(r, tick), tick);
      RefreshedTells(PollIfDue(Refreshed(r, tick), tick), tick);
    }
  }

  // An idle read polls only when it is due; a response dropped as late takes a snapshot asked
  // for and a rate negotiated with it.
  lemma IdleAndLate(r: Reader, tick: nat)
    ensures Loop.Elapsed(r.lastPoll, tick) < r.interval ==> PollIfDue(r, tick) == r
    ensures var s := Dropped(r).service;
            s == r.service.(core := r.service.core.(snapshot := false), pendingBaud := None)
  {
    hide Settled, T1Laws.Closed;
    SettledIsValid(r.service);
  }

  lemma ServedStatus(s: Steady, m: seq<byte>, w: World)
    requires Whole(m, 0x65)
    ensures T1.Valid(s.t1) && |m| >= 10
    ensures var (after, r) := Served(s, m, w, CcidCard.RESPONSE_BUFFER);
            after == s && Says(271, r, m, 0x81, CardStatus(s.core.slot), false, 0, 0, [])
  {
    hide Processed, Says, ViaT1, SwitchBaud, Reply, T1.Valid, T1Laws.Closed, FromLe32;
    SettledIsValid(s);
    SlotStatusTold(Serial(s.firmware), s.core, m, w.driver, CcidCard.RESPONSE_BUFFER);
  }

  // GetSlotStatus with a poll due tells what that very poll found, and the uptime is that of
  // the command; without one due, what was known before.
  lemma StatusIsFresh(r: Reader, m: seq<byte>, tick: nat)
    requires Whole(m, 0x65)
    ensures var (after, reply) := Handle(r, m, tick);
            var d := r.ambience(r.k).polled;
            var c, before := after.service.core, r.service.core;
            && Says(271, Contents(reply.response), m, 0x81, CardStatus(c.slot), false, 0, 0, [])
            && reply.notify == [] && c.diag.uptime == tick % 0x1_0000_0000
            && if Loop.Elapsed(r.lastPoll, tick) >= r.interval then
                 c.present == (d.sessionActive || d.polledPresent) && after.lastPoll == tick
               else c.present == before.present && c.slot == before.slot && after.lastPoll == r.lastPoll
  {
    hide Served, GemPc.Build, Contents, Says, FromLe32, T1.Valid, Quiescent, Prepared;
    var p := Prepared(r, m, tick);
    WholeHasHeader(m, 0x65);
    PreparedTells(r, m, tick);
    ServedStatus(p.service, m, p.ambience(p.k).world);
    ContentsOfBuild(AnswerOf(p, m));
  }

  // ---- The reader as a board ----

  lemma FirmwareStays(s: Service, op: ServiceOp)
    requires T1.Valid(s.t1)
    ensures After(s, op).firmware == s.firmware
  {
    hide T1.Feed, T1.Valid, T1.CardResponse, Processed, Polled, Pipeline, Reply, Session, ParseHeader, BaudFromCode,
      IsSBlockRequest;
  }

  lemma PreparedKeeps(r: Reader, m: seq<byte>, tick: nat)
    ensures var p := Prepared(r, m, tick);
            p.ambience == r.ambience && p.service.firmware == r.service.firmware
  {
    hide PollDue, Quiescent, After;
    assert forall s: Steady, op :: Next(s, op).firmware == s.firmware by {
      forall s: Steady, op ensures Next(s, op).firmware == s.firmware { NextFirmware(s, op); }
    }
  }

  lemma NextFirmware(s: Steady, op: ServiceOp)
    ensures Next(s, op).firmware == s.firmware
  {
    hide After, Settled, T1Laws.Closed;
    SettledIsValid(s);
    FirmwareStays(s, op);
  }

  // A world that asks for nothing longer than a frame, and a card whose stalls the hook can
  // count and, if that is asked, the driver reads past.
  ghost predicate Gentle(firmware: Buffer, ambience: nat -> Ambience, polite: bool) {
    forall k: nat :: Modest(firmware, ambience(k).world) && Countable(ambience(k).stalls, polite)
  }

  predicate Countable(stalls: nat, polite: bool) {
    (stalls == 0 || stalls % 0x100 > 0) && (polite ==> stalls <= 64)
  }

  lemma HandleSpeaks(r: Reader, m: seq<byte>, tick: nat, polite: bool)
    requires |m| >= 10 && Gentle(r.service.firmware, r.ambience, polite)
    ensures var (after, reply) := Handle(r, m, tick);
            && after.ambience == r.ambience && after.service.firmware == r.service.firmware
            && reply.notify == [] && Countable(reply.stalls, polite)
            && Conclusive(m[0], Contents(reply.response)) && reply.response == GemPc.Build(Contents(reply.response))
  {
    hide Prepared, Served, Modest, Countable, Conclusive, GemPc.Build, Contents, Quiescent, T1.Valid, After;
    var p := Prepared(r, m, tick);
    PreparedKeeps(r, m, tick);
    NextFirmware(p.service, Command(m, p.ambience(p.k).world, CcidCard.RESPONSE_BUFFER));
    ServedSpeaks(p.service, m, p.ambience(p.k).world);
    ContentsOfBuild(AnswerOf(p, m));
  }

  // One exchange: plain, and such as the driver's board may have.
  lemma ExchangeIsPlausible(bridged: bool, windows: Loop.Windows, r: Reader, ccid: seq<byte>, tick: nat, polite: bool)
    requires GemPc.Message(ccid) && Gentle(r.service.firmware, r.ambience, polite)
    ensures var fw, reply := CdcReader(bridged, windows), Handle(r, ccid, tick).1;
            Plain(fw, ccid, reply) && Ifd.Plausible(ExchangeOf(fw, r, ccid, reply), polite)
  {
    hide Handle, Conclusive, GemPc.Build, Contents, IfdCodec.FirmwareInterim, Ifd.AllInterims, Ifd.Many, Gentle,
      IfdCodec.IsTimeExtension, GemPc.PayloadLength;
    var fw, reply := CdcReader(bridged, windows), Handle(r, ccid, tick).1;
    HandleSpeaks(r, ccid, tick, polite);
    var answer, n := Contents(reply.response), Loop.Stalls(fw, ccid, reply);
    ConclusiveIsMessage(ccid[0], answer);
    IfdCodec.InterimIsRecognised(ccid[6], ReaderStatus(r));
    Ifd.ManyInterims(Loop.InterimMessage(ccid, ReaderStatus(r)), ccid[6], n, answer);
    if IfdCodec.MayExtend(ccid[0]) { ConclusiveIsNoExtension(ccid[0], answer, ccid[6]); }
  }

  lemma ConclusiveIsMessage(kind: byte, r: seq<byte>)
    requires Conclusive(kind, r)
    ensures GemPc.Message(r)
  {
  }

  predicate AllPlausible(xs: List<Ifd.Exchange>, polite: bool) {
    match xs
    case Nil => true
    case Cons(x, rest) => Ifd.Plausible(x, polite) && AllPlausible(rest, polite)
  }

  // The commands of a stream, each exchanged once and in order.
  predicate ForCommands(xs: List<Ifd.Exchange>, orders: List<Loop.Order>)
    decreases xs
  {
    match xs
    case Nil => orders.Nil?
    case Cons(x, rest) => orders.Cons? && x.command == orders.head.ccid && ForCommands(rest, orders.tail)
  }

  lemma {:induction false} ExchangesArePlausible(bridged: bool, windows: Loop.Windows, s: Loop.Server<Reader>,
                                                 orders: List<Loop.Order>, polite: bool)
    requires Loop.Carried(orders) && Gentle(s.handler.service.firmware, s.handler.ambience, polite)
    ensures var fw := CdcReader(bridged, windows);
            var xs := Exchanges(fw, s, orders);
            AllPlain(fw, s, orders) && AllPlausible(xs, polite) && ForCommands(xs, orders)
    decreases orders
  {
    hide Plain, Ifd.Plausible, Gentle, Handle, Loop.Extension, Loop.WindowFor, GemPc.Build, Contents, Loop.Stalls,
      Loop.InterimMessage, Ifd.Many, Loop.LastTick, Loop.Flowing, Loop.Payload;
    match orders
    case Nil =>
    case Cons(o, rest) =>
      var fw, tick := CdcReader(bridged, windows), Loop.LastTick(0, o.samples);
      ExchangeIsPlausible(bridged, windows, s.handler, o.ccid, tick, polite);
      HandleSpeaks(s.handler, o.ccid, tick, polite);
      ExchangesArePlausible(bridged, windows, Loop.Answered(fw, s, o.ccid, tick).0, rest, polite);
  }

  // The whole way: commands sent back to back to the serial reader and cut anywhere are met,
  // byte for byte, with what a board that answers in order writes for exactly those commands,
  // each answer such as the driver expects. Such a board is one that a run of the driver trusts.
  lemma ReaderIsABoard(bridged: bool, windows: Loop.Windows, s: Loop.Server<Reader>, floor: nat,
                       bursts: List<Loop.Burst>, orders: List<Loop.Order>, polite: bool)
    requires Loop.NeverIdle(bursts) && Loop.Carried(orders) && Loop.StartsAfresh(s, orders)
    requires Loop.AllSamples(bursts) == Loop.Stream(orders)
    requires Loop.Smooth(Loop.ServeReads(CdcReader(bridged, windows), s, floor, bursts).verdicts)
    requires Gentle(s.handler.service.firmware, s.handler.ambience, polite)
    ensures var fw := CdcReader(bridged, windows);
            var xs := Exchanges(fw, s, orders);
            && Join(Loop.ServeReads(fw, s, floor, bursts).frames) == Outputs(xs)
            && AllPlausible(xs, polite) && ForCommands(xs, orders)
  {
    hide Loop.ServeReads, Loop.Smooth, Loop.Stream, Loop.AllSamples, Loop.Carried, Loop.NeverIdle, AllPlain, Exchanges,
      Outputs, Gentle, CdcReader;
    ExchangesArePlausible(bridged, windows, s, orders, polite);
    BurstsAreABoard(CdcReader(bridged, windows), s, floor, bursts, orders);
  }
}
