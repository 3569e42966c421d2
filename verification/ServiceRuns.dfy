/** When the serial reader's T=1 endpoint is armed, fed and made fresh, over every run. */
module ServiceRuns {
  import opened Bytes
  import opened CcidCore
  import opened CcidRuns
  import opened CcidHost
  import opened CcidService
  import T1
  import T1Laws
  import GemPc
  import CcidCard

  datatype ServiceOp =
    | Command(message: seq<byte>, world: World, cap: u32)
    | CheckCard(driver: Driver)
    | SetProtocol(protocol: byte)
    | RefreshTicks(ticks: u32, reinits: u32)
    | CountNak
    | TakeBaud

  function StepCore(s: Service, op: Op): Service {
    s.(core := CcidRuns.Step(Serial(s.firmware), s.core, op))
  }

  function After(s: Service, op: ServiceOp): Service
    requires T1.Valid(s.t1)
  {
    match op
    case Command(m, w, cap) => Served(s, m, w, cap).0
    case CheckCard(d) => CardChange(s, d).0
    case SetProtocol(protocol) => StepCore(s, ChooseProtocol(protocol))
    case RefreshTicks(ticks, reinits) => StepCore(s, Refresh(ticks, reinits))
    case CountNak => StepCore(s, RecordNak)
    case TakeBaud => s.(pendingBaud := None)
  }

  // ---- What arms and what disarms, told from the messages and the driver alone ----

  // SetParameters or ResetParameters that is accepted.
  predicate Accepts(m: seq<byte>) {
    && Complete(m)
    && var h := ParseHeader(m).value;
       h.kind == RESET_PARAMETERS || (h.kind == SET_PARAMETERS && h.specific <= 1)
  }

  // IccPowerOn that succeeds.
  predicate ResetsCard(s: Service, m: seq<byte>, d: Driver) {
    Commands(m, ICC_POWER_ON) && s.core.present && d.powerOn.Some?
  }

  // The session is gone, and the card is still there.
  predicate LosesSession(s: Service, d: Driver) {
    !d.sessionActive && s.core.slot == PresentActive && d.polledPresent
  }

  // Whether parameters were accepted since the last card reset, after one more operation.
  predicate StillNegotiated(s: Service, op: ServiceOp, before: bool) {
    match op
    case Command(m, w, _) => Accepts(m) || (before && !ResetsCard(s, m, w.driver))
    case CheckCard(d) => before && !LosesSession(s, d)
    case _ => before
  }

  // No event waits between operations.
  predicate Settled(s: Service) {
    !s.core.cardReset && !s.core.paramsAccepted && T1.Valid(s.t1)
  }

  // ---- Events of one message ----

  predicate Raises(c: Core, after: Core, accepted: bool, reset: bool) {
    after.paramsAccepted == (c.paramsAccepted || accepted) && after.cardReset == (c.cardReset || reset)
  }

  lemma PowerRaises(profile: Profile, c: Core, h: Header, d: Driver, cap: u32)
    requires !profile.contact
    ensures Raises(c, PoweredOn(profile, c, h, d, cap).0, false, c.present && d.powerOn.Some?)
    ensures Raises(c, PoweredOff(profile, c, h, cap).0, false, false)
  {
    hide Reply, SlotStatus, IccStatus;
  }

  lemma ExchangeRaises(profile: Profile, c: Core, h: Header, payload: seq<byte>, d: Driver, cap: u32)
    ensures Raises(c, Pipeline(profile, c, h, payload, d, cap).0, false, false)
    ensures Raises(c, Exchanged(profile, c, h, payload, d, cap).0, false, false)
  {
    hide Reply, SlotStatus, LocalAnswer;
  }

  lemma ParametersRaise(profile: Profile, c: Core, h: Header, payload: seq<byte>, cap: u32)
    ensures !profile.contact ==> Raises(c, SetSerial(profile, c, h, payload, cap).0, h.specific <= 1, false)
    ensures Raises(c, Reset(profile, c, h, cap).0, true, false)
  {
    hide Reply, SlotStatus, IccStatus, ParametersReply;
  }

  lemma EscapesRaise(profile: Profile, c: Core, h: Header, payload: seq<byte>, cap: u32)
    ensures Raises(c, Escaped(profile, c, h, payload, cap).0, false, false)
    ensures Raises(c, Secured(profile, c, h, payload, cap).0, false, false)
  {
    hide Reply, SlotStatus, IccStatus, Serialised, SecureRefused, Armed;
  }

  lemma DispatchRaises(profile: Profile, c: Core, m: seq<byte>, d: Driver, cap: u32)
    requires !profile.contact && Complete(m)
    ensures Raises(c, Dispatched(profile, c, ParseHeader(m).value, Payload(m), d, cap).0,
                   Accepts(m), Commands(m, ICC_POWER_ON) && c.present && d.powerOn.Some?)
  {
    hide Dispatched, PoweredOn, PoweredOff, Exchanged, ParametersReply, SetContact, SetSerial, Reset, Escaped, Secured,
      SlotStatus, IccStatus, ParseHeader, Unknown;
    var h, payload := ParseHeader(m).value, Payload(m);
    DispatchedIs(profile, c, h, payload, d, cap);
    PowerRaises(profile, c, h, d, cap);
    ExchangeRaises(profile, c, h, payload, d, cap);
    ParametersRaise(profile, c, h, payload, cap);
    EscapesRaise(profile, c, h, payload, cap);
  }

  lemma MessageRaises(profile: Profile, c: Core, m: seq<byte>, d: Driver, cap: u32)
    requires !profile.contact
    ensures Raises(c, Processed(profile, c, m, d, cap).0,
                   Accepts(m), Commands(m, ICC_POWER_ON) && c.present && d.powerOn.Some?)
  {
    hide Processed, Dispatched, SlotStatus, IccStatus, FailedStatus, ParseHeader;
    ProcessedIs(profile, c, m, d, cap);
    if Complete(m) { DispatchRaises(profile, c, m, d, cap); }
  }

  // ---- Arming ----

  // How an operation leaves the endpoint: armed or not, and fresh after either trigger.
  predicate Arms(s: Service, after: Service, accepts: bool, resets: bool) {
    && Settled(after)
    && after.armed == (accepts || (s.armed && !resets))
    && (accepts ==> after.t1 == Session(after.core))
    && (resets && !accepts ==> after.t1 == T1.FRESH)
    && (!accepts && !resets ==> after.t1 == s.t1)
  }

  lemma DelegatedArms(s: Service, m: seq<byte>, w: World, cap: u32)
    requires Settled(s)
    ensures Arms(s, Delegated(s, m, w, cap).0, Accepts(m), ResetsCard(s, m, w.driver))
  {
    hide Processed, Accepts, ParseHeader;
    var c := Processed(Serial(s.firmware), s.core, m, w.driver, cap).0;
    MessageRaises(Serial(s.firmware), s.core, m, w.driver, cap);
    NotBoth(s, m, w.driver);
    TimedIsValid(c);
  }

  lemma NotBoth(s: Service, m: seq<byte>, d: Driver)
    ensures !(Accepts(m) && ResetsCard(s, m, d))
  {
    hide ParseHeader;
  }

  lemma PollArms(s: Service, d: Driver)
    requires Settled(s)
    ensures Arms(s, CardChange(s, d).0, false, LosesSession(s, d))
  {
  }

  // ---- Feeding ----

  // An XfrBlock whose block the endpoint gets to see.
  predicate Feeds(s: Service, m: seq<byte>) {
    && Complete(m) && ToEndpoint(s, ParseHeader(m).value)
    && (IsSBlockRequest(Payload(m)) || s.core.slot == PresentActive)
  }

  // What happens to the endpoint when it is fed: one block, and one answer if that
  // completed an APDU.
  ghost predicate Fed(s: Service, b: seq<byte>, after: Service)
    requires T1.Valid(s.t1)
  {
    T1Laws.FeedKeepsValid(s.t1, b);
    var (t1, fed) := T1.Feed(s.t1, b);
    && after.armed == s.armed
    && (fed.Immediate? ==> after.t1 == t1 && after.core == s.core)
    && (fed.Apdu? ==> exists answer: seq<byte>, took: nat :: after.t1 == T1.CardResponse(t1, answer, took).0)
  }

  lemma RelayFeeds(s: Service, h: Header, b: seq<byte>, apdu: seq<byte>, w: World, cap: u32)
    requires Settled(s) && T1.Feed(s.t1, b).1 == T1.Apdu(apdu) && T1.Valid(T1.Feed(s.t1, b).0)
    ensures Fed(s, b, RelayedApdu(s.(t1 := T1.Feed(s.t1, b).0), h, apdu, w, cap).0)
    ensures Settled(RelayedApdu(s.(t1 := T1.Feed(s.t1, b).0), h, apdu, w, cap).0)
  {
    hide T1.Feed, T1.CardResponse, Pipeline, Reply, Relay, T1.Valid;
    ExchangeRaises(Serial(s.firmware), s.core, h, apdu, w.driver, SCRATCH);
    var t1 := T1.Feed(s.t1, b).0;
    var answer := Relay(Pipeline(Serial(s.firmware), s.core, h, apdu, w.driver, SCRATCH).1);
    T1Laws.CachedIs(t1, answer, w.took);
    assert RelayedApdu(s.(t1 := t1), h, apdu, w, cap).0.t1 == T1.CardResponse(t1, answer, w.took).0;
  }

  lemma ViaT1Feeds(s: Service, m: seq<byte>, w: World, cap: u32)
    requires Settled(s) && ParseHeader(m).Some? && ToEndpoint(s, ParseHeader(m).value) && |m| >= 10
    ensures var after := ViaT1(s, ParseHeader(m).value, m, w, cap).0;
            && Settled(after) && after.armed == s.armed
            && (if Feeds(s, m) then Fed(s, Payload(m), after) else after.t1 == s.t1)
  {
    hide T1.Feed, RelayedApdu, Reply, SlotStatus, IccStatus, IsSBlockRequest, ParseHeader, T1.Valid, FailedStatus,
      ToEndpoint;
    var h := ParseHeader(m).value;
    if Complete(m) && Feeds(s, m) {
      var b := Payload(m);
      T1Laws.FeedKeepsValid(s.t1, b);
      var (t1, fed) := T1.Feed(s.t1, b);
      if fed.Apdu? { RelayFeeds(s, h, b, fed.apdu, w, cap); }
    }
  }

  // ---- One operation ----

  lemma LocalEscape(s: Service, m: seq<byte>, d: Driver)
    requires ParseHeader(m).Some? && (ParseHeader(m).value.kind == ESCAPE || ParseHeader(m).value.kind == XFR_BLOCK)
    ensures !Accepts(m) && !ResetsCard(s, m, d)
  {
    hide ParseHeader;
  }

  // Every command arms on accepted parameters, disarms on a card reset, and feeds the
  // endpoint only while armed for T=1; otherwise the endpoint is left alone.
  lemma CommandArms(s: Service, m: seq<byte>, w: World, cap: u32)
    requires Settled(s)
    ensures var after := Served(s, m, w, cap).0;
            if Feeds(s, m) then
              Settled(after) && Fed(s, Payload(m), after) && !Accepts(m) && !ResetsCard(s, m, w.driver)
            else Arms(s, after, Accepts(m), ResetsCard(s, m, w.driver))
  {
    hide ViaT1, Delegated, Fed, ParseHeader, Accepts, ResetsCard, Reply, IccStatus, BaudFromCode, IsSBlockRequest;
    var h := ParseHeader(m);
    HeaderLength(m);
    DelegatedArms(s, m, w, cap);
    if h.Some? {
      if ToEndpoint(s, h.value) {
        ViaT1Feeds(s, m, w, cap);
        LocalEscape(s, m, w.driver);
      } else if h.value.kind == ESCAPE {
        LocalEscape(s, m, w.driver);
      }
    }
  }

  predicate Accepting(op: ServiceOp) {
    op.Command? && Accepts(op.message)
  }

  predicate Resetting(s: Service, op: ServiceOp) {
    match op
    case Command(m, w, _) => ResetsCard(s, m, w.driver)
    case CheckCard(d) => LosesSession(s, d)
    case _ => false
  }

  lemma SmallStepArms(s: Service, op: ServiceOp)
    requires Settled(s) && !op.Command? && !op.CheckCard?
    ensures Arms(s, After(s, op), false, false)
  {
  }

  lemma FedIsArmed(s: Service, b: seq<byte>, after: Service)
    requires T1.Valid(s.t1) && Fed(s, b, after)
    ensures after.armed == s.armed
  {
    hide T1.Feed, T1.CardResponse, T1.Valid;
  }

  lemma OperationArms(s: Service, op: ServiceOp)
    requires Settled(s)
    ensures Settled(After(s, op))
    ensures After(s, op).armed == StillNegotiated(s, op, s.armed)
    ensures Accepting(op) ==> After(s, op).t1 == Session(After(s, op).core)
    ensures Resetting(s, op) ==> After(s, op).t1 == T1.FRESH
  {
    hide Served, CardChange, Settled, Accepts, ResetsCard, LosesSession, ToEndpoint, IsSBlockRequest, ParseHeader, Fed,
      StepCore, Session, T1.Valid;
    assert T1.Valid(s.t1) by { SettledIsValid(s); }
    match op
    case Command(m, w, cap) =>
      CommandArms(s, m, w, cap);
      NotBoth(s, m, w.driver);
      if Feeds(s, m) { FedIsArmed(s, Payload(m), Served(s, m, w, cap).0); }
    case CheckCard(d) => PollArms(s, d);
    case _ => SmallStepArms(s, op);
  }

  lemma SettledIsValid(s: Service)
    requires Settled(s)
    ensures T1.Valid(s.t1)
  {
  }

  // ---- Every run ----

  // The states a run goes through, each with the operation about to be done.
  datatype Moment = Moment(state: Service, op: ServiceOp, negotiated: bool)

  function Moments(s: Service, ops: List<ServiceOp>, negotiated: bool): List<Moment>
    requires Settled(s)
    decreases ops
  {
    match ops
    case Nil => Nil
    case Cons(op, rest) =>
      OperationArms(s, op);
      Cons(Moment(s, op, negotiated), Moments(After(s, op), rest, StillNegotiated(s, op, negotiated)))
  }

  // Where a run ends.
  function Final(s: Service, ops: List<ServiceOp>): Service
    requires Settled(s)
    decreases ops
  {
    match ops
    case Nil => s
    case Cons(op, rest) =>
      OperationArms(s, op);
      Final(After(s, op), rest)
  }

  // At this moment no event is latched, the endpoint is armed exactly if parameters were
  // accepted since the last card reset, and it is fed only then and only for T=1.
  predicate Proper(m: Moment) {
    && Settled(m.state)
    && m.state.armed == m.negotiated
    && (m.op.Command? && Feeds(m.state, m.op.message) ==> m.negotiated && m.state.core.protocol == 1)
  }

  predicate AllProper(ms: List<Moment>) {
    match ms
    case Nil => true
    case Cons(m, rest) => Proper(m) && AllProper(rest)
  }

  lemma {:induction false} RunIsProper(s: Service, ops: List<ServiceOp>)
    requires Settled(s)
    ensures AllProper(Moments(s, ops, s.armed))
    decreases ops
  {
    hide After, Settled, StillNegotiated, ParseHeader, IsSBlockRequest;
    match ops
    case Nil =>
    case Cons(op, rest) =>
      SettledIsValid(s);
      OperationArms(s, op);
      RunIsProper(After(s, op), rest);
  }

  lemma {:induction false} FinalIsSettled(s: Service, ops: List<ServiceOp>)
    requires Settled(s)
    ensures Settled(Final(s, ops)) && Final(s, ops).armed == StillNegotiatedAfter(s, ops, s.armed)
    decreases ops
  {
    hide After, Settled, StillNegotiated;
    match ops
    case Nil =>
    case Cons(op, rest) =>
      SettledIsValid(s);
      OperationArms(s, op);
      FinalIsSettled(After(s, op), rest);
  }

  // Whether parameters were accepted since the last card reset, after a whole run.
  function StillNegotiatedAfter(s: Service, ops: List<ServiceOp>, before: bool): bool
    requires Settled(s)
    decreases ops
  {
    match ops
    case Nil => before
    case Cons(op, rest) =>
      OperationArms(s, op);
      StillNegotiatedAfter(After(s, op), rest, StillNegotiated(s, op, before))
  }

  lemma EveryServiceRun(firmware: Buffer, reinits: u32, baudEnabled: bool, ops: List<ServiceOp>)
    ensures Settled(Boot(firmware, reinits, baudEnabled))
    ensures AllProper(Moments(Boot(firmware, reinits, baudEnabled), ops, false))
  {
    hide Moments, AllProper;
    RunIsProper(Boot(firmware, reinits, baudEnabled), ops);
  }

  // ---- What the host gets out of it ----

  // One XfrBlock of a chain, with what the world does about it.
  datatype Xfr = Xfr(message: seq<byte>, world: World, cap: u32)

  function XfrHeader(x: Xfr): Header
    requires Complete(x.message)
  {
    ParseHeader(x.message).value
  }

  // Messages that carry these blocks, one each.
  predicate Carry(xfrs: List<Xfr>, blocks: List<seq<byte>>)
    decreases xfrs
  {
    match xfrs
    case Nil => blocks.Nil?
    case Cons(x, rest) =>
      blocks.Cons? && Commands(x.message, XFR_BLOCK) && Payload(x.message) == blocks.head && Carry(rest, blocks.tail)
  }

  // Serving one message after another.
  function ServedAll(s: Service, xfrs: List<Xfr>): (Service, List<seq<byte>>)
    requires Settled(s)
    decreases xfrs
  {
    match xfrs
    case Nil => (s, Nil)
    case Cons(x, rest) =>
      OperationArms(s, Command(x.message, x.world, x.cap));
      var (s1, reply) := Served(s, x.message, x.world, x.cap);
      var (last, later) := ServedAll(s1, rest);
      (last, Cons(reply, later))
  }

  // A block in a DataBlock of an active slot.
  function BlockReply(x: Xfr, block: seq<byte>): seq<byte>
    requires Complete(x.message)
  {
    Reply(x.cap, DATA_BLOCK, XfrHeader(x), 0, false, 0, 0, block)
  }

  // The replies to a chain: an acknowledgment of each piece but the last, then this.
  function ChainReplies(xfrs: List<Xfr>, blocks: List<seq<byte>>, ns: T1.Bit, last: seq<byte>): List<seq<byte>>
    requires Carry(xfrs, blocks)
    decreases xfrs
  {
    match xfrs
    case Nil => Nil
    case Cons(x, rest) =>
      if rest.Nil? then Cons(last, Nil)
      else Cons(BlockReply(x, T1.Framed(T1.R(ns, 0), [])), ChainReplies(rest, blocks.tail, ns, last))
  }

  function Last(xfrs: List<Xfr>): Xfr
    requires xfrs.Cons?
  {
    if xfrs.tail.Nil? then xfrs.head else Last(xfrs.tail)
  }

  // Ready for blocks: armed for T=1, with an active card.
  predicate Open(s: Service) {
    Settled(s) && s.armed && s.core.protocol == 1 && s.core.slot == PresentActive
  }

  lemma OpenFeeds(s: Service, x: Xfr)
    requires Open(s) && Commands(x.message, XFR_BLOCK)
    ensures var (t1, fed) := T1.Feed(s.t1, Payload(x.message));
            && T1.Valid(t1)
            && Served(s, x.message, x.world, x.cap) ==
                 match fed
                 case Immediate(bytes) => (s.(t1 := t1), BlockReply(x, bytes))
                 case Apdu(apdu) => RelayedApdu(s.(t1 := t1), XfrHeader(x), apdu, x.world, x.cap)
  {
    hide T1.Feed, RelayedApdu, Reply, SlotStatus, IsSBlockRequest, ParseHeader, T1.Valid, FailedStatus;
    HeaderLength(x.message);
    PayloadIs(x.message);
    T1Laws.FeedKeepsValid(s.t1, Payload(x.message));
  }

  lemma {:induction false} LastCarries(xfrs: List<Xfr>, blocks: List<seq<byte>>)
    requires xfrs.Cons? && Carry(xfrs, blocks)
    ensures Commands(Last(xfrs).message, XFR_BLOCK)
    decreases xfrs
  {
    hide Commands, Payload;
    if xfrs.tail.Cons? { LastCarries(xfrs.tail, blocks.tail); }
  }

  lemma ChainCons(ns: T1.Bit, nr: T1.Bit, parts: List<T1.Inf>)
    requires parts.Cons?
    ensures T1Laws.HostChain(ns, nr, parts) ==
              Cons(T1.Framed(T1.I(ns, parts.tail.Cons?, nr), parts.head), T1Laws.HostChain(ns, nr, parts.tail))
    ensures T1Laws.HostChain(ns, nr, parts.tail).Nil? <==> parts.tail.Nil?
    ensures T1Laws.Whole(parts) == parts.head + T1Laws.Whole(parts.tail)
  {
    hide T1.Framed;
  }

  // A chain through the whole handler: every piece acknowledged, and the joined APDU relayed
  // with the last.
  lemma {:induction false} ChainServed(s: Service, nr: T1.Bit, parts: List<T1.Inf>, xfrs: List<Xfr>)
    requires Open(s) && parts.Cons? && T1Laws.EachWithin(parts, s.t1.hostIfsd)
    requires |s.t1.recv| + |T1Laws.Whole(parts)| <= T1.MAX_RELAY
    requires Carry(xfrs, T1Laws.HostChain(s.t1.hostNs, nr, parts))
    ensures xfrs.Cons? && Commands(Last(xfrs).message, XFR_BLOCK)
    ensures var apdu := s.t1.recv + T1Laws.Whole(parts);
            var fed := s.(t1 := s.t1.(recv := [], hostNs := T1.Flip(s.t1.hostNs)));
            && T1.Valid(fed.t1)
            && var (after, last) := RelayedApdu(fed, XfrHeader(Last(xfrs)), apdu, Last(xfrs).world, Last(xfrs).cap);
               ServedAll(s, xfrs) ==
                 (after, ChainReplies(xfrs, T1Laws.HostChain(s.t1.hostNs, nr, parts), s.t1.hostNs, last))
    decreases parts
  {
    hide Served, RelayedApdu, T1.Feed, T1.Framed, T1.OnI, Commands, Payload, BlockReply, ParseHeader, T1Laws.HostChain,
      T1Laws.Whole;
    var part, rest := parts.head, parts.tail;
    ChainCons(s.t1.hostNs, nr, parts);
    var x := xfrs.head;
    LastCarries(xfrs, T1Laws.HostChain(s.t1.hostNs, nr, parts));
    CommandsAre(Last(xfrs).message, XFR_BLOCK);
    T1Laws.FeedI(s.t1, s.t1.hostNs, rest.Cons?, nr, part);
    T1Laws.OnIPiece(s.t1, rest.Cons?, part);
    CommandsAre(x.message, XFR_BLOCK);
    OpenFeeds(s, x);
    if rest.Nil? {
      WholeOfOne(parts);
    } else {
      var s1 := s.(t1 := s.t1.(recv := s.t1.recv + part));
      assert s.t1.recv + part + T1Laws.Whole(rest) == s.t1.recv + (part + T1Laws.Whole(rest));
      ChainServed(s1, nr, rest, xfrs.tail);
    }
  }

  lemma WholeOfOne(parts: List<T1.Inf>)
    requires parts.Cons? && parts.tail.Nil?
    ensures T1Laws.Whole(parts) == parts.head
  {
    assert parts.head + [] == parts.head;
  }

  // Parameters that leave the reader at T=1.
  predicate OpensSession(m: seq<byte>) {
    Accepts(m) && (ParseHeader(m).value.kind == SET_PARAMETERS ==> ParseHeader(m).value.specific == 1)
  }

  lemma SessionOpens(s: Service, m: seq<byte>, w: World, cap: u32)
    requires Settled(s) && s.core.slot == PresentActive && OpensSession(m)
    ensures var s1 := Served(s, m, w, cap).0;
            && Open(s1) && s1.t1 == Session(s1.core) && s1.core.calls == s.core.calls && s1.firmware == s.firmware
  {
    hide ParseHeader, Processed, Session, T1.Valid, Served, Feeds, Accepts, ResetsCard, OpensSession;
    assert Accepts(m) by { OpeningAccepts(m); }
    CommandArms(s, m, w, cap);
    NotBoth(s, m, w.driver);
    SessionDelegates(s, m, w, cap);
    SessionCore(Serial(s.firmware), s.core, m, w.driver, cap);
  }

  lemma OpeningAccepts(m: seq<byte>)
    requires OpensSession(m)
    ensures Accepts(m)
  {
  }

  lemma SessionCore(profile: Profile, c: Core, m: seq<byte>, d: Driver, cap: u32)
    requires !profile.contact && OpensSession(m)
    ensures var after := Processed(profile, c, m, d, cap).0;
            after.protocol == 1 && after.slot == c.slot && after.calls == c.calls
  {
    hide Dispatched, ParseHeader, Reply, SlotStatus, FailedStatus, ParametersReply, IccStatus;
    ProcessedIs(profile, c, m, d, cap);
    DispatchedIs(profile, c, ParseHeader(m).value, Payload(m), d, cap);
  }

  lemma SessionDelegates(s: Service, m: seq<byte>, w: World, cap: u32)
    requires Settled(s) && OpensSession(m)
    ensures Served(s, m, w, cap) == Delegated(s, m, w, cap)
  {
    hide ParseHeader, Delegated, ViaT1, SwitchBaud, Reply, T1.Valid;
  }

  lemma RelayedCore(s: Service, h: Header, apdu: seq<byte>, w: World, cap: u32)
    requires T1.Valid(s.t1)
    ensures RelayedApdu(s, h, apdu, w, cap).0.core == Pipeline(Serial(s.firmware), s.core, h, apdu, w.driver, SCRATCH).0
  {
    hide T1.CardResponse, Pipeline, Reply, Relay;
  }

  lemma PipelineCalls(profile: Profile, c: Core, h: Header, apdu: seq<byte>, d: Driver, cap: u32)
    ensures Pipeline(profile, c, h, apdu, d, cap).0.calls ==
              if LocalAnswer(profile, apdu, d).None? then Cons(Transmit(apdu), c.calls) else c.calls
  {
    hide LocalAnswer, Reply;
  }

  // After accepted T=1 parameters, whatever was going on before, the host's first chain,
  // numbered from zero and cut at the size it negotiated, is acknowledged piece by piece, and
  // the card is asked once, for exactly the joined APDU, unless the reader answers it itself.
  lemma NewSessionStartsClean(s: Service, m: seq<byte>, w: World, cap: u32, nr: T1.Bit, parts: List<T1.Inf>,
                              xfrs: List<Xfr>)
    requires Settled(s) && s.core.slot == PresentActive && OpensSession(m) && parts.Cons?
    requires T1Laws.EachWithin(parts, Session(Served(s, m, w, cap).0.core).hostIfsd) &&
             |T1Laws.Whole(parts)| <= T1.MAX_RELAY
    requires Carry(xfrs, T1Laws.HostChain(0, nr, parts))
    ensures Settled(Served(s, m, w, cap).0) && xfrs.Cons? && Complete(Last(xfrs).message)
    ensures var s1 := Served(s, m, w, cap).0;
            var (after, replies) := ServedAll(s1, xfrs);
            var x, apdu := Last(xfrs), T1Laws.Whole(parts);
            var local := LocalAnswer(Serial(s.firmware), apdu, x.world.driver);
            && after.core.calls == (if local.None? then Cons(Transmit(apdu), s.core.calls) else s.core.calls)
            && exists frame ::
                 && replies == ChainReplies(xfrs, T1Laws.HostChain(0, nr, parts), 0, BlockReply(x, frame))
                 && T1.WellFormed(frame)
  {
    hide Served, ServedAll, RelayedApdu, Pipeline, LocalAnswer, T1Laws.HostChain, T1Laws.Whole, T1Laws.EachWithin,
      ChainReplies, Carry, Commands, OpensSession, Settled, ParseHeader, T1.WellFormed, BlockReply, AppliedT1Timing;
    SettledIsValid(s);
    SessionOpens(s, m, w, cap);
    var s1 := Served(s, m, w, cap).0;
    ChainServed(s1, nr, parts, xfrs);
    var x, apdu := Last(xfrs), T1Laws.Whole(parts);
    assert [] + apdu == apdu;
    CommandsAre(x.message, XFR_BLOCK);
    var fed := s1.(t1 := s1.t1.(recv := [], hostNs := 1));
    RelayedCore(fed, XfrHeader(x), apdu, x.world, x.cap);
    PipelineCalls(Serial(s.firmware), fed.core, XfrHeader(x), apdu, x.world.driver, SCRATCH);
    RelayedFrame(fed, x, apdu);
  }

  lemma RelayedFrame(s: Service, x: Xfr, apdu: seq<byte>)
    requires T1Laws.Closed(s.t1) && Complete(x.message)
    ensures exists frame ::
              RelayedApdu(s, XfrHeader(x), apdu, x.world, x.cap).1 == BlockReply(x, frame) && T1.WellFormed(frame)
  {
    hide T1.CardResponse, Pipeline, Reply, Relay, T1.WellFormed, ParseHeader;
    var answer := Relay(Pipeline(Serial(s.firmware), s.core, XfrHeader(x), apdu, x.world.driver, SCRATCH).1);
    T1Laws.AnswerCloses(s.t1, answer, x.world.took);
    var frame := T1.CardResponse(s.t1, answer, x.world.took).1;
    assert RelayedApdu(s, XfrHeader(x), apdu, x.world, x.cap).1 == BlockReply(x, frame);
  }

  // The size the host may cut at is the one it negotiated.
  lemma NegotiatedSize(c: Core)
    ensures (AppliedT1Timing(c).Some? && 16 <= AppliedT1Timing(c).value.2 <= 254) ==>
              Session(c).hostIfsd == AppliedT1Timing(c).value.2
  {
    hide AppliedT1Timing;
  }

  // The probe a host sends right after a card reset is echoed, not taken for a block.
  lemma ProbeAfterReset(s: Service, on: seq<byte>, w: World, cap: u32, xfr: seq<byte>, w2: World, cap2: u32)
    requires Settled(s) && ResetsCard(s, on, w.driver)
    requires Commands(xfr, XFR_BLOCK) && IsPpsRequest(Payload(xfr))
    ensures var s1 := Served(s, on, w, cap).0;
            && Settled(s1)
            && Served(s1, xfr, w2, cap2) ==
                 (s1, Reply(cap2, DATA_BLOCK, ParseHeader(xfr).value, 0, false, 0, 0, Payload(xfr)))
  {
    hide Served, Commands, Accepts, ParseHeader, IsPpsRequest, Reply, Settled, Payload;
    SettledIsValid(s);
    var s1 := Served(s, on, w, cap).0;
    CommandsAre(on, ICC_POWER_ON);
    CommandsAre(xfr, XFR_BLOCK);
    ResetsActivates(s, on, w, cap);
    SettledIsValid(s1);
    ProbeEchoes(s1, xfr, w2, cap2);
  }

  lemma ResetsActivates(s: Service, on: seq<byte>, w: World, cap: u32)
    requires Settled(s) && ResetsCard(s, on, w.driver)
    ensures var s1 := Served(s, on, w, cap).0; Settled(s1) && !s1.armed && s1.core.slot == PresentActive
  {
    hide ParseHeader, Dispatched, Reply, SlotStatus, FailedStatus, IccStatus, ViaT1, T1.Valid;
    var profile := Serial(s.firmware);
    CommandArms(s, on, w, cap);
    NotBoth(s, on, w.driver);
    ProcessedIs(profile, s.core, on, w.driver, cap);
    DispatchedIs(profile, s.core, ParseHeader(on).value, Payload(on), w.driver, cap);
  }

  lemma ProbeEchoes(s: Service, xfr: seq<byte>, w: World, cap: u32)
    requires Settled(s) && !s.armed && s.core.slot == PresentActive
    requires Commands(xfr, XFR_BLOCK) && IsPpsRequest(Payload(xfr))
    ensures Served(s, xfr, w, cap) == (s, Reply(cap, DATA_BLOCK, ParseHeader(xfr).value, 0, false, 0, 0, Payload(xfr)))
  {
    hide ParseHeader, Dispatched, Reply, SlotStatus, FailedStatus, IccStatus, ViaT1, T1.Valid, IsPpsRequest, Payload;
    var profile, h := Serial(s.firmware), ParseHeader(xfr).value;
    ProcessedIs(profile, s.core, xfr, w.driver, cap);
    PayloadIs(xfr);
    DispatchedIs(profile, s.core, h, Payload(xfr), w.driver, cap);
    CcidCard.NotFailed(cap, DATA_BLOCK, h, 0, Payload(xfr));
  }

  lemma PayloadIs(m: seq<byte>)
    requires Complete(m)
    ensures Payload(m) == m[10..10 + ParseHeader(m).value.length]
  {
  }

  // What is framed for the host as the card's answer: the answer, a status word for an
  // exchange that failed, and nothing for an answer past the scratch buffer.
  lemma RelayExact(s: Service, h: Header, apdu: seq<byte>, d: Driver)
    requires LocalAnswer(Serial(s.firmware), apdu, d).None?
    ensures Relay(Pipeline(Serial(s.firmware), s.core, h, apdu, d, SCRATCH).1) ==
              match d.answer
              case Failed(_) => CARD_TIMEOUT_SW
              case Answer(data) => if |data| <= 261 then data else []
  {
    hide LocalAnswer, Reply, GemPc.Bulk, GemPc.PayloadLength, Transmitted, BError;
    match d.answer
    case Failed(f) => ReplyIs(SCRATCH, DATA_BLOCK, h, 1, true, BError(f), 0, []);
    case Answer(data) =>
      if |data| <= 261 { ReplyIs(SCRATCH, DATA_BLOCK, h, 0, false, 0, 0, data); }
  }

  // What the link layer takes for a request of its own is answered by the endpoint alone.
  lemma SBlocksAreLocal(e: T1.Endpoint, b: seq<byte>)
    requires T1.Valid(e) && IsSBlockRequest(b)
    ensures T1.Feed(e, b).1.Immediate?
  {
    hide T1.Framed, T1.NextBlock, Lrc;
  }

  // It takes responses for requests too: the bit it looks at is clear in both.
  lemma ResponsesPassAsRequests(kind: T1.Kind, response: bool, inf: T1.Inf)
    ensures IsSBlockRequest(T1.Framed(T1.S(kind, response), inf))
  {
    hide Lrc;
  }

  // A card that answers slowly and at more than 261 bytes: its answer is lost in the scratch
  // buffer, what is held back is empty, and the grant of the extension brings nothing.
  lemma SlowLongAnswerIsLost(s: Service, h: Header, apdu: seq<byte>, w: World, cap: u32, inf: T1.Inf)
    requires Settled(s) && LocalAnswer(Serial(s.firmware), apdu, w.driver).None?
    requires w.driver.answer.Answer? && |w.driver.answer.data| > 261 && T1.NeedsExtension(s.t1, w.took)
    ensures var e := RelayedApdu(s, h, apdu, w, cap).0.t1;
            T1.Valid(e) && T1.Feed(e, T1.Framed(T1.S(T1.Wtx, true), inf)).1 == T1.BadBlock(e.(wtxPending := false))
  {
    hide T1.CardResponse, T1.Feed, T1.Framed, Pipeline, Reply, Relay, LocalAnswer, T1.NeedsExtension, T1.BadBlock;
    RelayExact(s, h, apdu, w.driver);
    T1Laws.GrantReleases(s.t1, [], w.took, inf);
  }
}
