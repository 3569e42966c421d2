/** What the serial reader adds to its handler core, message by message: the route to the T=1
    endpoint, the timing it is given, and the escapes it answers itself. */
module ServiceMessages {
  import opened Bytes
  import opened CcidCore
  import opened CcidRuns
  import opened CcidHost
  import opened CcidService
  import opened ServiceRuns
  import opened CcidMessages
  import T1
  import T1Laws
  import GemPc

  lemma WholeHeader(m: seq<byte>, kind: byte)
    requires Whole(m, kind)
    ensures |m| >= 10 && Commands(m, kind) && Payload(m) == Data(m)
    ensures ParseHeader(m) == Some(Header(kind, |Data(m)|, m[5], m[6], m[7]))
  {
    hide FromLe32;
  }

  // ---- Negotiated timing ----

  // A T=1 block that is accepted makes a new endpoint of the fourth byte's high nibble, the
  // waiting time, and the sixth byte, the size, held to 16 to 254.
  lemma TimingIsNegotiated(s: Service, m: seq<byte>, w: World, cap: u32)
    requires Settled(s) && Whole(m, 0x61) && m[7] == 1 && |Data(m)| == 7
    ensures T1.Valid(s.t1)
    ensures var s1, size := Served(s, m, w, cap).0, Data(m)[5];
            && s1.armed && s1.core.protocol == 1
            && s1.t1 == T1.FRESH.(hostBwi := Data(m)[3] / 16,
                                  hostIfsd := if size < 16 then 16 else if size == 255 then 254 else size)
  {
    hide Processed, Whole, Data, Says, T1.Valid, FromLe32, ViaT1, SwitchBaud, Reply;
    SettledIsValid(s);
    WholeHeader(m, 0x61);
    SerialSetTold(Serial(s.firmware), s.core, m, w.driver, cap);
  }

  // Parameters without such a block make a new endpoint of what was accepted before, or of the
  // standard's own values.
  lemma TimingIsKept(s: Service, m: seq<byte>, w: World, cap: u32)
    requires Settled(s) && Whole(m, 0x6D)
    ensures T1.Valid(s.t1)
    ensures var s1, n := Served(s, m, w, cap).0, s.core.hostParams;
            && s1.armed && s1.core.protocol == 1
            && s1.t1 == if n.Some? && n.value.protocol == 1 then
                          var size := n.value.raw[5];
                          T1.FRESH.(hostBwi := n.value.raw[3] / 16,
                                    hostIfsd := if size < 16 then 16 else if size == 255 then 254 else size)
                        else T1.FRESH
  {
    hide Processed, Whole, Data, Says, T1.Valid, FromLe32, ViaT1, SwitchBaud, Reply;
    SettledIsValid(s);
    WholeHeader(m, 0x6D);
    ResetParametersTold(Serial(s.firmware), s.core, m, w.driver, cap);
  }

  // ---- Escapes of the wrapper ----

  // The rates a host may ask for.
  function Rate(code: byte): Option<u32> {
    if code <= 8 then
      Some([115200, 230400, 460800, 576000, 921600, 1_000_000, 1_500_000, 2_000_000, 3_000_000][code])
    else None
  }

  lemma RateIs(code: byte)
    ensures BaudFromCode(code) == Rate(code)
  {
  }

  // A rate that is known is acknowledged with its code and its value, and waits to be applied;
  // any other is refused.
  lemma BaudTold(s: Service, m: seq<byte>, w: World, cap: u32)
    requires Settled(s) && s.baudEnabled && Whole(m, 0x6B) && [0x05] <= Data(m)
    ensures T1.Valid(s.t1)
    ensures var (after, r) := Served(s, m, w, cap);
            var rate := if |Data(m)| == 2 then Rate(Data(m)[1]) else None;
            if rate.None? then after == s && Refuses(cap, r, m, 0x83, CardStatus(s.core.slot), 0)
            else
              && after == s.(pendingBaud := rate)
              && exists le: seq<byte> ::
                   && |le| == 4 && FromLe32(le[0], le[1], le[2], le[3]) == rate.value
                   && Says(cap, r, m, 0x83, CardStatus(s.core.slot), false, 0, 0, [0x05, Data(m)[1]] + le)
  {
    hide Processed, Whole, Says, T1.Valid, FromLe32, ViaT1, Reply, Delegated, BaudFromCode, Rate;
    SettledIsValid(s);
    WholeHeader(m, 0x6B);
    WholeHasHeader(m, 0x6B);
    var icc := CardStatus(s.core.slot);
    assert m[10] == Data(m)[0] == 0x05;
    ReplySays(cap, 0x83, m, icc, true, 0, 0, []);
    if |Data(m)| == 2 {
      assert m[11] == Data(m)[1];
      RateIs(m[11]);
      if Rate(m[11]).Some? { ReplySays(cap, 0x83, m, icc, false, 0, 0, [0x05, m[11]] + Le32(Rate(m[11]).value)); }
    }
  }

  // The probes of the front end, where it has them, answer as they come out.
  lemma ProbeTold(s: Service, m: seq<byte>, w: World, cap: u32)
    requires Settled(s) && Whole(m, 0x6B) && w.probe.Some?
    requires Data(m) == [0xD2] || Data(m) == [0xD4] || (|Data(m)| == 2 && Data(m)[0] == 0xD3)
    ensures T1.Valid(s.t1)
    ensures var (after, r) := Served(s, m, w, cap);
            var (failed, data) := w.probe.value;
            after == s && Says(cap, r, m, 0x83, CardStatus(s.core.slot), failed, 0, 0, data)
  {
    hide Processed, Whole, Says, T1.Valid, FromLe32, ViaT1, Reply, Delegated, SwitchBaud;
    SettledIsValid(s);
    WholeHeader(m, 0x6B);
    WholeHasHeader(m, 0x6B);
    assert m[10] == Data(m)[0];
    ReplySays(cap, 0x83, m, CardStatus(s.core.slot), w.probe.value.0, 0, 0, w.probe.value.1);
  }

  // The serial reader has no pad: no Secure message arms a session, whatever it holds.
  lemma NoPinIsTaken(s: Service, m: seq<byte>, w: World, cap: u32)
    requires Settled(s) && Whole(m, 0x69)
    ensures T1.Valid(s.t1)
    ensures var (after, r) := Served(s, m, w, cap);
            && after == s.(core := Failing(s.core, cap))
            && Refuses(cap, r, m, 0x81, CardStatus(s.core.slot), 0)
  {
    hide Processed, Whole, Says, T1.Valid, FromLe32, ViaT1, Reply, SwitchBaud, SecurePin.ParseVerify,
      SecurePin.ParseModify;
    SettledIsValid(s);
    WholeHeader(m, 0x69);
    SecureTold(Serial(s.firmware), s.core, m, w.driver, cap);
  }

  // ---- Blocks by way of the endpoint ----

  // What passes for a request of the link layer: bits 0x80 and 0x40 set, bit 0x10 clear.
  predicate LinkRequest(block: seq<byte>) {
    |block| >= 4 && (0xC0 <= block[1] < 0xD0 || 0xE0 <= block[1] < 0xF0)
  }

  lemma LinkRequestIs(block: seq<byte>)
    ensures IsSBlockRequest(block) <==> LinkRequest(block)
  {
  }

  // The core after an APDU that the endpoint assembled, and what is framed as its answer.
  function RelayedTo(s: Service, apdu: seq<byte>, d: Driver): (Core, seq<byte>) {
    var own := ReadersOwn(Serial(s.firmware), apdu, d.uid);
    if own.Some? then (s.core, if |own.value| > 261 then [] else own.value)
    else
      match d.answer
      case Answer(data) => (Given(s.core, apdu, true), if |data| > 261 then [] else data)
      case Failed(_) => (Given(s.core, apdu, false).(slot := PresentInactive), [0x64, 0x00])
  }

  lemma RelayIs(s: Service, h: Header, apdu: seq<byte>, w: World)
    ensures var (c, out) := Pipeline(Serial(s.firmware), s.core, h, apdu, w.driver, SCRATCH);
            (c, Relay(out)) == RelayedTo(s, apdu, w.driver)
  {
    hide Reply, LocalAnswer, Transmitted, ReadersOwn, Given, BError, GemPc.Bulk, GemPc.PayloadLength;
    var d := w.driver;
    LocalAnswerIs(Serial(s.firmware), apdu, d);
    TransmittedIs(s.core, apdu, d.answer);
    var own := ReadersOwn(Serial(s.firmware), apdu, d.uid);
    if own.Some? {
      PayloadOf(h, 0, false, 0, own.value);
    } else if d.answer.Answer? {
      PayloadOf(h, 0, false, 0, d.answer.data);
    } else {
      PayloadOf(h, 1, true, BError(d.answer.failure), []);
    }
  }

  lemma PayloadOf(h: Header, icc: byte, failed: bool, error: byte, data: seq<byte>)
    requires icc < 3 && (failed ==> data == [])
    ensures Relay(Reply(SCRATCH, 0x80, h, icc, failed, error, 0, data)) ==
              if failed then [0x64, 0x00] else if |data| > 261 then [] else data
  {
    hide Reply, GemPc.Bulk, GemPc.PayloadLength;
    if 10 + |data| <= SCRATCH { ReplyIs(SCRATCH, 0x80, h, icc, failed, error, 0, data); }
  }

  // While the endpoint is armed for T=1, an XfrBlock is for it: one cut short and one for an
  // inactive card are refused, the latter unless it passes for a link-layer request; what the
  // endpoint answers itself goes back at once, and an APDU it completes goes to the card or to
  // the reader's own answers, whose outcome it frames.
  lemma RoutedXfrTold(s: Service, m: seq<byte>, w: World, cap: u32)
    requires Settled(s) && s.armed && s.core.protocol == 1 && Whole(m, 0x6F)
    ensures T1.Valid(s.t1) && T1.Valid(T1.Feed(s.t1, Data(m)).0)
    ensures var (after, r) := Served(s, m, w, cap);
            var (t1, fed) := T1.Feed(s.t1, Data(m));
            var icc := CardStatus(s.core.slot);
            if s.core.slot != PresentActive && !LinkRequest(Data(m)) then
              after == s.(core := Failing(s.core, cap)) && Refuses(cap, r, m, 0x80, icc, 0x05)
            else
              match fed
              case Immediate(bytes) => after == s.(t1 := t1) && Says(cap, r, m, 0x80, icc, false, 0, 0, bytes)
              case Apdu(apdu) =>
                var (c, answer) := RelayedTo(s, apdu, w.driver);
                var (t1b, frame) := T1.CardResponse(t1, answer, w.took);
                after == s.(core := c, t1 := t1b) && Says(cap, r, m, 0x80, 0, false, 0, 0, frame)
  {
    hide Whole, Says, T1.Valid, FromLe32, Reply, Delegated, T1.Feed, T1.CardResponse, RelayedTo, LinkRequest, Relay,
      Pipeline, IsSBlockRequest, FailedStatus, Data;
    SettledIsValid(s);
    WholeHeader(m, 0x6F);
    WholeHasHeader(m, 0x6F);
    assert m[10..10 + |Data(m)|] == Data(m) by { DataIs(m); }
    T1Laws.FeedKeepsValid(s.t1, Data(m));
    LinkRequestIs(Data(m));
    var (t1, fed) := T1.Feed(s.t1, Data(m));
    var icc := CardStatus(s.core.slot);
    ReplySays(cap, 0x80, m, icc, true, 0x05, 0, []);
    match fed
    case Immediate(bytes) => ReplySays(cap, 0x80, m, icc, false, 0, 0, bytes);
    case Apdu(apdu) =>
      RelayIs(s.(t1 := t1), ParseHeader(m).value, apdu, w);
      RelayedAlike(s, t1, apdu, w.driver);
      ReplySays(cap, 0x80, m, 0, false, 0, 0, T1.CardResponse(t1, RelayedTo(s, apdu, w.driver).1, w.took).1);
  }

  lemma RelayedAlike(s: Service, t1: T1.Endpoint, apdu: seq<byte>, d: Driver)
    ensures RelayedTo(s.(t1 := t1), apdu, d) == RelayedTo(s, apdu, d)
  {
  }

  lemma DataIs(m: seq<byte>)
    requires |m| >= 10 && |m| >= 10 + FromLe32(m[1], m[2], m[3], m[4])
    ensures m[10..10 + |Data(m)|] == Data(m)
  {
    hide FromLe32;
  }

  lemma RoutedTruncatedTold(s: Service, m: seq<byte>, w: World, cap: u32)
    requires Settled(s) && s.armed && s.core.protocol == 1
    requires |m| >= 10 && m[0] == 0x6F && |m| < 10 + FromLe32(m[1], m[2], m[3], m[4])
    ensures T1.Valid(s.t1)
    ensures var (after, r) := Served(s, m, w, cap);
            after == s.(core := Failing(s.core, 10)) && Refuses(cap, r, m, 0x81, CardStatus(s.core.slot), 0)
  {
    hide Says, T1.Valid, FromLe32, Reply, Delegated;
    SettledIsValid(s);
    ReplySays(cap, 0x81, m, CardStatus(s.core.slot), true, 0, 0, []);
  }
}
