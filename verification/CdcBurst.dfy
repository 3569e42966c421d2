/** The burst serve loop of CDC-class transports, and its arrival-time bound. */
module CdcBurst {
  import opened Bytes
  import opened GemPc
  import IfdCodec

  const TICKS: nat := 0x1_0000_0000
  const INTER_BYTE_STALL: nat := 10
  const NAK_FRAME: seq<byte> := [SYNC, CTRL_NAK, 0x16]

  // ---- The serving core, one byte at a time ----

  // What the command handler answers: the wire frames after the echo, whether the caller
  // must stop for a snapshot, and how often the card stalled long enough for an interim frame.
  datatype Reply = Reply(notify: seq<byte>, response: seq<byte>, snapshot: bool, stalls: nat)

  type Icc = n: byte | n <= 2

  datatype Windows = Windows(tight: nat, xfrBlock: nat, powerOn: nat)

  // The windows at a tick rate, in truncating 32-bit arithmetic and never zero.
  function WindowsAt(hz: nat): Windows {
    Windows(Ticks(2500, hz), Ticks(7500, hz), Ticks(59500, hz))
  }

  function Ticks(ms: nat, hz: nat): nat {
    var ticks := ms * hz % 0x1_0000_0000 / 1000;
    if ticks < 1 then 1 else ticks
  }

  // The handler is any deterministic state machine over commands, polls, and responses that
  // were dropped; bridged says whether a writer for interim frames is registered.
  datatype Firmware<!H> = Firmware(
    handle: (H, seq<byte>, nat) -> (H, Reply),
    poll: (H, nat) -> H,
    dropped: H -> H,
    icc: H -> Icc,
    bridged: bool,
    nakOnError: bool,
    windows: Windows)

  datatype Server<H> = Server(parser: Parser, lastByte: nat, handler: H, frameDone: nat, window: nat, lateDrops: nat)

  // Frames the stall hook wrote while the command ran, then what is left to write.
  datatype Action = Respond(hooked: List<seq<byte>>, echo: seq<byte>, reply: Reply) | Nak | Silent

  // Elapsed ticks as the wrapping 32-bit counter shows them.
  function Elapsed(since: nat, now: nat): nat {
    (now - since) % TICKS
  }

  function WindowFor<H>(fw: Firmware<H>, ccid: seq<byte>): nat {
    if ccid == [] then fw.windows.tight
    else if ccid[0] == IfdCodec.PC_XFR_BLOCK then fw.windows.xfrBlock
    else if ccid[0] == IfdCodec.PC_ICC_POWER_ON then fw.windows.powerOn
    else fw.windows.tight
  }

  // Interim frames of one exchange: only a bridged XfrBlock has any.
  function Stalls<H>(fw: Firmware<H>, ccid: seq<byte>, reply: Reply): nat {
    if fw.bridged && ccid != [] && ccid[0] == IfdCodec.PC_XFR_BLOCK then reply.stalls else 0
  }

  // The hook counts its frames in one byte.
  function Emitted<H>(fw: Firmware<H>, ccid: seq<byte>, reply: Reply): nat {
    Stalls(fw, ccid, reply) % 0x100
  }

  // One window of the command for each interim frame counted.
  function Extension<H>(fw: Firmware<H>, ccid: seq<byte>, reply: Reply): nat {
    WindowFor(fw, ccid) * Emitted(fw, ccid, reply)
  }

  function Repeated(frame: seq<byte>, n: nat): List<seq<byte>> {
    if n == 0 then Nil else Cons(frame, Repeated(frame, n - 1))
  }

  function InterimMessage(ccid: seq<byte>, icc: Icc): seq<byte> {
    IfdCodec.FirmwareInterim(if |ccid| > 6 then ccid[6] else 0, icc)
  }

  function Interim(ccid: seq<byte>, icc: Icc): seq<byte> {
    Build(InterimMessage(ccid, icc))
  }

  // The hook writes the echo before its first interim frame.
  function Hooked<H>(fw: Firmware<H>, h: H, ccid: seq<byte>, frame: seq<byte>, reply: Reply): List<seq<byte>> {
    var n := Stalls(fw, ccid, reply);
    if n == 0 then Nil else Cons(frame, Repeated(Interim(ccid, fw.icc(h)), n))
  }

  // The loop's own echo is empty once the hook is known to have written it.
  function OwnEcho<H>(fw: Firmware<H>, ccid: seq<byte>, frame: seq<byte>, reply: Reply): seq<byte> {
    if Emitted(fw, ccid, reply) > 0 then [] else frame
  }

  function Response<H>(fw: Firmware<H>, h: H, ccid: seq<byte>, frame: seq<byte>, reply: Reply): Action {
    Respond(Hooked(fw, h, ccid, frame, reply), OwnEcho(fw, ccid, frame, reply), reply)
  }

  function AfterStall(p: Parser, gap: nat): Parser {
    if gap > INTER_BYTE_STALL then FRESH else p
  }

  function FeedByte<H>(fw: Firmware<H>, s: Server<H>, b: byte, tick: nat): (Server<H>, Action) {
    var (parser, event) := Feed(AfterStall(s.parser, Elapsed(s.lastByte, tick)), b);
    var fed := s.(parser := parser, lastByte := tick);
    match event
    case None => (fed, Silent)
    case Some(Error(_)) => (fed, if fw.nakOnError then Nak else Silent)
    case Some(Command(ccid)) =>
      var (handler, reply) := fw.handle(s.handler, ccid, tick);
      (fed.(handler := handler, frameDone := tick + Extension(fw, ccid, reply), window := WindowFor(fw, ccid)),
       Response(fw, s.handler, ccid, parser.received, reply))
  }

  predicate Expired<H>(s: Server<H>, now: nat) {
    Elapsed(s.frameDone, now) > s.window
  }

  // ---- The burst loop ----

  // A byte of a burst with what the clock and the wire do around it, and the tick at which it
  // really arrived, which the loop does not see.
  datatype Sample = Sample(b: byte, arrival: nat, feedTick: nat, postTick: nat, writes: Writes)

  datatype Writes = Writes(echo: bool, notify: bool, response: bool)

  datatype Verdict = NothingDue | Late | Sent | WriteFailed | NakSent | NakFailed | Snapshot(sent: bool)

  datatype Turn<H> = Turn(server: Server<H>, frames: List<seq<byte>>, verdict: Verdict)

  // The frames of one exchange that reach the wire, in order, up to the first failure.
  function Written(echo: seq<byte>, reply: Reply, w: Writes): List<seq<byte>> {
    if !w.echo then Nil
    else Cons(echo,
      if reply.notify == [] then Closing(reply, w)
      else if !w.notify then Nil
      else Cons(reply.notify, Closing(reply, w)))
  }

  function Closing(reply: Reply, w: Writes): List<seq<byte>> {
    if w.response then Cons(reply.response, Nil) else Nil
  }

  predicate AllWritten(reply: Reply, w: Writes) {
    w.echo && (reply.notify == [] || w.notify) && w.response
  }

  function ServeByte<H>(fw: Firmware<H>, s: Server<H>, floor: nat, x: Sample): Turn<H> {
    var (fed, action) := FeedByte(fw, s, x.b, x.feedTick);
    match action
    case Silent => Turn(fed, Nil, NothingDue)
    case Nak => if x.writes.echo then Turn(fed, Cons(NAK_FRAME, Nil), NakSent) else Turn(fed, Nil, NakFailed)
    case Respond(hooked, echo, reply) =>
      var anchored := fed.(frameDone := floor);
      if Expired(anchored, x.postTick) then
        Turn(anchored.(lateDrops := anchored.lateDrops + 1, handler := fw.dropped(anchored.handler)), hooked, Late)
      else
        var sent := AllWritten(reply, x.writes);
        Turn(anchored, Append(hooked, Written(echo, reply, x.writes)),
             if reply.snapshot then Snapshot(sent) else if sent then Sent else WriteFailed)
  }

  datatype Burst = ReadIdle(now: nat) | Bytes(readEnd: nat, capacity: nat, samples: List<Sample>)

  datatype Served<H> = Served(server: Server<H>, frames: List<seq<byte>>, verdicts: List<Verdict>, stopped: bool)

  function ServeBytes<H>(fw: Firmware<H>, s: Server<H>, floor: nat, xs: List<Sample>): Served<H>
    decreases xs
  {
    match xs
    case Nil => Served(s, Nil, Nil, false)
    case Cons(x, rest) =>
      var t := ServeByte(fw, s, floor, x);
      if t.verdict.Snapshot? then Served(t.server, t.frames, Cons(t.verdict, Nil), true)
      else
        var later := ServeBytes(fw, t.server, floor, rest);
        Served(later.server, Append(t.frames, later.frames), Cons(t.verdict, later.verdicts), later.stopped)
  }

  // The floor after a read: raised by proof that the ring drained, and only then.
  function NextFloor(floor: nat, burst: Burst, stopped: bool): nat {
    match burst
    case ReadIdle(now) => now
    case Bytes(readEnd, capacity, samples) => Raised(floor, readEnd, Length(samples) >= capacity, stopped)
  }

  function Raised(floor: nat, readEnd: nat, full: bool, stopped: bool): nat {
    if full || stopped then floor else readEnd
  }

  function IdlePoll<H>(fw: Firmware<H>, s: Server<H>, now: nat): Server<H> {
    s.(parser := if s.parser.phase.WaitSync? then s.parser else AfterStall(s.parser, Elapsed(s.lastByte, now)),
       handler := fw.poll(s.handler, now))
  }

  class Wire {
    var frames: List<seq<byte>>

    constructor ()
      ensures frames == Nil
    {
      frames := Nil;
    }

    // What the stall hook put on the wire while a command ran.
    method Carry(hooked: List<seq<byte>>)
      modifies this
      ensures frames == Append(old(frames), hooked)
    {
      frames := Append(frames, hooked);
    }

    method WriteFrame(bytes: seq<byte>, ok: bool)
      modifies this
      ensures frames == Append(old(frames), if ok then Cons(bytes, Nil) else Nil)
    {
      AppendNil(frames);
      if ok {
        frames := Append(frames, Cons(bytes, Nil));
      }
    }
  }

  datatype Outcome = Outcome(
    bytesRead: nat, responses: nat, naks: nat, lateDropped: nat, writeFailures: nat, idle: bool, snapshot: bool)

  const NO_OUTCOME := Outcome(0, 0, 0, 0, 0, false, false)

  // How each verdict is counted.
  function Counted(o: Outcome, v: Verdict): Outcome {
    match v
    case NothingDue => o
    case Late => o.(lateDropped := o.lateDropped + 1)
    case Sent => o.(responses := o.responses + 1)
    case WriteFailed => o.(writeFailures := o.writeFailures + 1)
    case NakSent => o.(naks := o.naks + 1)
    case NakFailed => o.(writeFailures := o.writeFailures + 1)
    case Snapshot(sent) =>
      (if sent then o.(responses := o.responses + 1) else o.(writeFailures := o.writeFailures + 1)).(snapshot := true)
  }

  function Tally(o: Outcome, vs: List<Verdict>): Outcome
    decreases vs
  {
    match vs
    case Nil => o
    case Cons(v, rest) => Tally(Counted(o, v), rest)
  }

  class CdcBurstServe<!H> {
    const fw: Firmware<H>
    var server: Server<H>
    var arrivalFloor: nat

    constructor (fw: Firmware<H>, server: Server<H>, now: nat)
      ensures this.fw == fw && this.server == server && arrivalFloor == now
    {
      this.fw, this.server, arrivalFloor := fw, server, now;
    }

    method ServeOnce(wire: Wire, burst: Burst) returns (out: Outcome)
      requires burst.Bytes? ==> burst.samples.Cons?
      modifies this`server, this`arrivalFloor, wire
      ensures burst.ReadIdle? ==>
                && server == IdlePoll(fw, old(server), burst.now) && arrivalFloor == burst.now
                && wire.frames == old(wire.frames) && out == NO_OUTCOME.(idle := true)
      ensures burst.Bytes? ==>
                var served := ServeBytes(fw, old(server), old(arrivalFloor), burst.samples);
                && server == served.server
                && wire.frames == Append(old(wire.frames), served.frames)
                && arrivalFloor == NextFloor(old(arrivalFloor), burst, served.stopped)
                && out == Tally(NO_OUTCOME.(bytesRead := Length(burst.samples)), served.verdicts)
    {
      hide FeedByte, Tally, Length, ServeBytes, Expired, Written, AllWritten, Ahead;
      if burst.ReadIdle? {
        arrivalFloor := burst.now;
        server := IdlePoll(fw, server, burst.now);
        return NO_OUTCOME.(idle := true);
      }
      out := NO_OUTCOME.(bytesRead := Length(burst.samples));
      ghost var f0, o0 := wire.frames, out;
      var floor := arrivalFloor;
      var left := burst.samples;
      ghost var whole := ServeBytes(fw, server, floor, left);
      LoopStarts(f0, o0, whole);
      while left.Cons?
        invariant arrivalFloor == floor
        invariant Ahead(f0, o0, whole, wire.frames, out, ServeBytes(fw, server, floor, left))
        decreases left
      {
        var x := left.head;
        LoopTurns(f0, o0, whole, wire.frames, out, fw, server, floor, left);
        var (fed, action) := FeedByte(fw, server, x.b, x.feedTick);
        server, left := fed, left.tail;
        match action
        case Silent =>
          AppendNil(wire.frames);
        case Nak =>
          wire.WriteFrame(NAK_FRAME, x.writes.echo);
          out := Counted(out, if x.writes.echo then NakSent else NakFailed);
        case Respond(hooked, echo, reply) =>
          ghost var f1 := wire.frames;
          wire.Carry(hooked);
          server := server.(frameDone := floor);
          if Expired(server, x.postTick) {
            server := server.(lateDrops := server.lateDrops + 1, handler := fw.dropped(server.handler));
            out := Counted(out, Late);
            continue;
          }
          var sent := WriteExchange(wire, echo, reply, x.writes);
          AppendAssoc(f1, hooked, Written(echo, reply, x.writes));
          if reply.snapshot {
            out := Counted(out, Snapshot(sent));
            return;
          }
          out := Counted(out, if sent then Sent else WriteFailed);
      }
      LoopEnds(f0, o0, whole, wire.frames, out, fw, server, floor);
      if Length(burst.samples) < burst.capacity {
        arrivalFloor := burst.readEnd;
      }
    }
  }

  // Echo, notify if there is one, response: stopping at the first write that fails.
  method WriteExchange(wire: Wire, echo: seq<byte>, reply: Reply, w: Writes) returns (sent: bool)
    modifies wire
    ensures wire.frames == Append(old(wire.frames), Written(echo, reply, w)) && sent == AllWritten(reply, w)
  {
    ghost var f0 := wire.frames;
    wire.WriteFrame(echo, w.echo);
    if !w.echo { return false; }
    if reply.notify != [] {
      wire.WriteFrame(reply.notify, w.notify);
      AppendAssoc(f0, Cons(echo, Nil), if w.notify then Cons(reply.notify, Nil) else Nil);
      if !w.notify { return false; }
    }
    ghost var f1 := if reply.notify == [] then Cons(echo, Nil) else Append(Cons(echo, Nil), Cons(reply.notify, Nil));
    wire.WriteFrame(reply.response, w.response);
    AppendAssoc(f0, f1, Closing(reply, w));
    assert Append(Cons(echo, Nil), Cons(reply.notify, Nil)) == Cons(echo, Cons(reply.notify, Nil));
    if reply.notify != [] {
      assert Append(Cons(reply.notify, Nil), Closing(reply, w)) == Cons(reply.notify, Closing(reply, w));
    }
    sent := w.response;
  }

  // What the loop has written and counted, with what serving the rest will add, is the whole.
  ghost predicate Ahead<H>(f0: List<seq<byte>>, o0: Outcome, whole: Served<H>, f: List<seq<byte>>, o: Outcome,
                           left: Served<H>)
  {
    && Append(f0, whole.frames) == Append(f, left.frames)
    && Tally(o0, whole.verdicts) == Tally(o, left.verdicts)
    && whole.server == left.server && whole.stopped == left.stopped
  }

  lemma LoopStarts<H>(f0: List<seq<byte>>, o0: Outcome, whole: Served<H>)
    ensures Ahead(f0, o0, whole, f0, o0, whole)
  {
  }

  lemma LoopTurns<H>(f0: List<seq<byte>>, o0: Outcome, whole: Served<H>, f: List<seq<byte>>, o: Outcome,
                     fw: Firmware<H>, s: Server<H>, floor: nat, left: List<Sample>)
    requires left.Cons? && Ahead(f0, o0, whole, f, o, ServeBytes(fw, s, floor, left))
    ensures var t := ServeByte(fw, s, floor, left.head);
            if t.verdict.Snapshot? then
              && Append(f0, whole.frames) == Append(f, t.frames)
              && Tally(o0, whole.verdicts) == Counted(o, t.verdict)
              && whole.server == t.server && whole.stopped
            else
              Ahead(f0, o0, whole, Append(f, t.frames), Counted(o, t.verdict),
                    ServeBytes(fw, t.server, floor, left.tail))
  {
    hide ServeByte, Counted;
    var t := ServeByte(fw, s, floor, left.head);
    assert Tally(o, Cons(t.verdict, Nil)) == Tally(Counted(o, t.verdict), Nil);
    if !t.verdict.Snapshot? {
      AppendAssoc(f, t.frames, ServeBytes(fw, t.server, floor, left.tail).frames);
    }
  }

  lemma LoopEnds<H>(f0: List<seq<byte>>, o0: Outcome, whole: Served<H>, f: List<seq<byte>>, o: Outcome,
                    fw: Firmware<H>, s: Server<H>, floor: nat)
    requires Ahead(f0, o0, whole, f, o, ServeBytes(fw, s, floor, Nil))
    ensures Append(f0, whole.frames) == f && Tally(o0, whole.verdicts) == o && whole.server == s && !whole.stopped
  {
    AppendNil(f);
  }

  // ---- Bursts refine single bytes ----

  // The reference loop: one byte at a time, answering each command where it completes.
  function Plainly<H>(fw: Firmware<H>, s: Server<H>, xs: List<Sample>): (Server<H>, List<seq<byte>>)
    decreases xs
  {
    match xs
    case Nil => (s, Nil)
    case Cons(x, rest) =>
      var (fed, action) := FeedByte(fw, s, x.b, x.feedTick);
      var (last, later) := Plainly(fw, fed, rest);
      (last, Append(Frames(action), later))
  }

  // The echo of a command directly followed by its notify, if any, and its response; what the
  // stall hook wrote comes before.
  function Frames(action: Action): List<seq<byte>> {
    match action
    case Silent => Nil
    case Nak => Cons(NAK_FRAME, Nil)
    case Respond(hooked, echo, reply) => Append(hooked, Closely(echo, reply))
  }

  function Closely(echo: seq<byte>, reply: Reply): List<seq<byte>> {
    if reply.notify == [] then Cons(echo, Cons(reply.response, Nil))
    else Cons(echo, Cons(reply.notify, Cons(reply.response, Nil)))
  }

  // Nothing expired, failed to be written, or stopped the loop.
  predicate Smooth(vs: List<Verdict>) {
    match vs
    case Nil => true
    case Cons(v, rest) => (v.NothingDue? || v.Sent? || v.NakSent?) && Smooth(rest)
  }

  // Serving several reads in a row.
  function ServeReads<H>(fw: Firmware<H>, s: Server<H>, floor: nat, bursts: List<Burst>): Served<H>
    decreases bursts
  {
    match bursts
    case Nil => Served(s, Nil, Nil, false)
    case Cons(burst, rest) =>
      if burst.ReadIdle? then ServeReads(fw, IdlePoll(fw, s, burst.now), burst.now, rest)
      else
        var served := ServeBytes(fw, s, floor, burst.samples);
        if served.stopped then served
        else
          var later := ServeReads(fw, served.server, NextFloor(floor, burst, false), rest);
          Served(later.server, Append(served.frames, later.frames), Append(served.verdicts, later.verdicts),
                 later.stopped)
  }

  predicate NeverIdle(bursts: List<Burst>) {
    match bursts
    case Nil => true
    case Cons(burst, rest) => burst.Bytes? && NeverIdle(rest)
  }

  function AllSamples(bursts: List<Burst>): List<Sample>
    requires NeverIdle(bursts)
  {
    match bursts
    case Nil => Nil
    case Cons(burst, rest) => Append(burst.samples, AllSamples(rest))
  }

  // Two servers that differ at most in deadline bookkeeping.
  predicate SameService<H(==)>(a: Server<H>, b: Server<H>) {
    a.parser == b.parser && a.lastByte == b.lastByte && a.handler == b.handler
  }

  lemma FeedSame<H>(fw: Firmware<H>, a: Server<H>, b: Server<H>, x: byte, tick: nat)
    requires SameService(a, b)
    ensures SameService(FeedByte(fw, a, x, tick).0, FeedByte(fw, b, x, tick).0)
    ensures FeedByte(fw, a, x, tick).1 == FeedByte(fw, b, x, tick).1
  {
    hide Feed;
  }

  lemma SmoothByte<H>(fw: Firmware<H>, s: Server<H>, floor: nat, x: Sample)
    requires var v := ServeByte(fw, s, floor, x).verdict; v.NothingDue? || v.Sent? || v.NakSent?
    ensures var (fed, action) := FeedByte(fw, s, x.b, x.feedTick);
            var t := ServeByte(fw, s, floor, x);
            SameService(t.server, fed) && t.frames == Frames(action)
  {
    hide FeedByte;
  }

  lemma {:induction false} SmoothBytes<H>(fw: Firmware<H>, a: Server<H>, b: Server<H>, floor: nat, xs: List<Sample>)
    requires SameService(a, b) && Smooth(ServeBytes(fw, a, floor, xs).verdicts)
    ensures var served := ServeBytes(fw, a, floor, xs);
            var (last, frames) := Plainly(fw, b, xs);
            served.frames == frames && SameService(served.server, last) && !served.stopped
    decreases xs
  {
    hide ServeByte, FeedByte, SameService;
    match xs
    case Nil =>
    case Cons(x, rest) =>
      var t := ServeByte(fw, a, floor, x);
      SmoothByte(fw, a, floor, x);
      FeedSame(fw, a, b, x.b, x.feedTick);
      SameTransitive(t.server, FeedByte(fw, a, x.b, x.feedTick).0, FeedByte(fw, b, x.b, x.feedTick).0);
      SmoothBytes(fw, t.server, FeedByte(fw, b, x.b, x.feedTick).0, floor, rest);
  }

  lemma SameTransitive<H>(a: Server<H>, b: Server<H>, c: Server<H>)
    requires SameService(a, b) && SameService(b, c)
    ensures SameService(a, c)
  {
  }

  lemma {:induction false} SmoothAppend(a: List<Verdict>, b: List<Verdict>)
    ensures Smooth(Append(a, b)) <==> Smooth(a) && Smooth(b)
  {
    match a
    case Nil =>
    case Cons(_, rest) => SmoothAppend(rest, b);
  }

  lemma {:induction false} PlainlyAppend<H>(fw: Firmware<H>, s: Server<H>, xs: List<Sample>, ys: List<Sample>)
    ensures var (mid, a) := Plainly(fw, s, xs);
            var (last, b) := Plainly(fw, mid, ys);
            Plainly(fw, s, Append(xs, ys)) == (last, Append(a, b))
    decreases xs
  {
    hide FeedByte, Frames;
    match xs
    case Nil =>
    case Cons(x, rest) =>
      var (fed, action) := FeedByte(fw, s, x.b, x.feedTick);
      PlainlyAppend(fw, fed, rest, ys);
      var (mid, a) := Plainly(fw, fed, rest);
      AppendAssoc(Frames(action), a, Plainly(fw, mid, ys).1);
  }

  // However one byte stream is divided into bursts, with nothing expired, failed or stopped
  // the wire carries what the byte-at-a-time loop writes: the same frames in the same order,
  // each echo directly followed by its own notify and response.
  lemma {:induction false} BurstsRefineBytes<H>(fw: Firmware<H>, a: Server<H>, b: Server<H>, floor: nat,
                                                bursts: List<Burst>)
    requires NeverIdle(bursts) && SameService(a, b)
    requires Smooth(ServeReads(fw, a, floor, bursts).verdicts)
    ensures var served := ServeReads(fw, a, floor, bursts);
            var (last, frames) := Plainly(fw, b, AllSamples(bursts));
            served.frames == frames && SameService(served.server, last) && !served.stopped
    decreases bursts
  {
    hide SameService, ServeBytes, Plainly;
    match bursts
    case Nil =>
      PlainlyNil(fw, b);
    case Cons(burst, rest) =>
      var served := ServeBytes(fw, a, floor, burst.samples);
      var mid := Plainly(fw, b, burst.samples).0;
      if !served.stopped {
        SmoothAppend(served.verdicts, ServeReads(fw, served.server, NextFloor(floor, burst, false), rest).verdicts);
      }
      SmoothBytes(fw, a, b, floor, burst.samples);
      BurstsRefineBytes(fw, served.server, mid, NextFloor(floor, burst, false), rest);
      PlainlyAppend(fw, b, burst.samples, AllSamples(rest));
  }

  lemma PlainlyNil<H>(fw: Firmware<H>, s: Server<H>)
    ensures Plainly(fw, s, Nil) == (s, Nil)
  {
  }

  // ---- What a whole stream of commands puts on the wire ----

  function Payload(xs: List<Sample>): seq<byte> {
    match xs
    case Nil => []
    case Cons(x, rest) => [x.b] + Payload(rest)
  }

  // No gap long enough to make the server abandon a partial frame.
  predicate Flowing(last: nat, xs: List<Sample>)
    decreases xs
  {
    match xs
    case Nil => true
    case Cons(x, rest) => Elapsed(last, x.feedTick) <= INTER_BYTE_STALL && Flowing(x.feedTick, rest)
  }

  // The samples of one frame, with a gap allowed only before its first byte.
  predicate CarriesFrame(ccid: seq<byte>, xs: List<Sample>) {
    Message(ccid) && Payload(xs) == Build(ccid) && xs.Cons? && Flowing(xs.head.feedTick, xs.tail)
  }

  function LastTick(tick: nat, xs: List<Sample>): nat
    decreases xs
  {
    match xs
    case Nil => tick
    case Cons(x, rest) => LastTick(x.feedTick, rest)
  }

  // The server once it has answered a command whose last byte came at tick.
  function Answered<H>(fw: Firmware<H>, s: Server<H>, ccid: seq<byte>, tick: nat): (Server<H>, Reply) {
    var (handler, reply) := fw.handle(s.handler, ccid, tick);
    (Server(Finish(Build(ccid)), tick, handler, tick + Extension(fw, ccid, reply), WindowFor(fw, ccid), s.lateDrops),
     reply)
  }

  lemma MidFrameByte<H>(fw: Firmware<H>, s: Server<H>, ccid: seq<byte>, k: nat, b: byte, tick: nat)
    requires Message(ccid) && k < |Build(ccid)| && b == Build(ccid)[k] && At(ccid, s.parser, k)
    requires k == 0 || Elapsed(s.lastByte, tick) <= INTER_BYTE_STALL
    ensures if k < |ccid| + 2 then
              FeedByte(fw, s, b, tick) == (s.(parser := Midway(ccid, k + 1), lastByte := tick), Silent)
            else
              var (next, reply) := Answered(fw, s, ccid, tick);
              FeedByte(fw, s, b, tick) == (next, Response(fw, s.handler, ccid, Build(ccid), reply))
  {
    hide Feed, Build, Message, Midway, WindowFor, Extension, Response;
    var p := AfterStall(s.parser, Elapsed(s.lastByte, tick));
    if k < |ccid| + 2 {
      SilentStep(ccid, p, k);
    } else {
      LastStep(ccid);
    }
  }

  lemma {:induction false} PlainlyFrame<H>(fw: Firmware<H>, s: Server<H>, ccid: seq<byte>, k: nat, xs: List<Sample>)
    requires Message(ccid) && k < |Build(ccid)| && Payload(xs) == Build(ccid)[k..] && At(ccid, s.parser, k)
    requires xs.Cons? && Flowing(xs.head.feedTick, xs.tail)
    requires k == 0 || Elapsed(s.lastByte, xs.head.feedTick) <= INTER_BYTE_STALL
    ensures var (next, reply) := Answered(fw, s, ccid, LastTick(0, xs));
            Plainly(fw, s, xs) == (next, Frames(Response(fw, s.handler, ccid, Build(ccid), reply)))
    decreases xs
  {
    hide FeedByte, Build, Message, Midway, Feed, WindowFor, Extension, Response, Closely;
    var x := xs.head;
    HeadOfPayload(xs, Build(ccid), k);
    MidFrameByte(fw, s, ccid, k, x.b, x.feedTick);
    if k < |ccid| + 2 {
      PlainlyFrame(fw, s.(parser := Midway(ccid, k + 1), lastByte := x.feedTick), ccid, k + 1, xs.tail);
    } else {
      var (next, reply) := Answered(fw, s, ccid, x.feedTick);
      AppendNil(Frames(Response(fw, s.handler, ccid, Build(ccid), reply)));
    }
  }

  lemma HeadOfPayload(xs: List<Sample>, frame: seq<byte>, k: nat)
    requires xs.Cons? && k < |frame| && Payload(xs) == frame[k..]
    ensures xs.head.b == frame[k] && Payload(xs.tail) == frame[k + 1..]
    ensures xs.tail.Nil? <==> k + 1 == |frame|
  {
    assert Payload(xs)[1..] == Payload(xs.tail);
    assert frame[k..][1..] == frame[k + 1..];
  }

  datatype Order = Order(ccid: seq<byte>, samples: List<Sample>)

  predicate Carried(orders: List<Order>) {
    match orders
    case Nil => true
    case Cons(o, rest) => CarriesFrame(o.ccid, o.samples) && Carried(rest)
  }

  function Stream(orders: List<Order>): List<Sample> {
    match orders
    case Nil => Nil
    case Cons(o, rest) => Append(o.samples, Stream(rest))
  }

  // Echo, notify, response of each command in turn, the handler stepping from one to the next.
  function Transcript<H>(fw: Firmware<H>, s: Server<H>, orders: List<Order>): List<seq<byte>>
    decreases orders
  {
    match orders
    case Nil => Nil
    case Cons(o, rest) =>
      var (next, reply) := Answered(fw, s, o.ccid, LastTick(0, o.samples));
      Append(Frames(Response(fw, s.handler, o.ccid, Build(o.ccid), reply)), Transcript(fw, next, rest))
  }

  lemma {:induction false} PlainlyOrders<H>(fw: Firmware<H>, s: Server<H>, orders: List<Order>)
    requires Carried(orders) && Idle(s.parser)
    ensures Plainly(fw, s, Stream(orders)).1 == Transcript(fw, s, orders)
    decreases orders
  {
    hide FeedByte, Build, Message, Midway, Frames, WindowFor, Plainly, Extension, Response;
    match orders
    case Nil =>
      PlainlyNil(fw, s);
    case Cons(o, rest) =>
      assert Build(o.ccid)[0..] == Build(o.ccid);
      PlainlyFrame(fw, s, o.ccid, 0, o.samples);
      PlainlyAppend(fw, s, o.samples, Stream(rest));
      PlainlyOrders(fw, Answered(fw, s, o.ccid, LastTick(0, o.samples)).0, rest);
  }

  // Where a command may start: on an idle parser, or after a pause long enough that whatever
  // fragment was there is dropped.
  predicate StartsAfresh<H>(s: Server<H>, orders: List<Order>) {
    Idle(s.parser) || (orders.Cons? && orders.head.samples.Cons? && Paused(s, orders.head.samples.head.feedTick))
  }

  predicate Paused<H>(s: Server<H>, tick: nat) {
    Elapsed(s.lastByte, tick) > 10
  }

  // A pause of more than ten ticks makes the server forget a partial frame, a shorter one not.
  lemma PauseForgets<H>(fw: Firmware<H>, s: Server<H>, b: byte, tick: nat)
    ensures Paused(s, tick) ==> FeedByte(fw, s, b, tick) == FeedByte(fw, s.(parser := FRESH), b, tick)
    ensures !Paused(s, tick) ==> FeedByte(fw, s, b, tick).0.parser == Feed(s.parser, b).0
    ensures FeedByte(fw, s, b, tick).0.lastByte == tick
  {
    hide Feed, Response, WindowFor, Extension;
  }

  lemma PausedOrders<H>(fw: Firmware<H>, s: Server<H>, orders: List<Order>)
    requires Carried(orders) && StartsAfresh(s, orders)
    ensures Plainly(fw, s, Stream(orders)).1 == Transcript(fw, s, orders)
  {
    hide FeedByte, Build, Message, Frames, Extension, Response, WindowFor;
    if Idle(s.parser) {
      PlainlyOrders(fw, s, orders);
    } else {
      var clean := s.(parser := FRESH);
      PauseForgets(fw, s, orders.head.samples.head.b, orders.head.samples.head.feedTick);
      PlainlyOrders(fw, clean, orders);
    }
  }

  // End to end: commands sent back to back, divided into bursts anywhere, are each echoed
  // byte for byte and answered before the next echo, whatever fragment a pause had left.
  lemma BurstsServeCommands<H>(fw: Firmware<H>, s: Server<H>, floor: nat, bursts: List<Burst>, orders: List<Order>)
    requires NeverIdle(bursts) && Carried(orders) && StartsAfresh(s, orders) && AllSamples(bursts) == Stream(orders)
    requires Smooth(ServeReads(fw, s, floor, bursts).verdicts)
    ensures ServeReads(fw, s, floor, bursts).frames == Transcript(fw, s, orders)
  {
    hide ServeReads, Plainly, Smooth, Stream, AllSamples, Transcript, Carried, NeverIdle, StartsAfresh;
    BurstsRefineBytes(fw, s, s, floor, bursts);
    PausedOrders(fw, s, orders);
  }

  // In bytes: a command is echoed before anything else, its interim frames follow, then its
  // notify and response. The loop repeats the echo exactly when the hook's count, one byte
  // wide, has come round to zero.
  lemma EchoedInBytes<H>(fw: Firmware<H>, h: H, ccid: seq<byte>, frame: seq<byte>, reply: Reply)
    ensures var n := Stalls(fw, ccid, reply);
            Join(Frames(Response(fw, h, ccid, frame, reply)))
              == frame + Join(Repeated(Interim(ccid, fw.icc(h)), n))
                 + (if n > 0 && n % 0x100 == 0 then frame else []) + reply.notify + reply.response
  {
    hide Stalls, Interim, Repeated, Build;
    var n, interims := Stalls(fw, ccid, reply), Repeated(Interim(ccid, fw.icc(h)), Stalls(fw, ccid, reply));
    var echo := OwnEcho(fw, ccid, frame, reply);
    JoinAppend(Hooked(fw, h, ccid, frame, reply), Closely(echo, reply));
    CloselyInBytes(echo, reply);
    if n == 0 { NoneRepeated(Interim(ccid, fw.icc(h))); }
  }

  lemma NoneRepeated(frame: seq<byte>)
    ensures Repeated(frame, 0) == Nil
  {
  }

  lemma CloselyInBytes(echo: seq<byte>, reply: Reply)
    ensures Join(Closely(echo, reply)) == echo + reply.notify + reply.response
  {
    assert Join(Cons(reply.response, Nil)) == reply.response;
    if reply.notify != [] {
      JoinCons(echo, Cons(reply.notify, Cons(reply.response, Nil)));
      JoinCons(reply.notify, Cons(reply.response, Nil));
    }
  }

  lemma JoinCons(part: seq<byte>, rest: List<seq<byte>>)
    ensures Join(Cons(part, rest)) == part + Join(rest)
  {
  }

  // ---- What each verdict leaves on the wire ----

  predicate Prefix(a: List<seq<byte>>, b: List<seq<byte>>)
    decreases a
  {
    match a
    case Nil => true
    case Cons(x, rest) => b.Cons? && b.head == x && Prefix(rest, b.tail)
  }

  lemma {:induction false} AppendIsPrefix(a: List<seq<byte>>, b: List<seq<byte>>, c: List<seq<byte>>)
    requires Prefix(b, c)
    ensures Prefix(Append(a, b), Append(a, c))
  {
    if a.Cons? { AppendIsPrefix(a.tail, b, c); }
  }

  // A byte reaches the handler only if it completes a command; a damaged frame is refused if
  // the server is set to, once, and leaves it as it was.
  lemma DamageIsRefused<H>(fw: Firmware<H>, s: Server<H>, b: byte, tick: nat)
    ensures var (parser, event) := Feed(AfterStall(s.parser, Elapsed(s.lastByte, tick)), b);
            var (fed, action) := FeedByte(fw, s, b, tick);
            && (action.Respond? <==> event.Some? && event.value.Command?)
            && (action.Nak? <==> event.Some? && event.value.Error? && fw.nakOnError)
            && (!action.Respond? ==> fed == s.(parser := parser, lastByte := tick))
  {
    hide Feed, AfterStall, Elapsed, WindowFor, Extension, Hooked, OwnEcho;
    var event := Feed(AfterStall(s.parser, Elapsed(s.lastByte, tick)), b).1;
    match event
    case None =>
    case Some(Error(_)) =>
    case Some(Command(_)) =>
  }

  // Answer or silence: of a late response nothing is written but what the stall hook had, it is
  // counted, and its handler is told; a response that was sent is on the wire as a whole; one
  // whose write failed stops where it failed. A refusal is the three bytes of a NAK.
  lemma VerdictMeans<H>(fw: Firmware<H>, s: Server<H>, floor: nat, x: Sample)
    ensures var (fed, action) := FeedByte(fw, s, x.b, x.feedTick);
            var t := ServeByte(fw, s, floor, x);
            match t.verdict
            case NothingDue => action.Silent? && t.frames == Nil && t.server == fed
            case NakSent => action.Nak? && x.writes.echo && t.frames == Cons([0x03, 0x15, 0x16], Nil) && t.server == fed
            case NakFailed => action.Nak? && !x.writes.echo && t.frames == Nil && t.server == fed
            case Late =>
              && action.Respond? && t.frames == action.hooked
              && t.server == fed.(frameDone := floor, lateDrops := fed.lateDrops + 1,
                                  handler := fw.dropped(fed.handler))
            case Sent =>
              && action.Respond? && !action.reply.snapshot && t.server == fed.(frameDone := floor)
              && t.frames == Frames(action)
            case WriteFailed =>
              && action.Respond? && !action.reply.snapshot && t.server == fed.(frameDone := floor)
              && Prefix(t.frames, Frames(action)) && t.frames != Frames(action)
            case Snapshot(sent) =>
              && action.Respond? && action.reply.snapshot && t.server == fed.(frameDone := floor)
              && Prefix(t.frames, Frames(action)) && (sent <==> t.frames == Frames(action))
  {
    hide FeedByte, Written, Closely;
    var (fed, action) := FeedByte(fw, s, x.b, x.feedTick);
    if action.Respond? {
      WrittenIsPrefix(action.echo, action.reply, x.writes);
      AppendIsPrefix(action.hooked, Written(action.echo, action.reply, x.writes), Closely(action.echo, action.reply));
      AppendInjects(action.hooked, Written(action.echo, action.reply, x.writes), Closely(action.echo, action.reply));
    }
  }

  lemma WrittenIsPrefix(echo: seq<byte>, reply: Reply, w: Writes)
    ensures Prefix(Written(echo, reply, w), Closely(echo, reply))
    ensures AllWritten(reply, w) <==> Written(echo, reply, w) == Closely(echo, reply)
  {
    var c, closing := Closing(reply, w), Cons(reply.response, Nil);
    assert Prefix(c, closing);
    assert Prefix(Cons(reply.notify, c), Cons(reply.notify, closing));
  }

  lemma {:induction false} AppendInjects(a: List<seq<byte>>, b: List<seq<byte>>, c: List<seq<byte>>)
    ensures Append(a, b) == Append(a, c) <==> b == c
  {
    if a.Cons? { AppendInjects(a.tail, b, c); }
  }

  function CountOf(vs: List<Verdict>, p: Verdict -> bool): nat {
    match vs
    case Nil => 0
    case Cons(v, rest) => (if p(v) then 1 else 0) + CountOf(rest, p)
  }

  predicate Delivered(v: Verdict) {
    v == Sent || v == Snapshot(true)
  }

  predicate Unwritten(v: Verdict) {
    v == WriteFailed || v == NakFailed || v == Snapshot(false)
  }

  predicate Dropped(v: Verdict) {
    v == Late
  }

  predicate Refused(v: Verdict) {
    v == NakSent
  }

  lemma CountedIs(o: Outcome, v: Verdict)
    ensures var t := Counted(o, v);
            && t.responses == o.responses + (if Delivered(v) then 1 else 0)
            && t.lateDropped == o.lateDropped + (if Dropped(v) then 1 else 0)
            && t.naks == o.naks + (if Refused(v) then 1 else 0)
            && t.writeFailures == o.writeFailures + (if Unwritten(v) then 1 else 0)
            && t.bytesRead == o.bytesRead && t.idle == o.idle
  {
  }

  // The counters of an iteration count the verdicts.
  lemma {:induction false} TallyCounts(o: Outcome, vs: List<Verdict>)
    ensures var t := Tally(o, vs);
            && t.responses == o.responses + CountOf(vs, Delivered)
            && t.lateDropped == o.lateDropped + CountOf(vs, Dropped)
            && t.naks == o.naks + CountOf(vs, Refused)
            && t.writeFailures == o.writeFailures + CountOf(vs, Unwritten)
            && t.bytesRead == o.bytesRead && t.idle == o.idle
    decreases vs
  {
    hide Counted, Delivered, Dropped, Refused, Unwritten;
    if vs.Cons? {
      CountedIs(o, vs.head);
      TallyCounts(Counted(o, vs.head), vs.tail);
    }
  }

  // ---- What a completed command sets ----

  // The byte that completes a command opens the window of its type, by one window the later for
  // each interim frame, which only a bridged XfrBlock has.
  lemma CommandOpensWindow<H>(fw: Firmware<H>, s: Server<H>, ccid: seq<byte>, b: byte, tick: nat)
    requires Message(ccid) && s.parser == Midway(ccid, |ccid| + 2) && b == Build(ccid)[|ccid| + 2] && !Paused(s, tick)
    ensures var (fed, action) := FeedByte(fw, s, b, tick);
            var (handler, reply) := fw.handle(s.handler, ccid, tick);
            var window := if ccid[0] == 0x6F then fw.windows.xfrBlock
                          else if ccid[0] == 0x62 then fw.windows.powerOn else fw.windows.tight;
            var interims := if fw.bridged && ccid[0] == 0x6F then reply.stalls else 0;
            && action.Respond? && action.reply == reply && fed.handler == handler
            && fed.window == window && fed.frameDone == tick + window * (interims % 256)
            && Length(action.hooked) == (if interims == 0 then 0 else 1 + interims)
  {
    hide Build, FeedByte, Midway, PayloadLength, Repeated, Interim;
    MidFrameByte(fw, s, ccid, |ccid| + 2, b, tick);
    var (handler, reply) := fw.handle(s.handler, ccid, tick);
    RepeatedLength(Interim(ccid, fw.icc(s.handler)), Stalls(fw, ccid, reply));
  }

  lemma {:induction false} RepeatedLength(frame: seq<byte>, n: nat)
    ensures Length(Repeated(frame, n)) == n
  {
    if n > 0 { RepeatedLength(frame, n - 1); }
  }

  // An idle read lets the handler poll, and drops a fragment that has been waiting for more
  // than ten ticks.
  lemma IdleForgets<H>(fw: Firmware<H>, s: Server<H>, now: nat)
    ensures var idle := IdlePoll(fw, s, now);
            && idle == s.(parser := idle.parser, handler := fw.poll(s.handler, now))
            && idle.parser == if !s.parser.phase.WaitSync? && Paused(s, now) then FRESH else s.parser
  {
  }

  // The tick counter has 32 bits.
  lemma ElapsedWraps(since: nat, now: nat)
    ensures since <= now < since + 0x1_0000_0000 ==> Elapsed(since, now) == now - since
    ensures Elapsed(since, now + 0x1_0000_0000) == Elapsed(since, now) == Elapsed(since + 0x1_0000_0000, now)
  {
  }

  // The windows at the two tick rates in use.
  lemma WindowsInUse()
    ensures WindowsAt(100) == Windows(250, 750, 5950) && WindowsAt(1000) == Windows(2500, 7500, 59500)
  {
  }

  lemma TicksAreWhole(ms: nat, hz: nat, n: nat)
    requires ms * hz < 0x1_0000_0000 && n > 1
    ensures Ticks(ms, hz) > 0
    ensures n <= Ticks(ms, hz) <==> 1000 * n <= ms * hz
  {
    var product := ms * hz;
    assert product % 0x1_0000_0000 == product;
  }

  // At any rate whose product fits 32 bits a window of more than one tick is no longer than
  // 2.5, 7.5 or 59.5 seconds, and one tick more would be.
  lemma WindowsAreWhole(hz: nat, n: nat)
    requires 59500 * hz < 0x1_0000_0000 && n > 1
    ensures WindowsAt(hz).tight > 0 && WindowsAt(hz).xfrBlock > 0 && WindowsAt(hz).powerOn > 0
    ensures n <= WindowsAt(hz).tight <==> 10 * n <= 25 * hz
    ensures n <= WindowsAt(hz).xfrBlock <==> 10 * n <= 75 * hz
    ensures n <= WindowsAt(hz).powerOn <==> 10 * n <= 595 * hz
  {
    hide Ticks;
    TicksAreWhole(2500, hz, n);
    TicksAreWhole(7500, hz, n);
    TicksAreWhole(59500, hz, n);
  }

  // An interim frame carries the number of its command and the card status, and asks for
  // twice the time; a command too short for a number gets the number zero.
  lemma InterimTold(ccid: seq<byte>, icc: Icc)
    ensures var number := if |ccid| >= 7 then ccid[6] else 0;
            InterimMessage(ccid, icc) == [0x80, 0, 0, 0, 0, 0, number, 0x80 + icc, 2, 0]
    ensures Interim(ccid, icc) == Build(InterimMessage(ccid, icc))
  {
    hide Build, Lrc, FromLe32, PayloadLength, Message;
    assert Le32(0) == [0, 0, 0, 0];
  }

  // ---- Deadline extensions ----

  // What a command's interim frames granted, as feed_byte left it in the deadline.
  function Granted<H>(fw: Firmware<H>, s: Server<H>, x: Sample): int {
    FeedByte(fw, s, x.b, x.feedTick).0.frameDone - x.feedTick
  }

  // The burst loop anchors the deadline at its floor and so forgets the extension. It agrees
  // with a loop that honours it unless the response falls between the two deadlines.
  lemma ExtensionIsLost<H>(fw: Firmware<H>, s: Server<H>, floor: nat, x: Sample)
    requires FeedByte(fw, s, x.b, x.feedTick).1.Respond?
    ensures var late := ServeByte(fw, s, floor, x).verdict.Late?;
            var window, extension := FeedByte(fw, s, x.b, x.feedTick).0.window, Granted(fw, s, x);
            && (late <==> Elapsed(floor, x.postTick) > window)
            && ((late <==> Elapsed(floor, x.postTick) > window + extension) <==>
                  extension == 0 || !(window < Elapsed(floor, x.postTick) <= window + extension))
  {
    hide FeedByte;
    GrantedIsExtension(fw, s, x);
  }

  lemma GrantedIsExtension<H>(fw: Firmware<H>, s: Server<H>, x: Sample)
    requires FeedByte(fw, s, x.b, x.feedTick).1.Respond?
    ensures Granted(fw, s, x) >= 0
  {
    hide Feed, WindowFor, Response;
  }

  lemma TickShift(n: int, k: nat)
    requires k < TICKS
    ensures (n - k) % TICKS == (if n % TICKS >= k then n % TICKS - k else n % TICKS - k + TICKS)
  {
  }

  // Where the deadline of feed_byte is used as it stands, the anchor lies in the future until
  // the extension has passed, and the wrapping difference calls a prompter response expired.
  lemma PromptAnswersExpire<H>(fw: Firmware<H>, s: Server<H>, x: Sample, now: nat)
    requires FeedByte(fw, s, x.b, x.feedTick).1.Respond?
    requires FeedByte(fw, s, x.b, x.feedTick).0.window + Granted(fw, s, x) < TICKS
    ensures var fed, extension := FeedByte(fw, s, x.b, x.feedTick).0, Granted(fw, s, x);
            Expired(fed, now) <==>
              Elapsed(x.feedTick, now) < extension || Elapsed(x.feedTick, now) > extension + fed.window
  {
    hide FeedByte;
    GrantedIsExtension(fw, s, x);
    var fed, extension := FeedByte(fw, s, x.b, x.feedTick).0, Granted(fw, s, x);
    TickShift(now - x.feedTick, extension);
    assert now - fed.frameDone == now - x.feedTick - extension;
  }

  // A card that stalls once on every exchange, and a handler that answers one byte.
  function Stalling(windows: Windows): Firmware<int> {
    Firmware((h, c, t) => (h, Reply([], [1], false, 1)), (h, t) => h, h => h, h => 0, true, false, windows)
  }

  // A server that has all of a frame but its last byte, which comes next.
  function AlmostThere(ccid: seq<byte>, tick: nat): Server<int>
    requires Message(ccid)
  {
    Server(Midway(ccid, |ccid| + 2), tick, 0, 0, 0, 0)
  }

  function LastByte(ccid: seq<byte>, arrival: nat, feed: nat, post: nat, writes: Writes): Sample
    requires Message(ccid)
  {
    Sample(Build(ccid)[|ccid| + 2], arrival, feed, post, writes)
  }

  lemma StallingServes(windows: Windows, ccid: seq<byte>, x: Sample)
    requires Message(ccid) && ccid[0] == IfdCodec.PC_XFR_BLOCK && x.b == Build(ccid)[|ccid| + 2]
    ensures var s := AlmostThere(ccid, x.feedTick);
            && FeedByte(Stalling(windows), s, x.b, x.feedTick).1.Respond?
            && FeedByte(Stalling(windows), s, x.b, x.feedTick).0.window == windows.xfrBlock
            && Granted(Stalling(windows), s, x) == windows.xfrBlock
  {
    hide Build, FeedByte, Midway, Response, PayloadLength;
    var fw, n := Stalling(windows), |ccid| + 2;
    assert Elapsed(x.feedTick, x.feedTick) == 0;
    MidFrameByte(fw, AlmostThere(ccid, x.feedTick), ccid, n, x.b, x.feedTick);
    var reply := Reply([], [1], false, 1);
    assert Extension(fw, ccid, reply) == windows.xfrBlock;
    ResponseResponds(fw, 0, ccid, Build(ccid), reply);
  }

  // The loss, for any windows and any timing: an XfrBlock judged after the window of its floor
  // but within the window its one interim frame granted on top is dropped.
  lemma DroppedInsideGrantedWindow(windows: Windows, ccid: seq<byte>, floor: nat, arrival: nat, feed: nat, post: nat,
                                   w: Writes)
    requires Message(ccid) && ccid[0] == IfdCodec.PC_XFR_BLOCK && 2 * windows.xfrBlock < TICKS
    requires floor <= feed <= post
    requires floor + windows.xfrBlock < post <= floor + 2 * windows.xfrBlock
    ensures var fw, s, x := Stalling(windows), AlmostThere(ccid, feed), LastByte(ccid, arrival, feed, post, w);
            && Granted(fw, s, x) == windows.xfrBlock
            && Elapsed(floor, post) <= windows.xfrBlock + Granted(fw, s, x)
            && ServeByte(fw, s, floor, x).verdict.Late?
  {
    hide Build, FeedByte, Midway, Response, PayloadLength, ServeByte;
    var x := LastByte(ccid, arrival, feed, post, w);
    StallingServes(windows, ccid, x);
    ExtensionIsLost(Stalling(windows), AlmostThere(ccid, feed), floor, x);
    NoWrap(floor, post);
  }

  // At 100 ticks a second, the rate of the shipped firmware: a command that came in at tick
  // 100 and waited behind another until 670, stalled its card for 1.6 s, which the host was
  // told of at 830 with the first window open until 850, and was answered at 900.
  lemma DroppedAtShippedRate(ccid: seq<byte>, w: Writes)
    requires Message(ccid) && ccid[0] == IfdCodec.PC_XFR_BLOCK
    ensures var fw, s, x := Stalling(WindowsAt(100)), AlmostThere(ccid, 670), LastByte(ccid, 100, 670, 900, w);
            Granted(fw, s, x) == 750 && ServeByte(fw, s, 100, x).verdict.Late?
  {
    hide Build, Midway, Stalling, Granted, ServeByte, WindowsAt;
    WindowsInUse();
    DroppedInsideGrantedWindow(WindowsAt(100), ccid, 100, 100, 670, 900, w);
  }

  // And where the deadline is used as it stands, an answer given while the first window is
  // still open is called expired: 2.3 s after its command, at the same rate.
  lemma PromptAnswerIsDropped(ccid: seq<byte>, w: Writes)
    requires Message(ccid) && ccid[0] == IfdCodec.PC_XFR_BLOCK
    ensures var fw, s, x := Stalling(WindowsAt(100)), AlmostThere(ccid, 670), LastByte(ccid, 670, 670, 900, w);
            && Elapsed(x.arrival, x.postTick) <= WindowFor(fw, ccid)
            && Expired(FeedByte(fw, s, x.b, x.feedTick).0, x.postTick)
  {
    hide Build, Midway, Expired, FeedByte, WindowsAt;
    WindowsInUse();
    var fw, s, x := Stalling(WindowsAt(100)), AlmostThere(ccid, 670), LastByte(ccid, 670, 670, 900, w);
    StallingServes(WindowsAt(100), ccid, x);
    PromptAnswersExpire(fw, s, x, 900);
  }

  lemma ResponseResponds<H>(fw: Firmware<H>, h: H, ccid: seq<byte>, frame: seq<byte>, reply: Reply)
    ensures Response(fw, h, ccid, frame, reply).Respond?
  {
  }

  // ---- The arrival floor ----

  // A byte in the receive ring with the tick at which it came.
  datatype Queued = Queued(b: byte, at: nat)

  // Where one iteration of the loop stands: about to read; back from a read with nothing;
  // back with bytes; or serving them, a tick taken before each byte and one after.
  datatype Phase =
    | Ready
    | Missed(since: nat, failed: bool)
    | Took(since: nat, capacity: nat, taken: List<Queued>)
    | Serving(readEnd: nat, capacity: nat, left: List<Queued>, served: List<Sample>, feeding: Option<nat>)

  datatype World = World(now: nat, ring: List<Queued>, phase: Phase)

  // Bytes arrive at any point; the read returns first and the clock is looked at later.
  datatype Happening =
    | Arrive(q: Queued)
    | Drain(count: nat, capacity: nat)
    | FailRead
    | Clock(t: nat)
    | FeedNext(t: nat)
    | Post(t: nat, writes: Writes)
    | EndBurst

  function Take<T>(xs: List<T>, n: nat): List<T>
    decreases xs
  {
    if n == 0 || xs.Nil? then Nil else Cons(xs.head, Take(xs.tail, n - 1))
  }

  function Drop<T>(xs: List<T>, n: nat): List<T>
    decreases xs
  {
    if n == 0 || xs.Nil? then xs else Drop(xs.tail, n - 1)
  }

  // Time goes forward, and a read returns the oldest bytes, fewer than asked only if those are
  // all there are. A failed read returns nothing, whatever is queued.
  predicate Legal(w: World, e: Happening) {
    match e
    case Arrive(q) => w.now <= q.at
    case Drain(count, capacity) =>
      && w.phase.Ready? && count <= capacity && 0 < capacity
      && count <= Length(w.ring) && (count < capacity ==> count == Length(w.ring))
    case FailRead => w.phase.Ready?
    case Clock(t) => (w.phase.Missed? || w.phase.Took?) && w.now <= t
    case FeedNext(t) => w.phase.Serving? && w.phase.feeding.None? && w.phase.left.Cons? && w.now <= t
    case Post(t, _) => w.phase.Serving? && w.phase.feeding.Some? && w.phase.left.Cons? && w.now <= t
    case EndBurst => w.phase.Serving? && w.phase.feeding.None? && w.phase.left.Nil?
  }

  function Happens(w: World, e: Happening): World
    requires Legal(w, e)
  {
    match e
    case Arrive(q) => w.(now := q.at, ring := Append(w.ring, Cons(q, Nil)))
    case Drain(count, capacity) =>
      if count == 0 then w.(phase := Missed(w.now, false))
      else w.(ring := Drop(w.ring, count), phase := Took(w.now, capacity, Take(w.ring, count)))
    case FailRead => w.(phase := Missed(w.now, true))
    case Clock(t) =>
      w.(now := t, phase := if w.phase.Missed? then Ready else Serving(t, w.phase.capacity, w.phase.taken, Nil, None))
    case FeedNext(t) => w.(now := t, phase := w.phase.(feeding := Some(t)))
    case Post(t, writes) =>
      var q := w.phase.left.head;
      var x := Sample(q.b, q.at, w.phase.feeding.value, t, writes);
      w.(now := t,
         phase := w.phase.(left := w.phase.left.tail, served := Append(w.phase.served, Cons(x, Nil)), feeding := None))
    case EndBurst => w.(phase := Ready)
  }

  // The burst the loop is given to understand, once it is complete.
  function Emits(w: World, e: Happening): Option<Burst> {
    if e.Clock? && w.phase.Missed? then Some(ReadIdle(e.t))
    else if e.EndBurst? && w.phase.Serving? then Some(Bytes(w.phase.readEnd, w.phase.capacity, w.phase.served))
    else None
  }

  predicate LegalRun(w: World, events: List<Happening>)
    decreases events
  {
    match events
    case Nil => true
    case Cons(e, rest) => Legal(w, e) && LegalRun(Happens(w, e), rest)
  }

  // The bursts of a run, in order: what ServeReads is given.
  function Bursts(w: World, events: List<Happening>): List<Burst>
    requires LegalRun(w, events)
    decreases events
  {
    match events
    case Nil => Nil
    case Cons(e, rest) =>
      var later := Bursts(Happens(w, e), rest);
      if Emits(w, e).Some? then Cons(Emits(w, e).value, later) else later
  }

  predicate AllFrom(bound: int, xs: List<Queued>) {
    match xs
    case Nil => true
    case Cons(x, rest) => bound <= x.at && AllFrom(bound, rest)
  }

  // A floor is raised to the clock at most `gap` ticks after the read that proved the ring
  // empty; after a failed read, nothing queued is older than that.
  predicate Tolerates(gap: nat, w: World, e: Happening) {
    e.Clock? ==>
      match w.phase
      case Missed(since, failed) => if failed then AllFrom(e.t - gap, w.ring) else e.t <= since + gap
      case Took(since, capacity, taken) => Length(taken) < capacity ==> e.t <= since + gap
      case _ => true
  }

  predicate Tolerant(gap: nat, w: World, events: List<Happening>)
    requires LegalRun(w, events)
    decreases events
  {
    match events
    case Nil => true
    case Cons(e, rest) => Tolerates(gap, w, e) && Tolerant(gap, Happens(w, e), rest)
  }

  // Every sample arrived no earlier than `gap` before the floor, and is judged after it.
  predicate SamplesFrom(floor: int, gap: nat, xs: List<Sample>) {
    match xs
    case Nil => true
    case Cons(x, rest) => floor <= x.arrival + gap && floor <= x.postTick && SamplesFrom(floor, gap, rest)
  }

  // What a floor stands for: no byte still to be answered arrived more than `gap` before it.
  predicate Safe(floor: nat, gap: nat, w: World) {
    && floor <= w.now && AllFrom(floor - gap, w.ring)
    && match w.phase
       case Ready => true
       case Missed(since, failed) => since <= w.now && (!failed ==> AllFrom(since, w.ring))
       case Took(since, capacity, taken) =>
         since <= w.now && AllFrom(floor - gap, taken) && (Length(taken) < capacity ==> AllFrom(since, w.ring))
       case Serving(readEnd, capacity, left, served, _) =>
         && readEnd <= w.now && AllFrom(floor - gap, left) && SamplesFrom(floor, gap, served)
         && (Length(served) + Length(left) < capacity ==> AllFrom(readEnd - gap, w.ring))
  }

  lemma {:induction false} AllFromAppend(bound: int, xs: List<Queued>, ys: List<Queued>)
    ensures AllFrom(bound, Append(xs, ys)) <==> AllFrom(bound, xs) && AllFrom(bound, ys)
  {
    match xs
    case Nil =>
    case Cons(_, rest) => AllFromAppend(bound, rest, ys);
  }

  lemma {:induction false} AllFromWeaken(bound: int, lower: int, xs: List<Queued>)
    requires AllFrom(bound, xs) && lower <= bound
    ensures AllFrom(lower, xs)
  {
    if xs.Cons? { AllFromWeaken(bound, lower, xs.tail); }
  }

  lemma {:induction false} AllFromSplit(bound: int, xs: List<Queued>, n: nat)
    requires AllFrom(bound, xs)
    ensures AllFrom(bound, Take(xs, n)) && AllFrom(bound, Drop(xs, n))
    ensures n == Length(xs) ==> Drop(xs, n) == Nil
    ensures n <= Length(xs) ==> Length(Take(xs, n)) == n
  {
    if n > 0 && xs.Cons? { AllFromSplit(bound, xs.tail, n - 1); }
  }

  lemma {:induction false} SamplesAppend(floor: int, gap: nat, xs: List<Sample>, x: Sample)
    ensures SamplesFrom(floor, gap, Append(xs, Cons(x, Nil))) <==>
              SamplesFrom(floor, gap, xs) && floor <= x.arrival + gap && floor <= x.postTick
    ensures Length(Append(xs, Cons(x, Nil))) == Length(xs) + 1
  {
    if xs.Cons? { SamplesAppend(floor, gap, xs.tail, x); }
  }

  // The floor the loop has after a happening.
  function FloorAfter(floor: nat, w: World, e: Happening): nat {
    if Emits(w, e).Some? then NextFloor(floor, Emits(w, e).value, false) else floor
  }

  lemma ArriveSafe(floor: nat, gap: nat, w: World, q: Queued)
    requires Safe(floor, gap, w) && w.now <= q.at
    ensures Safe(floor, gap, Happens(w, Arrive(q)))
  {
    hide Append, SamplesFrom, Length;
    AllFromAppend(floor - gap, w.ring, Cons(q, Nil));
    match w.phase
    case Ready =>
    case Missed(since, _) => AllFromAppend(since, w.ring, Cons(q, Nil));
    case Took(since, _, _) => AllFromAppend(since, w.ring, Cons(q, Nil));
    case Serving(readEnd, _, _, _, _) => AllFromAppend(readEnd - gap, w.ring, Cons(q, Nil));
  }

  lemma DrainSafe(floor: nat, gap: nat, w: World, count: nat, capacity: nat)
    requires Safe(floor, gap, w) && Legal(w, Drain(count, capacity))
    ensures Safe(floor, gap, Happens(w, Drain(count, capacity)))
  {
    hide Take, Drop, SamplesFrom;
    AllFromSplit(floor - gap, w.ring, count);
  }

  lemma ClockSafe(floor: nat, gap: nat, w: World, t: nat)
    requires Safe(floor, gap, w) && Legal(w, Clock(t)) && Tolerates(gap, w, Clock(t))
    ensures Safe(FloorAfter(floor, w, Clock(t)), gap, Happens(w, Clock(t)))
  {
    match w.phase
    case Missed(since, failed) => if !failed { AllFromWeaken(since, t - gap, w.ring); }
    case Took(since, capacity, taken) => if Length(taken) < capacity { AllFromWeaken(since, t - gap, w.ring); }
    case _ =>
  }

  lemma PostSafe(floor: nat, gap: nat, w: World, t: nat, writes: Writes)
    requires Safe(floor, gap, w) && Legal(w, Post(t, writes))
    ensures Safe(floor, gap, Happens(w, Post(t, writes)))
  {
    hide Append, SamplesFrom;
    var q := w.phase.left.head;
    SamplesAppend(floor, gap, w.phase.served, Sample(q.b, q.at, w.phase.feeding.value, t, writes));
  }

  lemma EndSafe(floor: nat, gap: nat, w: World)
    requires Safe(floor, gap, w) && Legal(w, EndBurst)
    ensures Safe(FloorAfter(floor, w, EndBurst), gap, Happens(w, EndBurst))
  {
    hide SamplesFrom, AllFrom;
  }

  // However bytes arrive between the events of the loop, its floor keeps its meaning.
  lemma FloorSafety(floor: nat, gap: nat, w: World, e: Happening)
    requires Safe(floor, gap, w) && Legal(w, e) && Tolerates(gap, w, e)
    ensures Safe(FloorAfter(floor, w, e), gap, Happens(w, e))
  {
    hide Append, SamplesFrom, AllFrom, Take, Drop, Length;
    match e
    case Arrive(q) => ArriveSafe(floor, gap, w, q);
    case Drain(count, capacity) => DrainSafe(floor, gap, w, count, capacity);
    case FailRead =>
    case Clock(t) => ClockSafe(floor, gap, w, t);
    case FeedNext(_) =>
    case Post(t, writes) => PostSafe(floor, gap, w, t, writes);
    case EndBurst => EndSafe(floor, gap, w);
  }

  // ---- Answer or silence ----

  // The command a byte completes.
  function Completes<H>(s: Server<H>, x: Sample): Option<seq<byte>> {
    match Feed(AfterStall(s.parser, Elapsed(s.lastByte, x.feedTick)), x.b).1
    case Some(Command(ccid)) => Some(ccid)
    case _ => None
  }

  predicate Leaves(v: Verdict) {
    v.Sent? || v.WriteFailed? || v.Snapshot?
  }

  // Every response let out was judged within its own command's window, and the gap, of the
  // true arrival of the byte that completed the command; the tick counter may not have gone
  // round since the floor was set.
  predicate InTime<H>(fw: Firmware<H>, s: Server<H>, floor: nat, gap: nat, xs: List<Sample>)
    decreases xs
  {
    match xs
    case Nil => true
    case Cons(x, rest) =>
      var t := ServeByte(fw, s, floor, x);
      && (Leaves(t.verdict) ==>
            && Completes(s, x).Some?
            && (x.postTick < floor + TICKS ==> x.postTick <= x.arrival + gap + WindowFor(fw, Completes(s, x).value)))
      && (!t.verdict.Snapshot? ==> InTime(fw, t.server, floor, gap, rest))
  }

  // The same over several reads, with the server and the floor that ServeReads goes through.
  predicate ReadsInTime<H>(fw: Firmware<H>, s: Server<H>, floor: nat, gap: nat, bursts: List<Burst>)
    decreases bursts
  {
    match bursts
    case Nil => true
    case Cons(burst, rest) =>
      if burst.ReadIdle? then ReadsInTime(fw, IdlePoll(fw, s, burst.now), burst.now, gap, rest)
      else
        var served := ServeBytes(fw, s, floor, burst.samples);
        && InTime(fw, s, floor, gap, burst.samples)
        && (!served.stopped ==> ReadsInTime(fw, served.server, NextFloor(floor, burst, false), gap, rest))
  }

  lemma LeavesInWindow<H>(fw: Firmware<H>, s: Server<H>, floor: nat, x: Sample)
    requires Leaves(ServeByte(fw, s, floor, x).verdict)
    ensures Completes(s, x).Some? && Elapsed(floor, x.postTick) <= WindowFor(fw, Completes(s, x).value)
  {
    hide Feed, WindowFor, Response, Written, AllWritten, Extension;
  }

  lemma NoWrap(floor: nat, post: nat)
    requires floor <= post < floor + TICKS
    ensures Elapsed(floor, post) == post - floor
  {
  }

  lemma {:induction false} BurstInTime<H>(fw: Firmware<H>, s: Server<H>, floor: nat, gap: nat, xs: List<Sample>)
    requires SamplesFrom(floor, gap, xs)
    ensures InTime(fw, s, floor, gap, xs)
    decreases xs
  {
    hide ServeByte, Completes, WindowFor, Elapsed;
    match xs
    case Nil =>
    case Cons(x, rest) =>
      var t := ServeByte(fw, s, floor, x);
      if Leaves(t.verdict) { LeavesInWindow(fw, s, floor, x); }
      if x.postTick < floor + TICKS { NoWrap(floor, x.postTick); }
      BurstInTime(fw, t.server, floor, gap, rest);
  }

  // The loop's answers over every run of the world: whatever arrives whenever, no response is
  // let out later than one window, and the gap, after its command came.
  lemma {:induction false} ResponsesInTime<H>(fw: Firmware<H>, s: Server<H>, floor: nat, gap: nat, w: World,
                                              events: List<Happening>)
    requires Safe(floor, gap, w) && LegalRun(w, events) && Tolerant(gap, w, events)
    ensures ReadsInTime(fw, s, floor, gap, Bursts(w, events))
    decreases events
  {
    hide ServeBytes, InTime, Safe, Legal, Happens, Tolerates, IdlePoll, NextFloor;
    match events
    case Nil =>
    case Cons(e, rest) =>
      FloorSafety(floor, gap, w, e);
      var w1, f1 := Happens(w, e), FloorAfter(floor, w, e);
      if Emits(w, e).None? {
        ResponsesInTime(fw, s, f1, gap, w1, rest);
      } else if e.Clock? {
        IdleFloor(floor, w, e.t);
        ResponsesInTime(fw, IdlePoll(fw, s, e.t), f1, gap, w1, rest);
      } else {
        var burst := Emits(w, e).value;
        ServedSamples(floor, gap, w);
        BurstInTime(fw, s, floor, gap, burst.samples);
        ResponsesInTime(fw, ServeBytes(fw, s, floor, burst.samples).server, f1, gap, w1, rest);
      }
  }

  lemma IdleFloor(floor: nat, w: World, t: nat)
    requires w.phase.Missed?
    ensures FloorAfter(floor, w, Clock(t)) == t && Emits(w, Clock(t)) == Some(ReadIdle(t))
  {
  }

  lemma ServedSamples(floor: nat, gap: nat, w: World)
    requires Safe(floor, gap, w) && w.phase.Serving?
    ensures SamplesFrom(floor, gap, w.phase.served)
  {
  }

  // From start-up, the floor seeded by the clock.
  lemma EveryResponseInTime<H>(fw: Firmware<H>, s: Server<H>, start: nat, gap: nat, events: List<Happening>)
    requires LegalRun(World(start, Nil, Ready), events) && Tolerant(gap, World(start, Nil, Ready), events)
    ensures ReadsInTime(fw, s, start, gap, Bursts(World(start, Nil, Ready), events))
  {
    hide ReadsInTime, LegalRun, Tolerant, Bursts;
    ResponsesInTime(fw, s, start, gap, World(start, Nil, Ready), events);
  }

  // The bound is attained: a floor that lies the whole gap after the arrival lets a response
  // out at the very end of the gap and the window.
  lemma BoundIsAttained<H>(fw: Firmware<H>, s: Server<H>, gap: nat, x: Sample)
    requires FeedByte(fw, s, x.b, x.feedTick).1.Respond?
    requires FeedByte(fw, s, x.b, x.feedTick).0.window < TICKS
    requires x.postTick == x.arrival + gap + FeedByte(fw, s, x.b, x.feedTick).0.window
    ensures Leaves(ServeByte(fw, s, x.arrival + gap, x).verdict)
  {
    hide FeedByte;
    NoWrap(x.arrival + gap, x.postTick);
  }

  function Arrivals(qs: List<Queued>): List<Happening> {
    match qs
    case Nil => Nil
    case Cons(q, rest) => Cons(Arrive(q), Arrivals(rest))
  }

  function Ends(w: World, events: List<Happening>): World
    requires LegalRun(w, events)
    decreases events
  {
    match events
    case Nil => w
    case Cons(e, rest) => Ends(Happens(w, e), rest)
  }

  lemma {:induction false} ArrivalsQueue(w: World, qs: List<Queued>)
    requires LegalRun(w, Arrivals(qs))
    ensures var w1 := Ends(w, Arrivals(qs)); w1.ring == Append(w.ring, qs) && w1.phase == w.phase && w.now <= w1.now
    decreases qs
  {
    match qs
    case Nil => AppendNil(w.ring);
    case Cons(q, rest) =>
      ArrivalsQueue(Happens(w, Arrive(q)), rest);
      AppendAssoc(w.ring, Cons(q, Nil), rest);
  }

  // How far an idle or failed read may be trusted: the floor it raises is safe within a gap if
  // and only if no byte queued when the clock is looked at is older than that, whether it was
  // there already or came since.
  lemma RaiseIsExact(w: World, qs: List<Queued>, t: nat, gap: nat)
    requires w.phase.Missed? && LegalRun(w, Arrivals(qs)) && Ends(w, Arrivals(qs)).now <= t
    ensures var sampled := Ends(w, Arrivals(qs));
            && Legal(sampled, Clock(t)) && Emits(sampled, Clock(t)) == Some(ReadIdle(t))
            && (Safe(t, gap, Happens(sampled, Clock(t))) <==> AllFrom(t - gap, Append(w.ring, qs)))
  {
    ArrivalsQueue(w, qs);
  }

  // What can happen while a burst is served.
  predicate Serves(events: List<Happening>) {
    match events
    case Nil => true
    case Cons(e, rest) => (e.Arrive? || e.FeedNext? || e.Post?) && Serves(rest)
  }

  // One of them leaves the burst what it was, and brings only bytes that came since.
  lemma ServeStep(w: World, e: Happening, bound: int)
    requires w.phase.Serving? && Legal(w, e) && (e.Arrive? || e.FeedNext? || e.Post?) && bound <= w.now
    ensures var w1 := Happens(w, e);
            && w1.phase.Serving? && w1.phase.readEnd == w.phase.readEnd && w1.phase.capacity == w.phase.capacity
            && Length(w1.phase.served) + Length(w1.phase.left) == Length(w.phase.served) + Length(w.phase.left)
            && w.now <= w1.now && (AllFrom(bound, w1.ring) <==> AllFrom(bound, w.ring))
  {
    hide Append;
    match e
    case Arrive(q) => AllFromAppend(bound, w.ring, Cons(q, Nil));
    case Post(t, writes) =>
      var q := w.phase.left.head;
      SamplesAppend(0, 0, w.phase.served, Sample(q.b, q.at, w.phase.feeding.value, t, writes));
    case _ =>
  }

  lemma {:induction false} ServeSteps(w: World, events: List<Happening>, bound: int)
    requires w.phase.Serving? && LegalRun(w, events) && Serves(events) && bound <= w.now
    ensures var w1 := Ends(w, events);
            && w1.phase.Serving? && w1.phase.readEnd == w.phase.readEnd && w1.phase.capacity == w.phase.capacity
            && Length(w1.phase.served) + Length(w1.phase.left) == Length(w.phase.served) + Length(w.phase.left)
            && w.now <= w1.now && (AllFrom(bound, w1.ring) <==> AllFrom(bound, w.ring))
    decreases events
  {
    hide Legal, Happens, Length, AllFrom;
    if events.Cons? {
      ServeStep(w, events.head, bound);
      ServeSteps(Happens(w, events.head), events.tail, bound);
    }
  }

  // The same of a short read, whose burst is served before the floor is raised to the tick
  // sampled at its start: bytes that came before that tick decide, those that come during the
  // serving do not.
  lemma ShortRaiseIsExact(w: World, qs: List<Queued>, t: nat, gap: nat, floor: nat, events: List<Happening>)
    requires w.phase.Took? && Length(w.phase.taken) < w.phase.capacity
    requires LegalRun(w, Arrivals(qs)) && Legal(Ends(w, Arrivals(qs)), Clock(t)) && Serves(events)
    requires var serving := Happens(Ends(w, Arrivals(qs)), Clock(t));
             LegalRun(serving, events) && Legal(Ends(serving, events), EndBurst)
    ensures var served := Ends(Happens(Ends(w, Arrivals(qs)), Clock(t)), events);
            && FloorAfter(floor, served, EndBurst) == t
            && (Safe(t, gap, Happens(served, EndBurst)) <==> AllFrom(t - gap, Append(w.ring, qs)))
  {
    hide AllFrom, Append, LegalRun, Serves;
    ArrivalsQueue(w, qs);
    ServeSteps(Happens(Ends(w, Arrivals(qs)), Clock(t)), events, t - gap);
  }

  // A byte that slips in between, and a failed read that leaves an old byte queued.
  lemma RaiseCanOverstate()
    ensures var w := World(6, Cons(Queued(0, 5), Nil), Missed(5, false));
            !Safe(6, 0, Happens(w, Clock(6))) && Safe(6, 1, Happens(w, Clock(6)))
    ensures var w := World(1000, Cons(Queued(0, 0), Nil), Missed(1000, true));
            !Safe(1000, 999, Happens(w, Clock(1000))) && Safe(1000, 1000, Happens(w, Clock(1000)))
  {
  }

  // ---- The loop as it runs ----

  lemma {:induction false} SnapshotStops<H>(fw: Firmware<H>, s: Server<H>, floor: nat, xs: List<Sample>, o: Outcome)
    ensures Tally(o, ServeBytes(fw, s, floor, xs).verdicts).snapshot <==>
              o.snapshot || ServeBytes(fw, s, floor, xs).stopped
    decreases xs
  {
    hide ServeByte;
    match xs
    case Nil =>
    case Cons(x, rest) =>
      var t := ServeByte(fw, s, floor, x);
      if t.verdict.Snapshot? {
        assert Tally(o, Cons(t.verdict, Nil)) == Tally(Counted(o, t.verdict), Nil);
      } else {
        SnapshotStops(fw, t.server, floor, rest, Counted(o, t.verdict));
      }
  }

  predicate EachNonempty(bursts: List<Burst>) {
    match bursts
    case Nil => true
    case Cons(burst, rest) => (burst.Bytes? ==> burst.samples.Cons?) && EachNonempty(rest)
  }

  // What is on the wire, with what the reads to come will add, is the whole.
  ghost predicate Remaining<H>(f0: List<seq<byte>>, whole: Served<H>, f: List<seq<byte>>, left: Served<H>) {
    Append(f0, whole.frames) == Append(f, left.frames) && whole.server == left.server && whole.stopped == left.stopped
  }

  lemma ReadsTurn<H>(fw: Firmware<H>, s: Server<H>, floor: nat, bursts: List<Burst>, f0: List<seq<byte>>,
                     whole: Served<H>, f: List<seq<byte>>)
    requires bursts.Cons? && bursts.head.Bytes? && Remaining(f0, whole, f, ServeReads(fw, s, floor, bursts))
    ensures var served := ServeBytes(fw, s, floor, bursts.head.samples);
            if served.stopped then Remaining(f0, whole, f, served)
            else Remaining(f0, whole, Append(f, served.frames),
                           ServeReads(fw, served.server, NextFloor(floor, bursts.head, false), bursts.tail))
  {
    hide ServeBytes, NextFloor;
    var served := ServeBytes(fw, s, floor, bursts.head.samples);
    AppendAssoc(f, served.frames,
                ServeReads(fw, served.server, NextFloor(floor, bursts.head, false), bursts.tail).frames);
  }

  // The object, read after read, does what ServeReads says, so its answers are in time.
  method ServeAll<H>(serve: CdcBurstServe<H>, wire: Wire, bursts: List<Burst>)
    requires EachNonempty(bursts)
    modifies serve`server, serve`arrivalFloor, wire
    ensures var served := ServeReads(serve.fw, old(serve.server), old(serve.arrivalFloor), bursts);
            serve.server == served.server && wire.frames == Append(old(wire.frames), served.frames)
  {
    hide ServeBytes, NextFloor, Tally, IdlePoll, Length;
    var left := bursts;
    ghost var f0 := wire.frames;
    ghost var whole := ServeReads(serve.fw, serve.server, serve.arrivalFloor, bursts);
    while left.Cons?
      invariant EachNonempty(left)
      invariant Remaining(f0, whole, wire.frames, ServeReads(serve.fw, serve.server, serve.arrivalFloor, left))
      decreases left
    {
      ghost var s, floor, f := serve.server, serve.arrivalFloor, wire.frames;
      if left.head.Bytes? {
        ReadsTurn(serve.fw, s, floor, left, f0, whole, f);
        SnapshotStops(serve.fw, s, floor, left.head.samples, NO_OUTCOME.(bytesRead := Length(left.head.samples)));
      }
      var out := serve.ServeOnce(wire, left.head);
      if out.snapshot { return; }
      left := left.tail;
    }
    AppendNil(wire.frames);
  }
}
