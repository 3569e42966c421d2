/** One phone socket and one card, strictly in turn. */
module HceSession {
  import opened Bytes
  import opened HcePolicy
  import HceFraming

  // ---- The backend in front of the card ----

  datatype Gate = Raw | NtagGate(n: Ntag) | JcopGate(j: Jcop)

  function GateCheck(g: Gate, c: seq<byte>): (Gate, Verdict) {
    match g
    case Raw => (g, Pass)
    case NtagGate(n) => var (q, v) := Checked(n, c); (NtagGate(q), v)
    case JcopGate(j) => (g, CheckJcop(j, c))
  }

  function GateObserve(g: Gate, c: seq<byte>, r: seq<byte>): (Gate, bool) {
    match g
    case Raw => (g, true)
    case NtagGate(n) => var (q, ok) := Observed(n, c, r); (NtagGate(q), ok)
    case JcopGate(j) => var (q, ok) := ObserveJcop(j, c, r); (JcopGate(q), ok)
  }

  datatype Outcome = Reply(rapdu: seq<byte>) | Stopped | Uncaught

  // What the card is seen to say: nothing, if the exchange with it failed.
  function Said(answer: Option<seq<byte>>): seq<byte> {
    if answer.Some? then answer.value else []
  }

  // Checked, transmitted, observed: the gate after it, the link if the card was reached,
  // and what the session is told.
  function Exchanged(g: Gate, c: seq<byte>, answer: Option<seq<byte>>): (Gate, Option<Link>, Outcome) {
    var (g1, verdict) := GateCheck(g, c);
    match verdict
    case Deny => (g1, None, Stopped)
    case Crash => (g1, None, Uncaught)
    case Pass =>
      if answer.None? then (g1, Some(Link(c, [])), Stopped)
      else
        var (g2, ok) := GateObserve(g1, c, answer.value);
        (g2, Some(Link(c, answer.value)), if ok then Reply(answer.value) else Stopped)
  }

  class PcscBackend {
    const ntag: Ntag424ReadOnlyPolicy?
    const jcop: JcopReadOnlyPolicy?
    var log: List<Link>

    ghost predicate Valid()
    {
      ntag == null || jcop == null
    }

    ghost function Front(): Gate
      reads this, ntag, jcop
    {
      if ntag != null then NtagGate(ntag.View()) else if jcop != null then JcopGate(jcop.View()) else Raw
    }

    constructor (ntag: Ntag424ReadOnlyPolicy?, jcop: JcopReadOnlyPolicy?)
      requires ntag == null || jcop == null
      ensures Valid() && this.ntag == ntag && this.jcop == jcop && log == Nil
    {
      this.ntag, this.jcop, log := ntag, jcop, Nil;
    }

    // The policy is asked immediately before the card is.
    method Exchange(c: seq<byte>, answer: Option<seq<byte>>) returns (out: Outcome)
      requires Valid()
      modifies this, ntag, jcop
      ensures var (g, link, told) := Exchanged(old(Front()), c, answer);
              && Front() == g && out == told
              && log == (if link.Some? then Cons(link.value, old(log)) else old(log))
    {
      hide Checked, Observed, CheckJcop, ObserveJcop;
      var verdict := Pass;
      if ntag != null { verdict := ntag.Check(c); }
      if jcop != null { verdict := jcop.Check(c); }
      if verdict == Deny { return Stopped; }
      if verdict == Crash { return Uncaught; }
      log := Cons(Link(c, Said(answer)), log);
      if answer.None? { return Stopped; }
      var ok := true;
      if ntag != null { ok := ntag.Observe(c, answer.value); }
      if jcop != null { ok := jcop.Observe(c, answer.value); }
      out := if ok then Reply(answer.value) else Stopped;
    }
  }

  // ---- The session ----

  const CTRL_DEACTIVATED: seq<byte> := [0x01]
  const CTRL_HELLO: seq<byte> := [0x02]

  // A frame from the phone, with what the world will do about it: whether the card connects
  // if it is not, what the card answers, and whether a reply gets out.
  datatype Incoming = Frame(data: seq<byte>, connects: bool, answer: Option<seq<byte>>, delivers: bool) | LinkError

  // Closed and Done are exit code 0, Broken is 1, Thrown an exception nobody catches.
  datatype Code = Closed | Done | Broken | Thrown

  // How a session goes: what it sent to the card and to the phone, oldest first.
  datatype Session = Session(gate: Gate, links: List<Link>, replies: List<seq<byte>>, code: Code)

  predicate IsControl(data: seq<byte>) {
    data == CTRL_HELLO || data == CTRL_DEACTIVATED
  }

  function Linked(link: Option<Link>, s: Session): Session {
    if link.Some? then s.(links := Cons(link.value, s.links)) else s
  }

  function Replied(r: seq<byte>, s: Session): Session {
    s.(replies := Cons(r, s.replies))
  }

  function Ended(g: Gate, code: Code): Session {
    Session(g, Nil, Nil, code)
  }

  predicate Sendable(r: seq<byte>, delivers: bool) {
    2 <= |r| <= HceFraming.MAX_FRAME && delivers
  }

  datatype Told = Answered(reply: seq<byte>) | Over(code: Code)

  // One command: the card connected if need be, the exchange, and the reply sent back.
  function Turn(g: Gate, connected: bool, i: Incoming): (Gate, Option<Link>, Told)
    requires i.Frame?
  {
    if !connected && !i.connects then (g, None, Over(Broken))
    else
      var (g1, link, out) := Exchanged(g, i.data, i.answer);
      (g1, link,
       match out
       case Stopped => Over(Broken)
       case Uncaught => Over(Thrown)
       case Reply(r) => if Sendable(r, i.delivers) then Answered(r) else Over(Broken))
  }

  // A session from some point on: once limits the replies when it is positive.
  function Ran(g: Gate, connected: bool, once: int, done: nat, incoming: List<Incoming>): Session
    decreases incoming
  {
    if once > 0 && done >= once then Ended(g, Done)
    else
      match incoming
      case Nil => Ended(g, Closed)
      case Cons(i, rest) =>
        if i.LinkError? then Ended(g, Broken)
        else if IsControl(i.data) then Ran(g, connected, once, done, rest)
        else
          var (g1, link, told) := Turn(g, connected, i);
          match told
          case Over(code) => Linked(link, Ended(g1, code))
          case Answered(r) => Linked(link, Replied(r, Ran(g1, true, once, done + 1, rest)))
  }

  class RelaySession {
    const backend: PcscBackend
    var connected: bool
    var sent: List<seq<byte>>

    constructor (backend: PcscBackend)
      ensures this.backend == backend && !connected && sent == Nil
    {
      this.backend, connected, sent := backend, false, Nil;
    }

    method Serve(i: Incoming) returns (told: Told)
      requires backend.Valid() && i.Frame?
      modifies this`connected, backend, backend.ntag, backend.jcop
      ensures var (g1, link, answer) := Turn(old(backend.Front()), old(connected), i);
              && backend.Front() == g1 && told == answer && (told.Answered? ==> connected)
              && (told.Answered? ==> |told.reply| <= HceFraming.MAX_FRAME)
              && backend.log == Noted(link, old(backend.log))
    {
      hide Exchanged;
      if !connected {
        if !i.connects { return Over(Broken); }
        connected := true;
      }
      var out := backend.Exchange(i.data, i.answer);
      match out
      case Stopped => told := Over(Broken);
      case Uncaught => told := Over(Thrown);
      case Reply(r) => told := if Sendable(r, i.delivers) then Answered(r) else Over(Broken);
    }

    // One frame off the socket, dealt with; or the code the session ends with.
    method Next(socket: HceFraming.Socket, world: nat -> Response, k: nat) returns (code: Option<Code>, answered: bool)
      requires backend.Valid()
      modifies this, socket, backend, backend.ntag, backend.jcop
      ensures NextIs(Received(old(socket.pending), socket.broken, world, k), old(backend.Front()), old(connected),
                     old(sent), old(backend.log), old(socket.written), code, answered,
                     backend.Front(), connected, sent, backend.log, socket.written)
      ensures code.None? ==> |socket.pending| < |old(socket.pending)|
      ensures code.None? ==>
                Received(socket.pending, socket.broken, world, k + 1) ==
                  Received(old(socket.pending), socket.broken, world, k).tail
    {
      hide Turn, IsControl, Received, HceFraming.ReadFrame, HceFraming.Framed;
      ReceivedIs(socket.pending, socket.broken, world, k);
      var frame := socket.RecvFrame();
      if frame.None? {
        return Some(if socket.broken then Broken else Closed), false;
      }
      var i := Framed(frame.value, world(k));
      if IsControl(i.data) { return None, false; }
      var told := Serve(i);
      if told.Over? { return Some(told.code), false; }
      socket.Send(told.reply);
      sent := Cons(told.reply, sent);
      code, answered := None, true;
    }

    // The session loop: frames read off the socket as they come, replies written back.
    method Run(once: int, socket: HceFraming.Socket, world: nat -> Response) returns (code: Code)
      requires backend.Valid()
      modifies this, socket, backend, backend.ntag, backend.jcop
      ensures var incoming := Received(old(socket.pending), socket.broken, world, 0);
              var s := Ran(old(backend.Front()), old(connected), once, 0, incoming);
              && code == s.code && backend.Front() == s.gate
              && sent == Onto(s.replies, old(sent)) && backend.log == Onto(s.links, old(backend.log))
              && socket.written == old(socket.written) + HceFraming.Wire(s.replies)
    {
      hide Turn, IsControl, Noted, Ran, Received, Resumes, Onto, HceFraming.Wire, NextIs;
      var done, k := 0, 0;
      ghost var sent0, log0, wire0 := sent, backend.log, socket.written;
      ghost var whole := Ran(backend.Front(), connected, once, 0, Received(socket.pending, socket.broken, world, 0));
      SessionStarts(whole, sent, backend.log, socket.written);
      while true
        invariant Resumes(whole, sent0, log0, wire0,
                          Ran(backend.Front(), connected, once, done,
                              Received(socket.pending, socket.broken, world, k)),
                          sent, backend.log, socket.written)
        decreases |socket.pending|
      {
        ghost var g, was, todo := backend.Front(), connected, Received(socket.pending, socket.broken, world, k);
        ghost var sent1, log1, wire1 := sent, backend.log, socket.written;
        SessionEnds(whole, sent0, log0, wire0, g, was, once, done, todo, sent1, log1, wire1);
        if once > 0 && done >= once { return Done; }
        var over, answered := Next(socket, world, k);
        SessionGoesOn(whole, sent0, log0, wire0, g, was, once, done, todo, sent1, log1, wire1, over, answered,
                      backend.Front(), connected, sent, backend.log, socket.written);
        if over.Some? { return over.value; }
        k := k + 1;
        if answered { done := done + 1; }
      }
    }
  }

  // What one frame does to the session.
  predicate NextIs(todo: List<Incoming>, g: Gate, connected: bool, sent: List<seq<byte>>, log: List<Link>,
                   wire: seq<byte>, code: Option<Code>, answered: bool, g1: Gate, connected1: bool,
                   sent1: List<seq<byte>>, log1: List<Link>, wire1: seq<byte>)
  {
    if todo.Nil? || todo.head.LinkError? then
      && code == Some(if todo.Nil? then Closed else Broken)
      && g1 == g && sent1 == sent && log1 == log && wire1 == wire
    else if IsControl(todo.head.data) then
      code == None && !answered && g1 == g && connected1 == connected && sent1 == sent && log1 == log && wire1 == wire
    else
      var (g2, link, told) := Turn(g, connected, todo.head);
      && g1 == g2 && log1 == Noted(link, log)
      && match told
         case Over(c) => code == Some(c) && sent1 == sent && wire1 == wire
         case Answered(r) =>
           code == None && answered && connected1 && sent1 == Cons(r, sent) && wire1 == wire + HceFraming.Framed(r)
  }

  lemma SessionGoesOn(whole: Session, sent0: List<seq<byte>>, log0: List<Link>, wire0: seq<byte>, g: Gate,
                      connected: bool, once: int, done: nat, todo: List<Incoming>, sent: List<seq<byte>>,
                      log: List<Link>, wire: seq<byte>, code: Option<Code>, answered: bool, g1: Gate,
                      connected1: bool, sent1: List<seq<byte>>, log1: List<Link>, wire1: seq<byte>)
    requires Resumes(whole, sent0, log0, wire0, Ran(g, connected, once, done, todo), sent, log, wire)
    requires !(once > 0 && done >= once)
    requires NextIs(todo, g, connected, sent, log, wire, code, answered, g1, connected1, sent1, log1, wire1)
    ensures if code.Some? then
              && whole.gate == g1 && whole.code == code.value
              && Onto(whole.replies, sent0) == sent1 && Onto(whole.links, log0) == log1
              && wire0 + HceFraming.Wire(whole.replies) == wire1
            else
              && todo.Cons?
              && Resumes(whole, sent0, log0, wire0,
                         Ran(g1, connected1, once, if answered then done + 1 else done, todo.tail), sent1, log1, wire1)
  {
    hide Turn, IsControl, Ran, Resumes, Onto, HceFraming.Wire, HceFraming.Framed, Noted;
    if todo.Cons? && todo.head.Frame? {
      SessionTurns(whole, sent0, log0, wire0, g, connected, once, done, todo, sent, log, wire);
    } else {
      SessionEnds(whole, sent0, log0, wire0, g, connected, once, done, todo, sent, log, wire);
    }
  }

  lemma SessionStarts(whole: Session, sent: List<seq<byte>>, log: List<Link>, wire: seq<byte>)
    ensures Resumes(whole, sent, log, wire, whole, sent, log, wire)
  {
  }

  // A session that ends here has sent all it ever will.
  lemma SessionEnds(whole: Session, sent0: List<seq<byte>>, log0: List<Link>, wire0: seq<byte>, g: Gate,
                    connected: bool, once: int, done: nat, todo: List<Incoming>, sent: List<seq<byte>>,
                    log: List<Link>, wire: seq<byte>)
    requires Resumes(whole, sent0, log0, wire0, Ran(g, connected, once, done, todo), sent, log, wire)
    ensures (once > 0 && done >= once) || todo.Nil? || todo.head.LinkError? ==>
              && whole.gate == g
              && whole.code == (if once > 0 && done >= once then Done else if todo.Nil? then Closed else Broken)
              && Onto(whole.replies, sent0) == sent && Onto(whole.links, log0) == log
              && wire0 + HceFraming.Wire(whole.replies) == wire
  {
    assert wire + [] == wire;
  }

  // One frame further: nothing, an answer, or the end.
  lemma SessionTurns(whole: Session, sent0: List<seq<byte>>, log0: List<Link>, wire0: seq<byte>, g: Gate,
                     connected: bool, once: int, done: nat, todo: List<Incoming>, sent: List<seq<byte>>,
                     log: List<Link>, wire: seq<byte>)
    requires Resumes(whole, sent0, log0, wire0, Ran(g, connected, once, done, todo), sent, log, wire)
    requires !(once > 0 && done >= once) && todo.Cons? && todo.head.Frame?
    ensures if IsControl(todo.head.data) then
              Resumes(whole, sent0, log0, wire0, Ran(g, connected, once, done, todo.tail), sent, log, wire)
            else
              var (g1, link, told) := Turn(g, connected, todo.head);
              match told
              case Over(code) =>
                && whole.gate == g1 && whole.code == code
                && Onto(whole.replies, sent0) == sent && Onto(whole.links, log0) == Noted(link, log)
                && wire0 + HceFraming.Wire(whole.replies) == wire
              case Answered(r) =>
                Resumes(whole, sent0, log0, wire0, Ran(g1, true, once, done + 1, todo.tail), Cons(r, sent),
                        Noted(link, log), wire + HceFraming.Framed(r))
  {
    hide IsControl, Turn, HceFraming.Framed;
    if !IsControl(todo.head.data) {
      var (g1, link, told) := Turn(g, connected, todo.head);
      var later := Ran(g1, true, once, done + 1, todo.tail);
      var rest := if told.Over? then Ended(g1, told.code) else Replied(told.reply, later);
      LinkedOnto(link, rest, log);
      if told.Answered? {
        WireStep(wire, told.reply, later.replies);
      } else {
        assert wire + [] == wire;
      }
    }
  }

  lemma ReceivedIs(stream: seq<byte>, broken: bool, world: nat -> Response, k: nat)
    ensures var r, incoming := HceFraming.ReadFrame(stream), Received(stream, broken, world, k);
            if r.None? then if broken then incoming == Cons(LinkError, Nil) else incoming == Nil
            else
              && incoming == Cons(Framed(r.value.0, world(k)), Received(r.value.1, broken, world, k + 1))
              && |r.value.1| < |stream|
  {
    hide HceFraming.ReadFrame;
    FrameShrinks(stream);
  }

  // What the world does about the k-th frame.
  datatype Response = Response(connects: bool, answer: Option<seq<byte>>, delivers: bool)

  function Framed(data: seq<byte>, r: Response): Incoming {
    Frame(data, r.connects, r.answer, r.delivers)
  }

  // The frames a byte stream amounts to, and how it ends.
  function Received(stream: seq<byte>, broken: bool, world: nat -> Response, k: nat): List<Incoming>
    decreases |stream|
  {
    var r := HceFraming.ReadFrame(stream);
    if r.None? then if broken then Cons(LinkError, Nil) else Nil
    else Cons(Framed(r.value.0, world(k)), Received(r.value.1, broken, world, k + 1))
  }

  lemma FrameShrinks(stream: seq<byte>)
    ensures var r := HceFraming.ReadFrame(stream); r.Some? ==> |r.value.1| < |stream|
  {
  }

  lemma WireStep(written: seq<byte>, reply: seq<byte>, later: List<seq<byte>>)
    ensures written + HceFraming.Wire(Cons(reply, later)) == written + HceFraming.Framed(reply) + HceFraming.Wire(later)
  {
    assert written + (HceFraming.Framed(reply) + HceFraming.Wire(later)) ==
             written + HceFraming.Framed(reply) + HceFraming.Wire(later);
  }

  function Noted(link: Option<Link>, log: List<Link>): List<Link> {
    if link.Some? then Cons(link.value, log) else log
  }

  lemma LinkedOnto(link: Option<Link>, s: Session, log: List<Link>)
    ensures Onto(Linked(link, s).links, log) == Onto(s.links, Noted(link, log))
    ensures Linked(link, s).replies == s.replies
  {
  }

  // A list turned around on top of another: newest first.
  function Onto<T>(chronological: List<T>, below: List<T>): List<T>
    decreases chronological
  {
    match chronological
    case Nil => below
    case Cons(x, rest) => Onto(rest, Cons(x, below))
  }

  // The rest of a session, on top of what was already sent, is the whole of it.
  predicate Resumes(whole: Session, sent0: List<seq<byte>>, log0: List<Link>, wire0: seq<byte>,
                    rest: Session, sent: List<seq<byte>>, log: List<Link>, wire: seq<byte>) {
    && whole.code == rest.code && whole.gate == rest.gate
    && Onto(whole.replies, sent0) == Onto(rest.replies, sent)
    && Onto(whole.links, log0) == Onto(rest.links, log)
    && wire0 + HceFraming.Wire(whole.replies) == wire + HceFraming.Wire(rest.replies)
  }

  // ---- Pairing ----

  // The command frames, in order.
  function Commands(incoming: List<Incoming>): List<Incoming> {
    match incoming
    case Nil => Nil
    case Cons(i, rest) => if i.Frame? && IsControl(i.data) then Commands(rest) else Cons(i, Commands(rest))
  }

  // The i-th reply is the card's answer to the i-th command.
  predicate Paired(replies: List<seq<byte>>, commands: List<Incoming>) {
    replies.Cons? ==>
      && commands.Cons? && commands.head.Frame? && commands.head.answer == Some(replies.head)
      && Paired(replies.tail, commands.tail)
  }

  // The i-th link is the i-th command and what the card said to it.
  predicate Follows(links: List<Link>, commands: List<Incoming>) {
    links.Cons? ==>
      && commands.Cons? && commands.head.Frame?
      && links.head == Link(commands.head.data, Said(commands.head.answer))
      && Follows(links.tail, commands.tail)
  }

  lemma ExchangeIs(g: Gate, c: seq<byte>, answer: Option<seq<byte>>)
    ensures var (g1, link, out) := Exchanged(g, c, answer);
            && (link.Some? ==> link.value == Link(c, Said(answer)))
            && (out.Reply? ==> answer == Some(out.rapdu) && link.Some?)
  {
    hide GateCheck, GateObserve;
  }

  lemma TurnIs(g: Gate, connected: bool, i: Incoming)
    requires i.Frame?
    ensures var (g1, link, told) := Turn(g, connected, i);
            && (link.Some? ==> link.value == Link(i.data, Said(i.answer)))
            && (told.Answered? ==> i.answer == Some(told.reply) && link.Some?)
            && (told.Over? ==> told.code == Broken || told.code == Thrown)
  {
    hide Exchanged, Sendable;
    ExchangeIs(g, i.data, i.answer);
  }

  // Replies and card traffic are paired with the commands in order; control frames have no
  // part in it; what failed is not answered, and nothing follows it.
  lemma {:induction false} RepliesPair(g: Gate, connected: bool, once: int, done: nat, incoming: List<Incoming>)
    ensures var s := Ran(g, connected, once, done, incoming);
            && Paired(s.replies, Commands(incoming))
            && Follows(s.links, Commands(incoming))
            && Length(s.replies) <= Length(s.links) <= Length(s.replies) + 1
    decreases incoming
  {
    hide Turn, IsControl;
    if !(once > 0 && done >= once) && incoming.Cons? && incoming.head.Frame? {
      var i := incoming.head;
      if IsControl(i.data) {
        RepliesPair(g, connected, once, done, incoming.tail);
      } else {
        TurnIs(g, connected, i);
        RepliesPair(Turn(g, connected, i).0, true, once, done + 1, incoming.tail);
      }
    }
  }

  lemma {:induction false} RepliesFit(g: Gate, connected: bool, once: int, done: nat, incoming: List<Incoming>)
    ensures HceFraming.AllFit(Ran(g, connected, once, done, incoming).replies)
    decreases incoming
  {
    hide Exchanged, IsControl;
    if !(once > 0 && done >= once) && incoming.Cons? && incoming.head.Frame? {
      var i := incoming.head;
      if IsControl(i.data) {
        RepliesFit(g, connected, once, done, incoming.tail);
      } else {
        RepliesFit(Turn(g, connected, i).0, true, once, done + 1, incoming.tail);
      }
    }
  }

  // Over the byte streams: whatever the phone writes, however it is chunked, what the phone
  // reads back are the replies, the i-th of them the card's answer to its i-th command frame.
  lemma PhoneReadsAnswers(g: Gate, once: int, stream: seq<byte>, broken: bool, world: nat -> Response)
    ensures var incoming := Received(stream, broken, world, 0);
            var s := Ran(g, false, once, 0, incoming);
            && HceFraming.ReadAll(HceFraming.Wire(s.replies)) == s.replies
            && Paired(s.replies, Commands(incoming))
  {
    hide Ran, Received, HceFraming.Wire, HceFraming.ReadAll, Paired, Commands;
    var incoming := Received(stream, broken, world, 0);
    RepliesFit(g, false, once, 0, incoming);
    HceFraming.StreamRoundTrip(Ran(g, false, once, 0, incoming).replies);
    RepliesPair(g, false, once, 0, incoming);
  }

  // ---- Nothing the card says is held back ----

  // The policy lets the command through, and sees no mismatch in the answer.
  predicate Admits(g: Gate, c: seq<byte>, r: seq<byte>) {
    match g
    case Raw => true
    case NtagGate(n) => Checked(n, c).1 == Pass && Observed(Checked(n, c).0, c, r).1
    case JcopGate(j) => CheckJcop(j, c) == Pass && ObserveJcop(j, c, r).1
  }

  // All that a command needs to be answered: a card to ask, a policy that admits it, an answer
  // of two bytes or more that a frame can hold, and a link that delivers it.
  predicate Answerable(g: Gate, connected: bool, i: Incoming)
    requires i.Frame?
  {
    && (connected || i.connects)
    && i.answer.Some? && 2 <= |i.answer.value| <= 65535 && Admits(g, i.data, i.answer.value)
    && i.delivers
  }

  predicate Crashes(g: Gate, c: seq<byte>) {
    match g
    case Raw => false
    case NtagGate(n) => Checked(n, c).1 == Crash
    case JcopGate(j) => CheckJcop(j, c) == Crash
  }

  // A command is answered if and only if it has all that, with what the card said; and an index
  // error is what ends the session if and only if the policy makes one.
  lemma AnsweredExactly(g: Gate, connected: bool, i: Incoming)
    requires i.Frame?
    ensures var (g1, link, told) := Turn(g, connected, i);
            && (told.Answered? <==> Answerable(g, connected, i))
            && (told.Answered? ==> i.answer == Some(told.reply))
            && (told == Over(Thrown) <==> (connected || i.connects) && Crashes(g, i.data))
  {
    hide Checked, Observed, CheckJcop, ObserveJcop;
  }

  predicate AllAnswerable(g: Gate, connected: bool, incoming: List<Incoming>)
    decreases incoming
  {
    match incoming
    case Nil => true
    case Cons(i, rest) =>
      && i.Frame?
      && if i.data == [0x01] || i.data == [0x02] then AllAnswerable(g, connected, rest)
         else Answerable(g, connected, i) && AllAnswerable(Turn(g, connected, i).0, true, rest)
  }

  // What the card says to each command frame, in order.
  function CardSays(incoming: List<Incoming>): List<seq<byte>> {
    match incoming
    case Nil => Nil
    case Cons(i, rest) =>
      if i.LinkError? || i.data == [0x01] || i.data == [0x02] then CardSays(rest)
      else Cons(Said(i.answer), CardSays(rest))
  }

  // Without a limit, a session ends well if and only if the link held and every command was
  // answerable; and then the replies are what the card said, all of it and nothing else.
  lemma {:induction false} NothingIsHeldBack(g: Gate, connected: bool, done: nat, incoming: List<Incoming>)
    ensures var s := Ran(g, connected, 0, done, incoming);
            && (s.code == Closed <==> AllAnswerable(g, connected, incoming))
            && (s.code == Closed ==> s.replies == CardSays(incoming))
    decreases incoming
  {
    hide Turn, Answerable;
    match incoming
    case Nil =>
    case Cons(i, rest) =>
      if i.Frame? {
        AnsweredExactly(g, connected, i);
        TurnIs(g, connected, i);
        NothingIsHeldBack(g, connected, done, rest);
        NothingIsHeldBack(Turn(g, connected, i).0, true, done + 1, rest);
      }
  }

  // The limit holds, and is what a session that is done has reached.
  lemma {:induction false} LimitHolds(g: Gate, connected: bool, once: int, done: nat, incoming: List<Incoming>)
    requires once > 0 ==> done <= once
    ensures var s := Ran(g, connected, once, done, incoming);
            && (once > 0 ==> done + Length(s.replies) <= once)
            && (s.code == Done ==> once > 0 && done + Length(s.replies) == once)
    decreases incoming
  {
    hide Turn, IsControl;
    if !(once > 0 && done >= once) && incoming.Cons? && incoming.head.Frame? {
      var i := incoming.head;
      if IsControl(i.data) {
        LimitHolds(g, connected, once, done, incoming.tail);
      } else {
        TurnIs(g, connected, i);
        LimitHolds(Turn(g, connected, i).0, true, once, done + 1, incoming.tail);
      }
    }
  }

  // A session the phone closed has answered every command, and one that broke has not.
  lemma {:induction false} EndsWellOrShort(g: Gate, connected: bool, once: int, done: nat, incoming: List<Incoming>)
    ensures var s := Ran(g, connected, once, done, incoming);
            && (s.code == Closed ==> Length(s.replies) == Length(Commands(incoming)))
            && (s.code == Broken || s.code == Thrown ==> Length(s.replies) < Length(Commands(incoming)))
    decreases incoming
  {
    hide Turn, IsControl;
    if !(once > 0 && done >= once) && incoming.Cons? && incoming.head.Frame? {
      var i := incoming.head;
      if IsControl(i.data) {
        EndsWellOrShort(g, connected, once, done, incoming.tail);
      } else {
        TurnIs(g, connected, i);
        EndsWellOrShort(Turn(g, connected, i).0, true, once, done + 1, incoming.tail);
      }
    }
  }

  // ---- Safety of the card, over every session ----

  // Each command that reached the card was permitted by what had gone before.
  predicate Lawful(log: List<Link>, links: List<Link>, id: seq<byte>)
    decreases links
  {
    links.Cons? ==> Permitted(log, id, links.head.capdu) && Lawful(Cons(links.head, log), links.tail, id)
  }

  lemma NtagExchange(n: Ntag, log: List<Link>, c: seq<byte>, answer: Option<seq<byte>>)
    requires Remembers(n, log)
    ensures var (g1, link, out) := Exchanged(NtagGate(n), c, answer);
            && g1.NtagGate? && g1.n.expected == n.expected
            && (link.Some? <==> Permitted(log, n.expected, c))
            && (out.Reply? ==> link.Some? && Remembers(g1.n, Cons(link.value, log)))
  {
    hide Checked, Observed, Remembers, Permitted;
    CheckIsExact(n, log, c);
    CheckedKeeps(n, c);
    if answer.Some? && Checked(n, c).1 == Pass {
      ObserveRemembers(n, log, c, answer.value);
      CheckedKeeps(n, c);
      ObservedKeeps(Checked(n, c).0, c, answer.value);
    }
  }

  lemma NtagTurn(n: Ntag, log: List<Link>, connected: bool, i: Incoming)
    requires Remembers(n, log) && i.Frame?
    ensures var (g1, link, told) := Turn(NtagGate(n), connected, i);
            && g1.NtagGate? && g1.n.expected == n.expected
            && (link.Some? ==> Permitted(log, n.expected, i.data))
            && (told.Answered? ==> link.Some? && Remembers(g1.n, Cons(link.value, log)))
  {
    hide Exchanged, Sendable, Remembers, Permitted;
    NtagExchange(n, log, i.data, i.answer);
  }

  lemma CheckedKeeps(n: Ntag, c: seq<byte>)
    ensures Checked(n, c).0.expected == n.expected
  {
    hide IsStart, IsContinuation, IsNdefSelect, InProfile, Unindexable;
  }

  lemma ObservedKeeps(n: Ntag, c: seq<byte>, r: seq<byte>)
    ensures Observed(n, c, r).0.expected == n.expected
  {
    hide IsStart, IsContinuation, EndsIn, Slice;
  }

  // In every session, whatever the phone sends and the card answers, each command that
  // reaches an NTAG424 is one its history permits.
  lemma {:induction false} SessionsAreLawful(n: Ntag, log: List<Link>, connected: bool, once: int, done: nat,
                                             incoming: List<Incoming>)
    requires Remembers(n, log)
    ensures Lawful(log, Ran(NtagGate(n), connected, once, done, incoming).links, n.expected)
    decreases incoming
  {
    hide Turn, IsControl, Permitted, Remembers;
    if !(once > 0 && done >= once) && incoming.Cons? && incoming.head.Frame? {
      var i := incoming.head;
      if IsControl(i.data) {
        SessionsAreLawful(n, log, connected, once, done, incoming.tail);
      } else {
        NtagTurn(n, log, connected, i);
        TurnIs(NtagGate(n), connected, i);
        var (g1, link, told) := Turn(NtagGate(n), connected, i);
        if told.Answered? {
          SessionsAreLawful(g1.n, Cons(link.value, log), true, once, done + 1, incoming.tail);
        }
      }
    }
  }

  lemma FreshRemembers(id: seq<byte>)
    ensures Remembers(Ntag(id, false, false, false), Nil)
  {
  }

  // What being lawful amounts to: a continuation continues an unbroken chain answered 91AF
  // throughout; only the version chain and the NDEF SELECT come before the identity was
  // seen; nothing comes after a mismatch.
  lemma {:induction false} LawfulMeans(log: List<Link>, links: List<Link>, id: seq<byte>, k: nat)
    requires Lawful(log, links, id) && k < Length(links)
    ensures var (before, c) := At(log, links, k);
            && !Mismatched(before, id)
            && (IsContinuation(c) ==> OpenChain(before))
            && (!Identified(before, id) ==> IsStart(c) || IsContinuation(c) || IsNdefSelect(c))
    decreases k
  {
    hide Mismatched, OpenChain, Identified, IsStart, IsContinuation, IsNdefSelect, InProfile;
    if k > 0 { LawfulMeans(Cons(links.head, log), links.tail, id, k - 1); }
  }

  // The k-th command to the card, and everything that went before it, newest first.
  function At(log: List<Link>, links: List<Link>, k: nat): (List<Link>, seq<byte>)
    requires k < Length(links)
    decreases k
  {
    if k == 0 then (log, links.head.capdu) else At(Cons(links.head, log), links.tail, k - 1)
  }

  predicate LawfulJcop(log: List<Link>, links: List<Link>, id: seq<byte>)
    decreases links
  {
    links.Cons? ==> PermittedJcop(log, id, links.head.capdu) && LawfulJcop(Cons(links.head, log), links.tail, id)
  }

  lemma JcopExchange(j: Jcop, log: List<Link>, c: seq<byte>, answer: Option<seq<byte>>)
    requires j.verified == Ledgered(log, j.expected)
    ensures var (g1, link, out) := Exchanged(JcopGate(j), c, answer);
            && g1.JcopGate? && g1.j.expected == j.expected
            && (link.Some? <==> PermittedJcop(log, j.expected, c))
            && (out.Reply? ==> link.Some? && g1.j.verified == Ledgered(Cons(link.value, log), g1.j.expected))
  {
    hide CheckJcop, ObserveJcop, PermittedJcop, Ledgered;
    JcopCheckIsExact(j, log, c);
    if answer.Some? { JcopObserveRemembers(j, log, c, answer.value); }
  }

  lemma JcopTurn(j: Jcop, log: List<Link>, connected: bool, i: Incoming)
    requires j.verified == Ledgered(log, j.expected) && i.Frame?
    ensures var (g1, link, told) := Turn(JcopGate(j), connected, i);
            && g1.JcopGate? && g1.j.expected == j.expected
            && (link.Some? ==> PermittedJcop(log, j.expected, i.data))
            && (told.Answered? ==> link.Some? && g1.j.verified == Ledgered(Cons(link.value, log), g1.j.expected))
  {
    hide Exchanged, Sendable, PermittedJcop, Ledgered;
    JcopExchange(j, log, i.data, i.answer);
  }

  lemma {:induction false} JcopSessionsAreLawful(j: Jcop, log: List<Link>, connected: bool, once: int, done: nat,
                                                 incoming: List<Incoming>)
    requires j.verified == Ledgered(log, j.expected)
    ensures LawfulJcop(log, Ran(JcopGate(j), connected, once, done, incoming).links, j.expected)
    decreases incoming
  {
    hide Turn, IsControl, PermittedJcop, Ledgered;
    if !(once > 0 && done >= once) && incoming.Cons? && incoming.head.Frame? {
      var i := incoming.head;
      if IsControl(i.data) {
        JcopSessionsAreLawful(j, log, connected, once, done, incoming.tail);
      } else {
        JcopTurn(j, log, connected, i);
        TurnIs(JcopGate(j), connected, i);
        var (g1, link, told) := Turn(JcopGate(j), connected, i);
        if told.Answered? {
          JcopSessionsAreLawful(g1.j, Cons(link.value, log), true, once, done + 1, incoming.tail);
        }
      }
    }
  }

  // What that amounts to: before the ledger identity was seen, the ledger query alone.
  lemma {:induction false} LawfulJcopMeans(log: List<Link>, links: List<Link>, id: seq<byte>, k: nat)
    requires LawfulJcop(log, links, id) && k < Length(links)
    ensures var (before, c) := At(log, links, k); IsCplc(c) || (Ledgered(before, id) && InJcopProfile(c))
    decreases k
  {
    hide Ledgered, IsCplc, InJcopProfile;
    if k > 0 { LawfulJcopMeans(Cons(links.head, log), links.tail, id, k - 1); }
  }

  // ---- From start-up ----

  // Whatever the phone sends and the card answers, from a fresh policy on: the k-th command
  // to reach an NTAG424, against all that went before it.
  lemma EveryNtagSession(id: seq<byte>, once: int, incoming: List<Incoming>, k: nat)
    requires k < Length(Ran(NtagGate(Ntag(id, false, false, false)), false, once, 0, incoming).links)
    ensures var links := Ran(NtagGate(Ntag(id, false, false, false)), false, once, 0, incoming).links;
            var (before, c) := At(Nil, links, k);
            && !Mismatched(before, id)
            && (IsContinuation(c) ==> OpenChain(before))
            && (!Identified(before, id) ==> IsStart(c) || IsContinuation(c) || IsNdefSelect(c))
  {
    hide Ran, At, Lawful, Mismatched, OpenChain, Identified, IsStart, IsContinuation, IsNdefSelect;
    FreshRemembers(id);
    SessionsAreLawful(Ntag(id, false, false, false), Nil, false, once, 0, incoming);
    LawfulMeans(Nil, Ran(NtagGate(Ntag(id, false, false, false)), false, once, 0, incoming).links, id, k);
  }

  lemma EveryJcopSession(id: seq<byte>, once: int, incoming: List<Incoming>, k: nat)
    requires k < Length(Ran(JcopGate(Jcop(id, false)), false, once, 0, incoming).links)
    ensures var (before, c) := At(Nil, Ran(JcopGate(Jcop(id, false)), false, once, 0, incoming).links, k);
            IsCplc(c) || (Ledgered(before, id) && InJcopProfile(c))
  {
    hide Ran, At, LawfulJcop, IsCplc, InJcopProfile;
    JcopSessionsAreLawful(Jcop(id, false), Nil, false, once, 0, incoming);
    LawfulJcopMeans(Nil, Ran(JcopGate(Jcop(id, false)), false, once, 0, incoming).links, id, k);
  }

  // The same of a log, newest first: each entry permitted by those below it.
  predicate LawfulLog(log: List<Link>, id: seq<byte>) {
    log.Cons? ==> Permitted(log.tail, id, log.head.capdu) && LawfulLog(log.tail, id)
  }

  predicate LawfulJcopLog(log: List<Link>, id: seq<byte>) {
    log.Cons? ==> PermittedJcop(log.tail, id, log.head.capdu) && LawfulJcopLog(log.tail, id)
  }

  lemma {:induction false} LawfulOnto(below: List<Link>, links: List<Link>, id: seq<byte>)
    requires LawfulLog(below, id) && Lawful(below, links, id)
    ensures LawfulLog(Onto(links, below), id)
    decreases links
  {
    hide Permitted;
    if links.Cons? { LawfulOnto(Cons(links.head, below), links.tail, id); }
  }

  lemma {:induction false} LawfulJcopOnto(below: List<Link>, links: List<Link>, id: seq<byte>)
    requires LawfulJcopLog(below, id) && LawfulJcop(below, links, id)
    ensures LawfulJcopLog(Onto(links, below), id)
    decreases links
  {
    hide PermittedJcop;
    if links.Cons? { LawfulJcopOnto(Cons(links.head, below), links.tail, id); }
  }

  // A whole session of the objects with an NTAG424: what reached the card was permitted,
  // command by command, and the phone was written the replies of that very session.
  method ServeNtag(id: seq<byte>, once: int, socket: HceFraming.Socket, world: nat -> Response)
    returns (log: List<Link>, code: Code)
    modifies socket
    ensures LawfulLog(log, id)
    ensures var s := Ran(NtagGate(Ntag(id, false, false, false)), false, once, 0,
                         Received(old(socket.pending), socket.broken, world, 0));
            && code == s.code && log == Onto(s.links, Nil)
            && socket.written == old(socket.written) + HceFraming.Wire(s.replies)
  {
    hide Ran, Received, Onto, Lawful, LawfulLog, HceFraming.Wire;
    ghost var incoming := Received(socket.pending, socket.broken, world, 0);
    var policy := new Ntag424ReadOnlyPolicy(id);
    var backend := new PcscBackend(policy, null);
    var session := new RelaySession(backend);
    code := session.Run(once, socket, world);
    log := backend.log;
    FreshRemembers(id);
    SessionsAreLawful(Ntag(id, false, false, false), Nil, false, once, 0, incoming);
    EmptyLogIsLawful(id);
    LawfulOnto(Nil, Ran(NtagGate(Ntag(id, false, false, false)), false, once, 0, incoming).links, id);
  }

  lemma EmptyLogIsLawful(id: seq<byte>)
    ensures LawfulLog(Nil, id) && LawfulJcopLog(Nil, id)
  {
  }

  method ServeJcop(id: seq<byte>, once: int, socket: HceFraming.Socket, world: nat -> Response)
    returns (log: List<Link>, code: Code)
    modifies socket
    ensures LawfulJcopLog(log, id)
    ensures var s := Ran(JcopGate(Jcop(id, false)), false, once, 0,
                         Received(old(socket.pending), socket.broken, world, 0));
            && code == s.code && log == Onto(s.links, Nil)
            && socket.written == old(socket.written) + HceFraming.Wire(s.replies)
  {
    hide Ran, Received, Onto, LawfulJcop, LawfulJcopLog, HceFraming.Wire;
    ghost var incoming := Received(socket.pending, socket.broken, world, 0);
    var policy := new JcopReadOnlyPolicy(id);
    var backend := new PcscBackend(null, policy);
    var session := new RelaySession(backend);
    code := session.Run(once, socket, world);
    log := backend.log;
    JcopSessionsAreLawful(Jcop(id, false), Nil, false, once, 0, incoming);
    EmptyLogIsLawful(id);
    LawfulJcopOnto(Nil, Ran(JcopGate(Jcop(id, false)), false, once, 0, incoming).links, id);
  }
}
