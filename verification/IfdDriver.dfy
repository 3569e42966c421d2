/** The transaction layer of the IFD driver, against every behaviour of socket and board. */
module IfdDriver {
  import opened Bytes
  import opened GemPc
  import opened IfdCodec

  // ---- The environment: a socket and the board behind it ----

  // A command the board has completely received, and what it answers.
  datatype Exchange = Exchange(command: seq<byte>, interims: List<seq<byte>>, answer: seq<byte>)

  function Replies(interims: List<seq<byte>>, answer: seq<byte>): seq<byte> {
    match interims
    case Nil => Build(answer)
    case Cons(i, rest) => Build(i) + Replies(rest, answer)
  }

  // What a FIFO board writes for one exchange: the echo, the interims, the answer.
  function Output(x: Exchange): seq<byte> {
    Build(x.command) + Replies(x.interims, x.answer)
  }

  predicate AllInterims(interims: List<seq<byte>>, seqno: byte) {
    match interims
    case Nil => true
    case Cons(i, rest) => Message(i) && IsTimeExtension(Build(i), seqno) && AllInterims(rest, seqno)
  }

  // The shapes a board may answer with: interims are time extensions of this command,
  // the final answer of an extendable command is not one, and a polite board sends no
  // more interims than the driver reads past.
  predicate Plausible(x: Exchange, polite: bool) {
    && Message(x.command) && Message(x.answer)
    && AllInterims(x.interims, SeqOf(x.command))
    && (MayExtend(x.command[0]) ==> !IsTimeExtension(Build(x.answer), SeqOf(x.command)))
    && (polite ==> Length(x.interims) <= Patience(x.command[0]))
  }

  // An answer every board could give: the command failed.
  function Refusal(seqno: byte): (answer: seq<byte>)
    ensures Message(answer) && answer[7] == 0x40 && answer[6] == seqno
  {
    Bulk(RDR_SLOT_STATUS, 0, seqno, 0x40, 0, 0, [])
  }

  function SeqOf(command: seq<byte>): byte
    requires Message(command)
  {
    command[6]
  }

  lemma RefusalIsPlausible(command: seq<byte>, polite: bool)
    requires Message(command)
    ensures Plausible(Exchange(command, Nil, Refusal(SeqOf(command))), polite)
  {
    hide Build, Refusal, IsTimeExtension, FromLe32;
    RefusalIsFinal(SeqOf(command));
  }

  lemma RefusalIsFinal(seqno: byte)
    ensures !IsTimeExtension(Build(Refusal(seqno)), seqno)
  {
    hide Build, Lrc, FromLe32, Message, Refusal, Sealed;
    BuildIsSealed(Refusal(seqno));
  }

  datatype IoResult = Moved(count: nat) | Interrupted | Failed

  class Peer {
    const fifo: bool     // the board answers in order, and only what it was asked
    const polite: bool   // and keeps within the interims the driver reads past
    var up: bool
    var parser: Parser
    var history: List<Exchange>   // commands completely received, newest first
    var inbound: seq<byte>        // written by the board on this connection, not yet read
    var budget: nat               // interruptions and bytes the environment will still produce

    // Bytes handed over may complete commands; the board answers each.
    ghost predicate Reacted(events: List<Event>, before: List<Exchange>, unread: seq<byte>)
      reads this`history, this`inbound
    {
      && (events.Nil? ==> history == before && inbound == unread)
      && (events.Cons? && events.head.Command? && Message(events.head.ccid) && events.tail.Nil? ==>
            Answered(events.head.ccid, before, unread))
    }

    ghost predicate Answered(command: seq<byte>, before: List<Exchange>, unread: seq<byte>)
      reads this`history, this`inbound
    {
      && Delivered(command, before)
      && (fifo ==> inbound == unread + Output(history.head))
    }

    // Exactly one more command has been delivered, and it is this one.
    ghost predicate Delivered(command: seq<byte>, before: List<Exchange>)
      reads this`history
    {
      && history.Cons? && history.tail == before
      && history.head.command == command
      && Plausible(history.head, polite)
    }

    method Connect() returns (ok: bool)
      requires !up
      modifies this
      ensures up == ok && history == old(history) && budget == old(budget)
      ensures ok ==> parser == FRESH && inbound == []
    {
      ok := *;
      if ok {
        up, parser, inbound := true, FRESH, [];
      }
    }

    method Close()
      modifies this`up
      ensures !up
    {
      up := false;
    }

    // One socket send: some of the bytes, an interruption, or an error.
    method Send(bytes: seq<byte>) returns (r: IoResult)
      requires up && bytes != []
      modifies this`parser, this`history, this`inbound, this`budget
      ensures r.Interrupted? ==> budget < old(budget)
      ensures r.Moved? ==> 0 < r.count <= |bytes| && budget == old(budget)
      ensures r.Moved? ==> parser == FeedAll(old(parser), bytes[..r.count]).0
      ensures r.Moved? ==> Reacted(FeedAll(old(parser), bytes[..r.count]).1, old(history), old(inbound))
      ensures !r.Moved? ==> parser == old(parser) && history == old(history) && inbound == old(inbound)
    {
      hide FeedAll, Reacted;
      var count: int := *;
      var fails: bool := *;
      if fails {
        return Failed;
      }
      if count <= 0 {
        if budget == 0 { return Failed; }
        budget := budget - 1;
        return Interrupted;
      }
      count := if count <= |bytes| then count else |bytes|;
      var (next, events) := FeedAll(parser, bytes[..count]);
      React(events);
      parser := next;
      return Moved(count);
    }

    method React(events: List<Event>)
      modifies this`history, this`inbound
      ensures Reacted(events, old(history), old(inbound))
      decreases events
    {
      hide Plausible, Output;
      if events.Cons? {
        if events.head.Command? && Message(events.head.ccid) {
          AnswerOne(events.head.ccid);
        }
        React(events.tail);
      }
    }

    // The board is free to answer anything plausible.
    method AnswerOne(command: seq<byte>)
      requires Message(command)
      modifies this`history, this`inbound
      ensures Answered(command, old(history), old(inbound))
    {
      hide Plausible, Output, Message, Refusal;
      var interims: List<seq<byte>> := *;
      var answer: seq<byte> := *;
      var x := Exchange(command, interims, answer);
      if !Plausible(x, polite) {
        RefusalIsPlausible(command, polite);
        x := Exchange(command, Nil, Refusal(SeqOf(command)));
      }
      history := Cons(x, history);
      inbound := inbound + Output(x);
    }

    // One socket read of at most n bytes. Only a FIFO board constrains what they are.
    method Read(n: nat) returns (r: IoResult, data: seq<byte>)
      requires up && n > 0
      modifies this`inbound, this`budget
      ensures r.Moved? ==> 0 < |data| <= n && budget < old(budget)
      ensures r.Moved? && fifo ==>
                |data| <= |old(inbound)| && data == old(inbound)[..|data|] && inbound == old(inbound)[|data|..]
      ensures r.Interrupted? ==> budget < old(budget)
      ensures !r.Moved? ==> inbound == old(inbound)
      ensures budget <= old(budget)
    {
      var count: int := *;
      var outcome: int := *;
      data := [];
      if outcome == 0 || budget == 0 {
        return Failed, [];
      }
      budget := budget - 1;
      if outcome == 1 {
        return Interrupted, [];
      }
      if !fifo {
        data := *;
        if data == [] || |data| > n { data := [0]; }
        return Moved(|data|), data;
      }
      if inbound == [] {
        return Interrupted, [];
      }
      count := if count <= 0 then 1 else count;
      count := if count <= n then count else n;
      count := if count <= |inbound| then count else |inbound|;
      data, inbound := inbound[..count], inbound[count..];
      return Moved(count), data;
    }
  }

  // ---- The driver ----

  const TX_OK := 0
  const TX_NOT_SENT := -1
  const TX_AMBIGUOUS := -2

  class Driver {
    const peer: Peer
    var connected: bool
    var seqno: byte

    constructor (peer: Peer)
      requires !peer.up
      ensures this.peer == peer && !connected && seqno == 0
    {
      this.peer, connected, seqno := peer, false, 0;
    }

    // Between commands a live connection has no half-sent request on it.
    ghost predicate Valid()
      reads this, peer
    {
      && connected == peer.up
      && (connected ==> Idle(peer.parser))
    }

    // Nor, with a polite FIFO board, anything unread.
    ghost predicate Synced()
      reads this, peer
    {
      connected ==> peer.inbound == []
    }

    method Eject()
      modifies this`connected, peer`up
      ensures Valid() && !connected
    {
      if connected {
        connected := false;
      }
      peer.Close();
    }

    method Connect() returns (ok: bool)
      requires Valid()
      modifies this`connected, peer
      ensures Valid() && ok == connected
      ensures peer.history == old(peer.history)
      ensures old(Synced()) ==> Synced()
    {
      if connected {
        return true;
      }
      ok := peer.Connect();
      connected := ok;
    }

    method ReadAll(n: nat) returns (ok: bool, data: seq<byte>)
      requires connected && peer.up
      modifies peer`inbound, peer`budget
      ensures ok ==> |data| == n
      ensures ok && peer.fifo ==>
                n <= |old(peer.inbound)| && data == old(peer.inbound)[..n] && peer.inbound == old(peer.inbound)[n..]
      ensures ok && n > 0 ==> peer.budget < old(peer.budget)
      ensures peer.budget <= old(peer.budget)
    {
      data := [];
      while |data| < n
        invariant |data| <= n && peer.budget <= old(peer.budget)
        invariant |data| > 0 ==> peer.budget < old(peer.budget)
        invariant peer.fifo ==>
                    |data| <= |old(peer.inbound)| && data == old(peer.inbound)[..|data|] &&
                    peer.inbound == old(peer.inbound)[|data|..]
        decreases peer.budget
      {
        ghost var got, unread := data, peer.inbound;
        var r, more := peer.Read(n - |data|);
        if r.Failed? {
          return false, data;
        }
        if r.Moved? {
          if peer.fifo {
            TwoReads(old(peer.inbound), |got|, |more|);
          }
          data := data + more;
        }
      }
      ok := true;
    }

    // Skip to the next SYNC, ACK pair: 1 found, 0 a NAK, -1 a transport error.
    method Resync() returns (r: int)
      requires connected && peer.up
      modifies peer`inbound, peer`budget
      ensures r <= 1
      ensures r == 1 && peer.fifo ==> Recv(old(peer.inbound)) == Body([SYNC, CTRL_ACK] + peer.inbound)
    {
      hide Recv, Body;
      while true
        invariant peer.fifo ==> Recv(peer.inbound) == Recv(old(peer.inbound))
        decreases peer.budget
      {
        ghost var s := peer.inbound;
        var ok, b := ReadAll(1);
        if !ok { return -1; }
        if b[0] != SYNC {
          if peer.fifo { RecvSkips(s); }
          continue;
        }
        ok, b := ReadAll(1);
        if !ok { return -1; }
        if b[0] == CTRL_NAK { return 0; }
        if peer.fifo { RecvSkipsPair(s); }
        if b[0] != CTRL_ACK { continue; }
        return 1;
      }
    }

    // One frame into frame[]: its length, 0 on a NAK, -1 on a transport error.
    method RecvFrame(frame: array<byte>) returns (n: int)
      requires connected && peer.up && frame.Length == MAX_FRAME
      modifies peer`inbound, peer`budget, frame
      ensures n <= MAX_FRAME
      ensures n > 0 ==> Sealed(frame[..n])
      ensures n > 0 && peer.fifo ==> Recv(old(peer.inbound)) == Got(frame[..n], peer.inbound)
    {
      hide Recv, Body, Lrc, Sealed, FromLe32;
      var r := Resync();
      if r != 1 { return r; }
      ghost var s := peer.inbound;
      var ok, header := ReadAll(HEADER_SIZE);
      if !ok { return -1; }
      ghost var afterHeader := peer.inbound;
      var dwlen := FromLe32(header[1], header[2], header[3], header[4]);
      if dwlen > MAX_PAYLOAD { return -1; }
      var payload: seq<byte> := [];
      if dwlen > 0 {
        ok, payload := ReadAll(dwlen);
        if !ok { return -1; }
      }
      ghost var afterPayload := peer.inbound;
      var last;
      ok, last := ReadAll(1);
      if !ok { return -1; }
      n := CheckAndStore(frame, header, payload, last);
      if peer.fifo {
        assert afterHeader == payload + afterPayload && afterPayload == last + peer.inbound &&
               s == header + afterHeader;
        if n > 0 { BodyByParts(header, payload, last, peer.inbound); }
      }
    }

    // Hand a whole request to the socket, in as many pieces as it takes.
    method SendFrame(frame: array<byte>, len: nat, ghost command: seq<byte>) returns (ok: bool)
      requires Valid() && connected && len <= frame.Length
      requires Message(command) && frame[..len] == Build(command)
      modifies peer`parser, peer`history, peer`inbound, peer`budget
      ensures ok ==> Valid() && peer.Answered(command, old(peer.history), old(peer.inbound))
      ensures !ok ==> peer.history == old(peer.history)
    {
      hide FeedAll, Message, Build, Midway, Plausible, Output;
      var sent: nat := 0;
      while sent < len
        invariant sent <= len && (sent == 0 ==> connected && peer.up)
        invariant sent < len ==>
                    At(command, peer.parser, sent) && peer.history == old(peer.history) &&
                    peer.inbound == old(peer.inbound)
        invariant sent == len ==> Idle(peer.parser) && peer.Answered(command, old(peer.history), old(peer.inbound))
        decreases len - sent, peer.budget
      {
        ghost var p := peer.parser;
        var r := peer.Send(frame[sent..len]);
        if r.Failed? { return false; }
        if r.Moved? {
          Delivered(command, p, frame[sent..len], sent, r.count);
          sent := sent + r.count;
        }
      }
      ok := true;
    }

    // One exchange: connect if needed, send, read the echo back, read the response.
    // A resend happens only while the request is provably incomplete at the board.
    method Transact(req: array<byte>, len: nat, resp: array<byte>, ghost command: seq<byte>) returns (rc: int, n: int)
      requires Valid() && resp.Length == MAX_FRAME && req != resp && len <= req.Length
      requires Message(command) && req[..len] == Build(command)
      modifies this`connected, peer, resp
      ensures Valid() && req[..len] == old(req[..len])
      ensures rc == TX_OK || rc == TX_NOT_SENT || rc == TX_AMBIGUOUS
      ensures rc == TX_NOT_SENT ==> !connected && peer.history == old(peer.history)
      ensures rc != TX_NOT_SENT ==> peer.Delivered(command, old(peer.history))
      ensures rc == TX_AMBIGUOUS ==> !connected
      ensures rc == TX_OK ==> connected && 0 < n <= MAX_FRAME && Sealed(resp[..n])
      ensures rc == TX_OK && peer.fifo && old(Synced()) ==>
                Recv(Replies(peer.history.head.interims, peer.history.head.answer)) == Got(resp[..n], peer.inbound)
    {
      hide Build, Message, Sealed, Recv, Idle, Plausible, Output, Replies;
      n := 0;
      var attempt := 0;
      while attempt < 2
        invariant Valid() && req[..len] == old(req[..len]) && (old(Synced()) ==> Synced())
        invariant attempt > 0 ==> !connected
        invariant peer.history == old(peer.history)
        decreases 2 - attempt
      {
        attempt := attempt + 1;
        var up := Connect();
        if !up { return TX_NOT_SENT, 0; }
        ghost var unread := peer.inbound;
        var sent := SendFrame(req, len, command);
        if !sent {
          Eject();
          continue;
        }
        if peer.fifo && unread == [] {
          assert peer.inbound == Output(peer.history.head) by {
            assert [] + Output(peer.history.head) == Output(peer.history.head);
          }
        }
        var echo := new byte[MAX_FRAME](_ => 0);
        n := RecvFrame(echo);
        if n <= 0 || n != len || echo[..n] != req[..len] {
          Eject();
          return TX_AMBIGUOUS, 0;
        }
        if peer.fifo && unread == [] {
          EchoIsRead(peer.history.head, echo[..n], peer.inbound);
        }
        n := RecvFrame(resp);
        if n <= 0 {
          Eject();
          return TX_AMBIGUOUS, 0;
        }
        return TX_OK, n;
      }
      rc := TX_NOT_SENT;
    }

    // A whole command: number it, exchange it, read past time extensions, check bSeq.
    method Command(kind: byte, spec0: byte, payload: seq<byte>, resp: array<byte>) returns (rc: int, n: int)
      requires Valid() && resp.Length == MAX_FRAME
      modifies this, peer, resp
      ensures Valid() && seqno == (old(seqno) + 1) % 0x100
      ensures |payload| > MAX_PAYLOAD ==>
                && rc != TX_OK && connected == old(connected)
                && peer.history == old(peer.history) && peer.inbound == old(peer.inbound)
      ensures |payload| <= MAX_PAYLOAD && rc != TX_OK ==> !connected
      ensures peer.history == old(peer.history) ||
              (|payload| <= MAX_PAYLOAD && peer.Delivered(Request(kind, old(seqno), spec0, payload), old(peer.history)))
      ensures rc == TX_OK ==>
                && connected && |payload| <= MAX_PAYLOAD
                && peer.Delivered(Request(kind, old(seqno), spec0, payload), old(peer.history))
                && 13 <= n <= MAX_FRAME && Sealed(resp[..n]) && resp[8] == old(seqno)
      ensures rc == TX_OK && peer.fifo && old(Synced()) ==>
                IsVerdict(peer.history.head, kind, resp[..n], peer.inbound, old(seqno))
    {
      hide Build, Message, Sealed, Recv, Idle, Plausible, Replies, IsTimeExtension, IsVerdict, ExtensionsRead, Asks,
        Request, Output, FromLe32, Lrc, PayloadLength, ReplyAt, RepliesFrom;
      var s := seqno;
      seqno := (seqno + 1) % 0x100;
      n := 0;
      if |payload| > MAX_PAYLOAD {
        return -1, 0;
      }
      var req := new byte[MAX_FRAME](_ => 0);
      ghost var command := Request(kind, s, spec0, payload);
      var len := BuildRequest(req, kind, s, spec0, payload);
      rc, n := Transact(req, len, resp, command);
      if rc != TX_OK {
        return;
      }
      ghost var x := peer.history.head;
      ghost var left := x.interims;
      SealedLength(resp[..n]);
      if peer.fifo && old(Synced()) { FirstReply(x); }
      var ext := 0;
      while MayExtend(kind) && ext < 64 && IsTimeExtension(resp[..n], s)
        invariant Valid() && connected && peer.history == Cons(x, old(peer.history))
        invariant seqno == (old(seqno) + 1) % 0x100 && (ext > 0 ==> MayExtend(kind))
        invariant 13 <= n <= MAX_FRAME && Sealed(resp[..n]) && 0 <= ext <= 64
        invariant peer.fifo && old(Synced()) ==> ExtensionsRead(x, ext, resp[..n], peer.inbound)
        decreases 64 - ext
      {
        ghost var before := resp[..n];
        ghost var unread := peer.inbound;
        var n2 := RecvFrame(resp);
        if n2 <= 0 {
          Eject();
          return -1, 0;
        }
        n := n2;
        SealedLength(resp[..n]);
        if peer.fifo && old(Synced()) { NextReply(x, kind, s, ext, before, unread, resp[..n], peer.inbound); }
        ext := ext + 1;
      }
      if resp[8] != s {
        Eject();
        return -1, 0;
      }
      if peer.fifo && old(Synced()) { Settled(x, kind, s, ext, resp[..n], peer.inbound); }
    }
  }

  // Builds a request in place; the frame's other bytes are untouched.
  method BuildRequest(frame: array<byte>, kind: byte, seqno: byte, spec0: byte, payload: seq<byte>) returns (len: nat)
    requires frame.Length == MAX_FRAME && |payload| <= MAX_PAYLOAD
    modifies frame
    ensures len == 13 + |payload| && frame[..len] == Build(Request(kind, seqno, spec0, payload))
    ensures Asks(frame[..len], kind, seqno, spec0, payload)
  {
    hide Lrc, Message, Request, Asks;
    RequestAsks(kind, seqno, spec0, payload);
    var ccid := Request(kind, seqno, spec0, payload);
    frame[0], frame[1] := SYNC, CTRL_ACK;
    Store(frame, 2, ccid);
    var body := 12 + |payload|;
    assert frame[..body] == Unsealed(ccid) by {
      assert frame[..2] == [SYNC, CTRL_ACK];
      assert frame[2..body] == ccid;
      assert frame[..body] == frame[..2] + frame[2..body];
    }
    var lrc := LrcOf(frame, body);
    frame[body] := lrc;
    len := body + 1;
    assert frame[..len] == Unsealed(ccid) + [lrc] by { assert frame[..body] == Unsealed(ccid); }
  }

  // The frames a FIFO board writes after the echo, by number.
  function ReplyAt(interims: List<seq<byte>>, answer: seq<byte>, k: nat): seq<byte> {
    match interims
    case Nil => answer
    case Cons(i, rest) => if k == 0 then i else ReplyAt(rest, answer, k - 1)
  }

  function RepliesFrom(interims: List<seq<byte>>, answer: seq<byte>, k: nat): seq<byte> {
    if k == 0 then Replies(interims, answer)
    else
      match interims
      case Nil => []
      case Cons(_, rest) => RepliesFrom(rest, answer, k - 1)
  }

  // Reply k has just been read and the later ones are unread.
  ghost predicate ExtensionsRead(x: Exchange, k: nat, resp: seq<byte>, unread: seq<byte>) {
    && k <= Length(x.interims)
    && resp == Build(ReplyAt(x.interims, x.answer, k))
    && unread == RepliesFrom(x.interims, x.answer, k + 1)
  }

  // What a successful command delivers from a FIFO board: the board's answer to that very
  // request, with nothing left unread, if and only if the board kept within the driver's
  // patience; otherwise one of the interims.
  ghost predicate IsVerdict(x: Exchange, kind: byte, resp: seq<byte>, unread: seq<byte>, seqno: byte) {
    if Length(x.interims) <= Patience(kind) then resp == Build(x.answer) && unread == []
    else |resp| >= 13 && IsTimeExtension(resp, seqno) && unread != []
  }

  // For XfrBlock, IccPowerOn and Escape the two cases exclude each other; of any other command
  // the first frame after the echo is the result.
  lemma VerdictExact(x: Exchange, kind: byte, resp: seq<byte>, unread: seq<byte>, seqno: byte)
    requires Plausible(x, false) && x.command[0] == kind && x.command[6] == seqno
    requires IsVerdict(x, kind, resp, unread, seqno)
    ensures kind == 0x6F || kind == 0x62 || kind == 0x6B ==>
              (resp == Build(x.answer) <==> Length(x.interims) <= 64)
    ensures kind != 0x6F && kind != 0x62 && kind != 0x6B && x.interims == Nil ==>
              resp == Build(x.answer) && unread == []
  {
    hide Build, Message, IsTimeExtension;
  }

  // A board that stalls n times.
  function Many(interim: seq<byte>, n: nat): List<seq<byte>> {
    if n == 0 then Nil else Cons(interim, Many(interim, n - 1))
  }

  lemma {:induction false} ManyInterims(interim: seq<byte>, seqno: byte, n: nat, answer: seq<byte>)
    requires Message(interim) && IsTimeExtension(Build(interim), seqno)
    ensures AllInterims(Many(interim, n), seqno) && Length(Many(interim, n)) == n
    ensures n > 0 ==> ReplyAt(Many(interim, n), answer, n - 1) == interim
    ensures n > 0 ==> RepliesFrom(Many(interim, n), answer, n) == Build(answer)
    decreases n
  {
    hide Build, IsTimeExtension, Message;
    if n > 0 {
      ManyInterims(interim, seqno, n - 1, answer);
    }
    assert Build(answer) + [] == Build(answer);
  }

  // Stalling 65 times is enough: the last interim is taken for the answer, which stays unread.
  lemma SixtyFiveInterims(x: Exchange, kind: byte, seqno: byte, icc: byte, n: nat)
    requires Message(x.command) && x.command[0] == kind && x.command[6] == seqno && MayExtend(kind) && icc <= 2 &&
             n == 65
    requires x.interims == Many(FirmwareInterim(seqno, icc), n) && x.answer == Refusal(seqno)
    ensures Plausible(x, false)
    ensures var resp := Build(FirmwareInterim(seqno, icc));
            && ExtensionsRead(x, n - 1, resp, Build(x.answer)) && IsVerdict(x, kind, resp, Build(x.answer), seqno)
            && resp != Build(x.answer)
  {
    hide Build, FirmwareInterim, IsTimeExtension, FromLe32, Many, AllInterims, ReplyAt, RepliesFrom, Refusal,
      PayloadLength;
    InterimIsRecognised(seqno, icc);
    ManyInterims(FirmwareInterim(seqno, icc), seqno, n, x.answer);
    RefusalIsFinal(seqno);
  }

  lemma {:induction false} ReplyShape(interims: List<seq<byte>>, answer: seq<byte>, seqno: byte, k: nat)
    requires AllInterims(interims, seqno) && Message(answer) && k <= Length(interims)
    ensures Message(ReplyAt(interims, answer, k))
    ensures k < Length(interims) ==> IsTimeExtension(Build(ReplyAt(interims, answer, k)), seqno)
    ensures k == Length(interims) ==> ReplyAt(interims, answer, k) == answer
    ensures RepliesFrom(interims, answer, k) ==
              Build(ReplyAt(interims, answer, k)) + RepliesFrom(interims, answer, k + 1)
    ensures RepliesFrom(interims, answer, k + 1) == [] <==> k == Length(interims)
  {
    hide Message, IsTimeExtension;
    match interims
    case Nil =>
      assert Build(answer) + [] == Build(answer);
    case Cons(i, rest) =>
      if k > 0 {
        ReplyShape(rest, answer, seqno, k - 1);
      } else {
        RepliesNonempty(rest, answer);
      }
  }

  lemma RepliesNonempty(interims: List<seq<byte>>, answer: seq<byte>)
    ensures Replies(interims, answer) != []
  {
  }

  lemma FirstReply(x: Exchange)
    requires Plausible(x, false) || Plausible(x, true)
    ensures forall resp, unread ::
              Recv(Replies(x.interims, x.answer)) == Got(resp, unread) ==> ExtensionsRead(x, 0, resp, unread)
  {
    hide Build, Message, IsTimeExtension, Recv, Replies;
    ReplyShape(x.interims, x.answer, SeqOf(x.command), 0);
    RecvFirst(ReplyAt(x.interims, x.answer, 0), RepliesFrom(x.interims, x.answer, 1));
  }

  lemma NextReply(x: Exchange, kind: byte, seqno: byte, k: nat, resp: seq<byte>, unread: seq<byte>, next: seq<byte>,
                  rest: seq<byte>)
    requires Plausible(x, false) || Plausible(x, true)
    requires x.command[0] == kind && x.command[6] == seqno && MayExtend(kind)
    requires ExtensionsRead(x, k, resp, unread) && |resp| >= 13 && IsTimeExtension(resp, seqno)
    requires Recv(unread) == Got(next, rest)
    ensures ExtensionsRead(x, k + 1, next, rest)
  {
    hide Build, Message, IsTimeExtension, Recv, Replies;
    ReplyShape(x.interims, x.answer, seqno, k);
    if k < Length(x.interims) {
      ReplyShape(x.interims, x.answer, seqno, k + 1);
      RecvFirst(ReplyAt(x.interims, x.answer, k + 1), RepliesFrom(x.interims, x.answer, k + 2));
    }
  }

  lemma Settled(x: Exchange, kind: byte, seqno: byte, k: nat, resp: seq<byte>, unread: seq<byte>)
    requires Plausible(x, false) || Plausible(x, true)
    requires x.command[0] == kind && x.command[6] == seqno
    requires ExtensionsRead(x, k, resp, unread) && |resp| >= 13
    requires if MayExtend(kind) then k <= 64 && (k == 64 || !IsTimeExtension(resp, seqno)) else k == 0
    ensures IsVerdict(x, kind, resp, unread, seqno)
  {
    hide Build, Message, IsTimeExtension, Replies;
    ReplyShape(x.interims, x.answer, seqno, k);
  }

  // After the echo of a request, what a FIFO board wrote is its replies.
  lemma EchoIsRead(x: Exchange, echo: seq<byte>, rest: seq<byte>)
    requires Message(x.command) && Recv(Output(x)) == Got(echo, rest)
    ensures rest == Replies(x.interims, x.answer)
  {
    hide Build, Message, Recv, Replies;
    RecvFirst(x.command, Replies(x.interims, x.answer));
  }

  lemma RecvFirst(ccid: seq<byte>, rest: seq<byte>)
    requires Message(ccid)
    ensures Recv(Build(ccid) + rest) == Got(Build(ccid), rest)
  {
    hide Build, Message, Recv;
    RecvRoundTrip([], ccid, rest);
    assert [] + Build(ccid) + rest == Build(ccid) + rest;
  }

  lemma RecvSkips(s: seq<byte>)
    requires |s| >= 1 && s[0] != SYNC
    ensures Recv(s) == Recv(s[1..])
  {
  }

  lemma RecvSkipsPair(s: seq<byte>)
    requires |s| >= 2 && s[0] == SYNC && s[1] != CTRL_NAK
    ensures s[1..][1..] == s[2..]
    ensures Recv(s) == if s[1] == CTRL_ACK then Body([SYNC, CTRL_ACK] + s[2..]) else Recv(s[2..])
  {
    if s[1] == CTRL_ACK { assert s == [SYNC, CTRL_ACK] + s[2..]; }
  }

  // The checksum loop, over the first len bytes of the frame.
  method LrcOf(frame: array<byte>, len: nat) returns (lrc: byte)
    requires len <= frame.Length
    ensures lrc == Lrc(frame[..len])
  {
    lrc := 0;
    for i := 0 to len
      invariant lrc == Lrc(frame[..i])
    {
      LrcSnoc(frame[..i], frame[i]);
      assert frame[..i] + [frame[i]] == frame[..i + 1];
      lrc := Xor(lrc, frame[i]);
    }
  }

  method Store(frame: array<byte>, at: nat, data: seq<byte>)
    requires at + |data| <= frame.Length
    modifies frame
    ensures frame[at..at + |data|] == data
    ensures frame[..at] == old(frame[..at]) && frame[at + |data|..] == old(frame[at + |data|..])
  {
    forall i | 0 <= i < |data| {
      frame[at + i] := data[i];
    }
  }

  // The tail of RecvFrame: the parts go into frame[], then the checksum is compared.
  method CheckAndStore(frame: array<byte>, header: seq<byte>, payload: seq<byte>, last: seq<byte>) returns (n: int)
    requires frame.Length == MAX_FRAME && |last| == 1
    requires |header| == HEADER_SIZE && |payload| == FromLe32(header[1], header[2], header[3], header[4]) <= MAX_PAYLOAD
    modifies frame
    ensures n <= MAX_FRAME
    ensures n > 0 ==> && frame[..n] == [SYNC, CTRL_ACK] + header + payload + last
                      && Lrc([SYNC, CTRL_ACK] + header + payload) == last[0] && Sealed(frame[..n])
  {
    hide Lrc, Sealed, FromLe32;
    var head: seq<byte> := [SYNC, CTRL_ACK] + header + payload;
    Store(frame, 0, head);
    var body := |head|;
    assert frame[..body] == frame[0..body];
    var lrc := LrcOf(frame, body);
    if lrc != last[0] { return -1; }
    frame[body] := last[0];
    n := body + 1;
    assert frame[..body] == head;
    assert frame[..n] == head + last;
    SealedByParts(header, payload, last);
  }

  lemma SealedByParts(header: seq<byte>, payload: seq<byte>, last: seq<byte>)
    requires |header| == HEADER_SIZE && |payload| == FromLe32(header[1], header[2], header[3], header[4]) <= MAX_PAYLOAD
    requires |last| == 1 && Lrc([SYNC, CTRL_ACK] + header + payload) == last[0]
    ensures Sealed([SYNC, CTRL_ACK] + header + payload + last)
  {
    hide Lrc, FromLe32;
    var body: seq<byte> := [SYNC, CTRL_ACK] + header + payload;
    assert (body + last)[..|body|] == body;
  }

  lemma BodyByParts(header: seq<byte>, payload: seq<byte>, last: seq<byte>, rest: seq<byte>)
    requires |header| == HEADER_SIZE && |payload| == FromLe32(header[1], header[2], header[3], header[4]) <= MAX_PAYLOAD
    requires |last| == 1 && Lrc([SYNC, CTRL_ACK] + header + payload) == last[0]
    ensures Body([SYNC, CTRL_ACK] + (header + (payload + (last + rest)))) ==
              Got([SYNC, CTRL_ACK] + header + payload + last, rest)
  {
    hide Lrc, FromLe32;
    var body: seq<byte> := [SYNC, CTRL_ACK] + header + payload;
    var s := [SYNC, CTRL_ACK] + (header + (payload + (last + rest)));
    assert s == body + (last + rest);
    BodyAt(s, body, last, rest);
  }

  lemma BodyAt(s: seq<byte>, body: seq<byte>, last: seq<byte>, rest: seq<byte>)
    requires |body| >= 12 && |body| == 12 + FromLe32(body[3], body[4], body[5], body[6]) <= 12 + MAX_PAYLOAD
    requires |last| == 1 && Lrc(body) == last[0] && s == body + (last + rest)
    ensures Body(s) == Got(body + last, rest)
  {
    hide Lrc, FromLe32;
    assert s[..|body|] == body;
    assert s[..|body| + 1] == body + last && s[|body| + 1..] == rest;
  }

  // Some more bytes of a request: silence, or at its last byte the request itself.
  lemma Delivered(command: seq<byte>, p: Parser, piece: seq<byte>, sent: nat, count: nat)
    requires Message(command) && sent < |Build(command)| && piece == Build(command)[sent..]
    requires At(command, p, sent) && 0 < count <= |piece|
    ensures var (q, events) := FeedAll(p, piece[..count]);
            if sent + count < |Build(command)| then At(command, q, sent + count) && events == Nil
            else Idle(q) && events == Cons(Command(command), Nil)
  {
    hide FeedAll, Message, Build, Midway;
    var frame := Build(command);
    assert piece[..count] == frame[sent..sent + count];
    if sent + count < |frame| {
      SilentStretch(command, p, sent, sent + count);
    } else {
      assert frame[sent..sent + count] == frame[sent..];
      FinalStretch(command, p, sent);
    }
  }

  lemma TwoReads(s: seq<byte>, i: nat, j: nat)
    requires i + j <= |s|
    ensures s[..i] + s[i..][..j] == s[..i + j] && s[i..][j..] == s[i + j..]
  {
  }

  // ---- Whole runs ----

  datatype Cmd = Cmd(kind: byte, spec0: byte, payload: seq<byte>)

  datatype Outcome = Success(resp: seq<byte>) | Failure

  // One command of a run: what was delivered for it, if anything, a frame that asks for just
  // this, and what came of it.
  ghost predicate Accounted(c: Cmd, seqno: byte, o: Outcome, delivery: Option<Exchange>, trusted: bool) {
    && (delivery.Some? ==>
          && |c.payload| <= MAX_PAYLOAD && Message(delivery.value.command)
          && Asks(Build(delivery.value.command), c.kind, seqno, c.spec0, c.payload))
    && (o.Success? ==>
          && delivery.Some? && |o.resp| >= 13 && o.resp[8] == seqno && Sealed(o.resp)
          && (trusted ==> o.resp == Build(delivery.value.answer)))
  }

  ghost predicate RunAccounted(cmds: List<Cmd>, seqno: byte, outcomes: List<Outcome>,
                               deliveries: List<Option<Exchange>>, trusted: bool)
    decreases cmds
  {
    match cmds
    case Nil => outcomes.Nil? && deliveries.Nil?
    case Cons(c, rest) =>
      && outcomes.Cons? && deliveries.Cons?
      && Accounted(c, seqno, outcomes.head, deliveries.head, trusted)
      && RunAccounted(rest, (seqno + 1) % 0x100, outcomes.tail, deliveries.tail, trusted)
  }

  // The board's log after the deliveries of a run, oldest first.
  ghost function Logged(deliveries: List<Option<Exchange>>, before: List<Exchange>): List<Exchange> {
    match deliveries
    case Nil => before
    case Cons(d, rest) => Logged(rest, if d.Some? then Cons(d.value, before) else before)
  }

  // Any sequence of commands, against any socket. The board's log grows by exactly the
  // deliveries, at most one per command and in order; each success carries its command's
  // own number; and with a polite FIFO board it is the answer to that very request.
  method RunCommands(d: Driver, cmds: List<Cmd>)
    returns (outcomes: List<Outcome>, ghost deliveries: List<Option<Exchange>>)
    requires d.Valid() && d.Synced()
    modifies d, d.peer
    ensures d.Valid()
    ensures RunAccounted(cmds, old(d.seqno), outcomes, deliveries, d.peer.fifo && d.peer.polite)
    ensures d.peer.history == Logged(deliveries, old(d.peer.history))
  {
    ghost var trusted := d.peer.fifo && d.peer.polite;
    outcomes, deliveries := RunFrom(d, cmds, trusted);
  }

  method RunFrom(d: Driver, cmds: List<Cmd>, ghost trusted: bool)
    returns (outcomes: List<Outcome>, ghost deliveries: List<Option<Exchange>>)
    requires d.Valid() && (trusted ==> d.peer.fifo && d.peer.polite && d.Synced())
    modifies d, d.peer
    ensures d.Valid() && RunAccounted(cmds, old(d.seqno), outcomes, deliveries, trusted)
    ensures d.peer.history == Logged(deliveries, old(d.peer.history))
    decreases cmds
  {
    hide Build, Message, Sealed, Idle, IsTimeExtension, Bulk, Asks;
    match cmds
    case Nil =>
      outcomes, deliveries := Nil, Nil;
    case Cons(c, rest) =>
      var resp := new byte[MAX_FRAME](_ => 0);
      ghost var before := d.peer.history;
      var rc, n := d.Command(c.kind, c.spec0, c.payload, resp);
      var o := if rc == TX_OK then Success(resp[..n]) else Failure;
      ghost var delivery := if d.peer.history == before then None else Some(d.peer.history.head);
      if rc == TX_OK && trusted {
        WithinPatience(d.peer.history.head, c.kind);
      }
      ConsDiffers(before);
      if |c.payload| <= MAX_PAYLOAD { RequestAsks(c.kind, old(d.seqno), c.spec0, c.payload); }
      var later;
      ghost var logged;
      later, logged := RunFrom(d, rest, trusted);
      outcomes, deliveries := Cons(o, later), Cons(delivery, logged);
  }

  lemma WithinPatience(x: Exchange, kind: byte)
    requires Plausible(x, true) && x.command[0] == kind
    ensures Length(x.interims) <= Patience(kind)
  {
  }

  lemma ConsDiffers(h: List<Exchange>)
    ensures forall x :: Cons(x, h) != h
  {
    forall x ensures Cons(x, h) != h {
      assert Length(Cons(x, h)) == 1 + Length(h);
    }
  }

  // Never more deliveries than commands.
  lemma {:induction false} AtMostOnce(cmds: List<Cmd>, seqno: byte, outcomes: List<Outcome>,
                                      deliveries: List<Option<Exchange>>, trusted: bool, before: List<Exchange>)
    requires RunAccounted(cmds, seqno, outcomes, deliveries, trusted)
    ensures Length(before) <= Length(Logged(deliveries, before)) <= Length(before) + Length(cmds)
    decreases cmds
  {
    match cmds
    case Nil =>
    case Cons(_, rest) =>
      var d := deliveries.head;
      AtMostOnce(rest, (seqno + 1) % 0x100, outcomes.tail, deliveries.tail, trusted,
                 if d.Some? then Cons(d.value, before) else before);
  }
}
