/** A reader that runs the burst loop, as the board behind the driver's socket. */
module ReaderBoard {
  import opened Bytes
  import opened GemPc
  import opened CdcBurst
  import Ifd = IfdDriver

  // What a frame carries between its two marks and its checksum.
  function Contents(frame: seq<byte>): seq<byte> {
    if |frame| < 3 then [] else frame[2..|frame| - 1]
  }

  lemma ContentsOfBuild(message: seq<byte>)
    ensures Contents(Build(message)) == message
  {
    hide Lrc;
  }

  // One exchange as the driver sees it: the command, the interim messages, the answer.
  function ExchangeOf<H>(fw: Firmware<H>, h: H, ccid: seq<byte>, reply: Reply): Ifd.Exchange {
    Ifd.Exchange(ccid, Ifd.Many(InterimMessage(ccid, fw.icc(h)), Stalls(fw, ccid, reply)), Contents(reply.response))
  }

  // A reply without a slot change notification, made of one framed message, after stalls that
  // the one-byte count of the hook still tells from none.
  predicate Plain<H>(fw: Firmware<H>, ccid: seq<byte>, reply: Reply) {
    && reply.notify == []
    && Message(Contents(reply.response)) && reply.response == Build(Contents(reply.response))
    && (Stalls(fw, ccid, reply) == 0 || Emitted(fw, ccid, reply) > 0)
  }

  lemma {:induction false} RepliesInBytes(interim: seq<byte>, n: nat, answer: seq<byte>)
    ensures Ifd.Replies(Ifd.Many(interim, n), answer) == Join(Repeated(Build(interim), n)) + Build(answer)
    decreases n
  {
    hide Build;
    if n > 0 { RepliesInBytes(interim, n - 1, answer); }
  }

  // The bytes of a plain exchange are those the driver's board is taken to write.
  lemma ExchangeInBytes<H>(fw: Firmware<H>, h: H, ccid: seq<byte>, reply: Reply)
    requires Plain(fw, ccid, reply)
    ensures Join(Frames(Response(fw, h, ccid, Build(ccid), reply))) == Ifd.Output(ExchangeOf(fw, h, ccid, reply))
  {
    hide Build, Stalls, Repeated, InterimMessage, Frames, Response, Contents, Message, Ifd.Many, Ifd.Replies;
    EchoedInBytes(fw, h, ccid, Build(ccid), reply);
    RepliesInBytes(InterimMessage(ccid, fw.icc(h)), Stalls(fw, ccid, reply), Contents(reply.response));
    Regroup(Build(ccid), Join(Repeated(Interim(ccid, fw.icc(h)), Stalls(fw, ccid, reply))), reply.response);
  }

  lemma Regroup(echo: seq<byte>, interims: seq<byte>, response: seq<byte>)
    ensures echo + interims + [] + [] + response == echo + (interims + response)
  {
  }

  // ---- A whole stream of commands ----

  function Exchanges<H>(fw: Firmware<H>, s: Server<H>, orders: List<Order>): List<Ifd.Exchange>
    decreases orders
  {
    match orders
    case Nil => Nil
    case Cons(o, rest) =>
      hide *;
      var (next, reply) := Answered(fw, s, o.ccid, LastTick(0, o.samples));
      Cons(ExchangeOf(fw, s.handler, o.ccid, reply), Exchanges(fw, next, rest))
  }

  predicate AllPlain<H>(fw: Firmware<H>, s: Server<H>, orders: List<Order>)
    decreases orders
  {
    match orders
    case Nil => true
    case Cons(o, rest) =>
      var (next, reply) := Answered(fw, s, o.ccid, LastTick(0, o.samples));
      Plain(fw, o.ccid, reply) && AllPlain(fw, next, rest)
  }

  function Outputs(xs: List<Ifd.Exchange>): seq<byte> {
    match xs
    case Nil => []
    case Cons(x, rest) => Ifd.Output(x) + Outputs(rest)
  }

  lemma {:induction false} TranscriptInBytes<H>(fw: Firmware<H>, s: Server<H>, orders: List<Order>)
    requires AllPlain(fw, s, orders)
    ensures Join(Transcript(fw, s, orders)) == Outputs(Exchanges(fw, s, orders))
    decreases orders
  {
    hide Build, Answered, Frames, Response, Plain, ExchangeOf, Ifd.Output;
    match orders
    case Nil =>
    case Cons(o, rest) =>
      var (next, reply) := Answered(fw, s, o.ccid, LastTick(0, o.samples));
      ExchangeInBytes(fw, s.handler, o.ccid, reply);
      JoinAppend(Frames(Response(fw, s.handler, o.ccid, Build(o.ccid), reply)), Transcript(fw, next, rest));
      TranscriptInBytes(fw, next, rest);
  }

  // However commands sent back to back are cut into bursts, what the loop writes is, byte for
  // byte, what a board that answers in order writes for those exchanges.
  lemma BurstsAreABoard<H>(fw: Firmware<H>, s: Server<H>, floor: nat, bursts: List<Burst>, orders: List<Order>)
    requires NeverIdle(bursts) && Carried(orders) && StartsAfresh(s, orders) && AllSamples(bursts) == Stream(orders)
    requires Smooth(ServeReads(fw, s, floor, bursts).verdicts) && AllPlain(fw, s, orders)
    ensures Join(ServeReads(fw, s, floor, bursts).frames) == Outputs(Exchanges(fw, s, orders))
  {
    hide ServeReads, Smooth, Stream, AllSamples, Transcript, Carried, NeverIdle, AllPlain, Exchanges, Outputs;
    BurstsServeCommands(fw, s, floor, bursts, orders);
    TranscriptInBytes(fw, s, orders);
  }
}
