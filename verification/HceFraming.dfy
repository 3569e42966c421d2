/** The relay's socket framing: a two-byte big-endian length, then the payload. */
module HceFraming {
  import opened Bytes

  const MAX_FRAME: nat := 0xFFFF

  function Length16(high: byte, low: byte): nat {
    0x100 * (high as int) + low
  }

  // What is written for a payload; one that the length field cannot hold is an error.
  function SendFrame(payload: seq<byte>): Option<seq<byte>> {
    if |payload| > MAX_FRAME then None else Some([|payload| / 0x100, |payload| % 0x100] + payload)
  }

  // What a reader makes of a stream: a frame and what follows it, or the end too soon.
  function ReadFrame(stream: seq<byte>): Option<(seq<byte>, seq<byte>)> {
    if |stream| < 2 then None
    else
      var n := Length16(stream[0], stream[1]);
      if |stream| < 2 + n then None else Some((stream[2..2 + n], stream[2 + n..]))
  }

  lemma FrameRoundTrip(payload: seq<byte>, rest: seq<byte>)
    requires |payload| <= MAX_FRAME
    ensures ReadFrame(SendFrame(payload).value + rest) == Some((payload, rest))
  {
    var sent := SendFrame(payload).value;
    var s := sent + rest;
    assert Length16(s[0], s[1]) == |payload|;
    assert s[2..2 + |payload|] == payload;
    assert s[2 + |payload|..] == rest;
  }

  // Two bytes of length, the high one first, and the payload; up to 65535 bytes.
  lemma WireFormat(payload: seq<byte>)
    ensures var sent := SendFrame(payload);
            && (sent.Some? <==> |payload| <= 65535)
            && (sent.Some? ==>
                  && |sent.value| == 2 + |payload| && sent.value[2..] == payload
                  && 256 * sent.value[0] as int + sent.value[1] == |payload|)
  {
  }

  // No strict prefix of a frame is taken for one.
  lemma PrefixIsNoFrame(payload: seq<byte>, k: nat)
    requires |payload| <= MAX_FRAME && k < |payload| + 2
    ensures ReadFrame(SendFrame(payload).value[..k]) == None
  {
    var sent := SendFrame(payload).value;
    if k >= 2 { assert Length16(sent[0], sent[1]) == |payload|; }
  }

  // The bytes of a payload on the wire: none if it cannot be sent.
  function Framed(payload: seq<byte>): seq<byte> {
    if |payload| > MAX_FRAME then [] else SendFrame(payload).value
  }

  function Wire(payloads: List<seq<byte>>): seq<byte> {
    match payloads
    case Nil => []
    case Cons(p, rest) => Framed(p) + Wire(rest)
  }

  predicate AllFit(payloads: List<seq<byte>>) {
    match payloads
    case Nil => true
    case Cons(p, rest) => |p| <= MAX_FRAME && AllFit(rest)
  }

  function ReadAll(stream: seq<byte>): List<seq<byte>>
    decreases |stream|
  {
    var r := ReadFrame(stream);
    if r.None? then Nil else Cons(r.value.0, ReadAll(r.value.1))
  }

  lemma {:induction false} StreamRoundTrip(payloads: List<seq<byte>>)
    requires AllFit(payloads)
    ensures ReadAll(Wire(payloads)) == payloads
    decreases payloads
  {
    hide SendFrame, ReadFrame;
    match payloads
    case Nil => NothingToRead();
    case Cons(p, rest) =>
      FrameRoundTrip(p, Wire(rest));
      StreamRoundTrip(rest);
  }

  lemma NothingToRead()
    ensures ReadFrame([]) == None
  {
  }

  // A connected socket: what the peer will ever have written and this side has not read, what
  // this side has written, and whether the link fails or is closed after the last byte.
  class Socket {
    var pending: seq<byte>
    var written: seq<byte>
    const broken: bool

    constructor (stream: seq<byte>, broken: bool)
      ensures pending == stream && written == [] && this.broken == broken
    {
      pending, written, this.broken := stream, [], broken;
    }

    method Send(payload: seq<byte>)
      requires |payload| <= MAX_FRAME
      modifies this`written
      ensures written == old(written) + Framed(payload)
    {
      written := written + SendFrame(payload).value;
    }

    // Up to n bytes, as many as the network feels like, and none only at the end.
    method Recv(n: nat) returns (chunk: seq<byte>)
      requires n > 0
      modifies this`pending
      ensures old(pending) == chunk + pending && |chunk| <= n
      ensures chunk == [] <==> old(pending) == []
    {
      var k: int := *;
      var most := if n < |pending| then n else |pending|;
      if k < 1 || k > most { k := most; }
      chunk := pending[..k];
      pending := pending[k..];
    }

    method RecvExact(n: nat) returns (buf: Option<seq<byte>>)
      modifies this`pending
      ensures if |old(pending)| >= n then buf == Some(old(pending)[..n]) && pending == old(pending)[n..]
              else buf == None
    {
      var got: seq<byte> := [];
      while |got| < n
        invariant |got| <= n && old(pending) == got + pending
        decreases n - |got|
      {
        var chunk := Recv(n - |got|);
        if |chunk| == 0 { return None; }
        got := got + chunk;
      }
      buf := Some(got);
    }

    // However the bytes arrive, the frame read is the one the stream starts with.
    method RecvFrame() returns (frame: Option<seq<byte>>)
      modifies this`pending
      ensures match ReadFrame(old(pending))
              case None => frame == None
              case Some(r) => frame == Some(r.0) && pending == r.1
    {
      ghost var stream := pending;
      var header := RecvExact(2);
      if header.None? { return None; }
      assert header.value[0] == stream[0] && header.value[1] == stream[1];
      ghost var n := Length16(stream[0], stream[1]);
      assert |stream| >= 2 + n ==> stream[2..][..n] == stream[2..2 + n] && stream[2..][n..] == stream[2 + n..];
      frame := RecvExact(Length16(header.value[0], header.value[1]));
    }
  }
}
