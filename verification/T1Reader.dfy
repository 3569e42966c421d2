/** The T=1 endpoint as the object it is. */
module T1Reader {
  import opened Bytes
  import opened T1
  import T1Laws
  import WaitingTime

  class T1Endpoint {
    var ns: Bit
    var hostNs: Bit
    var sendIfsc: nat
    var hostIfsd: nat
    var recvChain: seq<byte>
    var sendChain: seq<byte>
    var lastSent: Option<seq<byte>>
    var wtxPending: bool
    var hostBwi: nat
    var retryNs: Option<Bit>
    var retryFirstFrame: Option<seq<byte>>

    ghost function View(): Endpoint
      reads this
    {
      Endpoint(ns, hostNs, sendIfsc, hostIfsd, recvChain, sendChain, lastSent, wtxPending, hostBwi, retryNs,
               retryFirstFrame)
    }

    constructor ()
      ensures View() == FRESH
    {
      ns, hostNs, sendIfsc, hostIfsd := 0, 0, 32, 32;
      recvChain, sendChain, lastSent := [], [], None;
      wtxPending, hostBwi := false, 4;
      retryNs, retryFirstFrame := None, None;
    }

    method Reset()
      modifies this
      ensures View() == FRESH
    {
      ns, hostNs, sendIfsc, hostIfsd := 0, 0, 32, 32;
      recvChain, sendChain, lastSent := [], [], None;
      wtxPending, hostBwi := false, 4;
      retryNs, retryFirstFrame := None, None;
    }

    method SetHostTiming(bwi: nat, ifsc: byte)
      modifies this
      ensures View() == Timed(old(View()), bwi, ifsc)
    {
      hostBwi := bwi;
      hostIfsd := if ifsc < 16 then 16 else if ifsc > 254 then 254 else ifsc;
    }

    method TakeNextChainBlock() returns (b: seq<byte>)
      requires Valid(View())
      modifies this
      ensures (View(), b) == NextBlock(old(View()))
    {
      hide Framed;
      var chunk := if sendIfsc < |sendChain| then sendIfsc else |sendChain|;
      var more := chunk < |sendChain|;
      b := Framed(I(ns, more, hostNs), sendChain[..chunk]);
      sendChain := sendChain[chunk..];
      if !more { ns := Flip(ns); }
      lastSent := Some(b);
    }

    method OnSRequest(kind: Kind, inf: Inf) returns (r: Fed)
      modifies this
      ensures (View(), r) == T1.OnSRequest(old(View()), kind, inf)
    {
      hide Framed;
      var reply := Framed(S(kind, true), if kind.Resync? then [] else inf);
      match kind {
        case Resync =>
          ns, hostNs, recvChain, sendChain, wtxPending := 0, 0, [], [], false;
          retryNs, retryFirstFrame := None, None;
        case Ifs =>
          var size := if |inf| == 0 then 32 else inf[0];
          sendIfsc := if size < 254 then size else 254;
        case Abort => recvChain := [];
        case Wtx =>
      }
      lastSent := Some(reply);
      r := Immediate(reply);
    }

    method OnSResponse(kind: Kind) returns (r: Fed)
      requires Valid(View())
      modifies this
      ensures (View(), r) == T1.OnSResponse(old(View()), kind)
    {
      hide NextBlock, Framed;
      if kind.Wtx? && wtxPending {
        wtxPending := false;
        if |sendChain| != 0 {
          var b := TakeNextChainBlock();
          retryFirstFrame := Some(b);
          return Immediate(b);
        }
        return Immediate(Framed(R(hostNs, 1), []));
      }
      if lastSent.Some? { return Immediate(lastSent.value); }
      r := Immediate(Framed(R(hostNs, 1), []));
    }

    method OnR() returns (r: Fed)
      requires Valid(View())
      modifies this
      ensures (View(), r) == T1.OnR(old(View()))
    {
      hide NextBlock, Framed;
      if wtxPending && lastSent.Some? { return Immediate(lastSent.value); }
      if |sendChain| != 0 {
        var b := TakeNextChainBlock();
        return Immediate(b);
      }
      if lastSent.Some? { return Immediate(lastSent.value); }
      r := Immediate(Framed(R(hostNs, 1), []));
    }

    method OnI(blockNs: Bit, more: bool, inf: Inf) returns (r: Fed)
      modifies this
      ensures (View(), r) == T1.OnI(old(View()), blockNs, more, inf)
    {
      hide Framed;
      if blockNs != hostNs {
        if retryNs == Some(blockNs) {
          if more { return Immediate(Framed(R(blockNs, 0), [])); }
          if retryFirstFrame.Some? { return Immediate(retryFirstFrame.value); }
        }
        return Immediate(Framed(R(hostNs, 0), []));
      }
      if |inf| > hostIfsd { return Immediate(Framed(R(hostNs, 1), [])); }
      if |recvChain| + |inf| > MAX_RELAY { return Immediate(Framed(R(hostNs, 1), [])); }
      recvChain := recvChain + inf;
      if more { return Immediate(Framed(R(blockNs, 0), [])); }
      hostNs := Flip(hostNs);
      r := Apdu(recvChain);
      recvChain := [];
    }

    method Feed(b: seq<byte>) returns (r: Fed)
      requires Valid(View())
      modifies this
      ensures (View(), r) == T1.Feed(old(View()), b) && Valid(View())
    {
      hide Framed, ParsePcb, Lrc, T1.OnI, T1.OnR, T1.OnSRequest, T1.OnSResponse, T1.Feed, Valid;
      T1Laws.FeedKeepsValid(View(), b);
      T1Laws.FeedIs(View(), b);
      if !WellFormed(b) {
        return Immediate(Framed(R(hostNs, 1), []));
      }
      var inf := b[3..|b| - 1];
      match ParsePcb(b[1])
      case S(kind, response) =>
        if response { r := OnSResponse(kind); } else { r := OnSRequest(kind, inf); }
      case R(_, _) => r := OnR();
      case I(blockNs, more, _) => r := OnI(blockNs, more, inf);
    }

    method CardResponse(answer: seq<byte>, took: nat) returns (b: seq<byte>)
      requires Valid(View())
      modifies this
      ensures (View(), b) == T1.CardResponse(old(View()), answer, took) && Valid(View())
    {
      hide NextBlock, Framed, Multiplier, WaitingTime.BwtMs;
      T1Laws.CachedIs(View(), answer, took);
      sendChain := if |answer| <= MAX_RELAY then answer else answer[..MAX_RELAY];
      if took + TURNAROUND_MS > WaitingTime.BwtMs(hostBwi, HOST_BAUD) {
        var m := Multiplier(hostBwi, took);
        wtxPending := true;
        b := Framed(S(Wtx, false), [m]);
        lastSent := Some(b);
      } else {
        b := TakeNextChainBlock();
      }
      retryNs, retryFirstFrame := Some(Flip(hostNs)), Some(b);
    }

    // Block after block: the laws of whole exchanges are about this object.
    method FeedAll(blocks: List<seq<byte>>) returns (out: List<Fed>)
      requires Valid(View())
      modifies this
      ensures Valid(View()) && (View(), out) == T1Laws.FeedAll(old(View()), blocks)
      decreases blocks
    {
      hide T1.Feed, Valid;
      match blocks
      case Nil => out := Nil;
      case Cons(b, rest) =>
        var fed := Feed(b);
        var later := FeedAll(rest);
        out := Cons(fed, later);
    }

    // One exchange with the card in the middle: the block that completes an APDU, its answer,
    // and the same block again and again, each time met with the same frame.
    method Exchange(b: seq<byte>, answer: seq<byte>, took: nat, repeats: nat) returns (first: seq<byte>, out: List<Fed>)
      requires Valid(View()) && T1.Feed(View(), b).1.Apdu?
      modifies this
      ensures Valid(View()) && out == T1Laws.Immediates(T1Laws.Repeats(first, repeats))
      ensures Valid(T1.Feed(old(View()), b).0)
      ensures (View(), first) == T1.CardResponse(T1.Feed(old(View()), b).0, answer, took)
    {
      hide T1.Feed, T1.CardResponse, Valid, T1Laws.FeedAll, T1Laws.Repeats, T1Laws.Immediates;
      T1Laws.RetransmissionIsIdempotent(View(), b, answer, took, repeats);
      var _ := Feed(b);
      first := CardResponse(answer, took);
      out := FeedAll(T1Laws.Repeats(b, repeats));
    }
  }
}
