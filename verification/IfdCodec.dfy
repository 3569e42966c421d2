/** The frame codec of the IFD driver: what its receiver makes of a byte stream. */
module IfdCodec {
  import opened Bytes
  import opened GemPc

  const RDR_DATA_BLOCK: byte := 0x80
  const RDR_SLOT_STATUS: byte := 0x81
  const PC_ICC_POWER_ON: byte := 0x62
  const PC_XFR_BLOCK: byte := 0x6F
  const PC_ESCAPE: byte := 0x6B

  // ---- Receiving ----

  datatype Received = Got(frame: seq<byte>, rest: seq<byte>) | Nak(rest: seq<byte>) | Rejected | Starved

  // The receiver's resynchronising scan: bytes up to a SYNC are dropped, and a SYNC
  // not followed by a control byte is dropped with the byte after it.
  function Recv(s: seq<byte>): Received
    decreases |s|
  {
    if |s| < 1 then Starved
    else if s[0] != SYNC then Recv(s[1..])
    else if |s| < 2 then Starved
    else if s[1] == CTRL_NAK then Nak(s[2..])
    else if s[1] != CTRL_ACK then Recv(s[2..])
    else Body(s)
  }

  function Body(s: seq<byte>): Received
    requires |s| >= 2
  {
    if |s| < 12 then Starved
    else
      var dwlen := FromLe32(s[3], s[4], s[5], s[6]);
      if dwlen > MAX_PAYLOAD then Rejected
      else if |s| < 13 + dwlen then Starved
      else if Lrc(s[..12 + dwlen]) != s[12 + dwlen] then Rejected
      else Got(s[..13 + dwlen], s[13 + dwlen..])
  }

  // A frame the receiver may hand on: closed by the XOR of all the bytes before.
  predicate Sealed(f: seq<byte>) {
    && 13 <= |f| <= MAX_FRAME
    && f[0] == SYNC && f[1] == CTRL_ACK
    && 13 + FromLe32(f[3], f[4], f[5], f[6]) == |f|
    && Lrc(f[..|f| - 1]) == f[|f| - 1]
  }

  // Junk that leaves the receiver looking for a SYNC.
  predicate Aligned(junk: seq<byte>)
    decreases |junk|
  {
    if junk == [] then true
    else if junk[0] != SYNC then Aligned(junk[1..])
    else if |junk| == 1 then false
    else junk[1] != CTRL_ACK && junk[1] != CTRL_NAK && Aligned(junk[2..])
  }

  lemma {:induction false} SyncFreeIsAligned(junk: seq<byte>)
    requires SYNC !in junk
    ensures Aligned(junk)
  {
    if junk != [] {
      SyncFreeIsAligned(junk[1..]);
    }
  }

  // Soundness: whatever the stream, only sealed frames that really occur in it are accepted.
  lemma {:induction false} RecvSound(s: seq<byte>)
    ensures var r := Recv(s);
            r.Got? ==>
              && Sealed(r.frame)
              && |r.frame| + |r.rest| <= |s|
              && s[|s| - |r.rest| - |r.frame|..] == r.frame + r.rest
    decreases |s|
  {
    if |s| >= 1 && s[0] != SYNC {
      RecvSound(s[1..]);
      SuffixOfSuffix(s, 1, Recv(s));
    } else if |s| >= 2 && s[1] != CTRL_NAK && s[1] != CTRL_ACK {
      RecvSound(s[2..]);
      SuffixOfSuffix(s, 2, Recv(s));
    } else if |s| >= 2 && s[1] == CTRL_ACK {
      BodySound(s);
    }
  }

  lemma SuffixOfSuffix(s: seq<byte>, k: nat, r: Received)
    requires k <= |s| && (r.Got? ==> |r.frame| + |r.rest| <= |s| - k)
    ensures r.Got? ==> var i := |s| - |r.rest| - |r.frame|; i >= k && s[k..][i - k..] == s[i..]
  {
  }

  lemma BodySound(s: seq<byte>)
    requires |s| >= 2 && s[0] == SYNC && s[1] == CTRL_ACK
    ensures var r := Body(s); r.Got? ==> Sealed(r.frame) && s == r.frame + r.rest && r.frame == s[..|r.frame|]
  {
    if Body(s).Got? {
      var n := 12 + FromLe32(s[3], s[4], s[5], s[6]);
      assert s[..n + 1][..n] == s[..n];
    }
  }

  lemma BuildIsSealed(ccid: seq<byte>)
    requires Message(ccid)
    ensures Sealed(Build(ccid))
    ensures Build(ccid)[2] == ccid[0] && Build(ccid)[8] == ccid[6] && Build(ccid)[9] == ccid[7]
  {
    assert Build(ccid)[..|ccid| + 2] == Unsealed(ccid);
  }

  lemma BodyOfBuild(ccid: seq<byte>, rest: seq<byte>)
    requires Message(ccid)
    ensures Body(Build(ccid) + rest) == Got(Build(ccid), rest)
  {
    var f := Build(ccid);
    BuildIsSealed(ccid);
    assert (f + rest)[..|f| - 1] == f[..|f| - 1];
    assert (f + rest)[..|f|] == f && (f + rest)[|f|..] == rest;
  }

  // The codec round trip, exactly: junk before a built frame is survived if and only if
  // it leaves the scan aligned. SYNC-free junk always does.
  lemma {:induction false} RecvRoundTrip(junk: seq<byte>, ccid: seq<byte>, rest: seq<byte>)
    requires Message(ccid)
    ensures Recv(junk + Build(ccid) + rest) == Got(Build(ccid), rest) <==> Aligned(junk)
    decreases |junk|
  {
    var f := Build(ccid);
    var s := junk + f + rest;
    if junk == [] {
      assert s == f + rest;
      BodyOfBuild(ccid, rest);
    } else if junk[0] != SYNC {
      assert s[1..] == junk[1..] + f + rest;
      RecvRoundTrip(junk[1..], ccid, rest);
    } else if |junk| == 1 {
      RecvSound(s[2..]);
    } else if junk[1] == CTRL_ACK {
      BodySound(s);
    } else if junk[1] != CTRL_NAK {
      assert s[2..] == junk[2..] + f + rest;
      RecvRoundTrip(junk[2..], ccid, rest);
    }
  }

  // A NAK behind such junk is seen as one, and what follows it is left.
  lemma {:induction false} NakIsSeen(junk: seq<byte>, rest: seq<byte>)
    requires Aligned(junk)
    ensures Recv(junk + [0x03, 0x15] + rest) == Nak(rest)
    decreases |junk|
  {
    var s := junk + [0x03, 0x15] + rest;
    if junk == [] {
      assert s == [0x03, 0x15] + rest && s[2..] == rest;
    } else if junk[0] != SYNC {
      assert s[1..] == junk[1..] + [0x03, 0x15] + rest;
      NakIsSeen(junk[1..], rest);
    } else {
      assert s[2..] == junk[2..] + [0x03, 0x15] + rest;
      NakIsSeen(junk[2..], rest);
    }
  }

  // ---- Requests and answers ----

  function Request(kind: byte, seqno: byte, spec0: byte, payload: seq<byte>): (ccid: seq<byte>)
    requires |payload| <= MAX_PAYLOAD
    ensures Message(ccid) && ccid[0] == kind && ccid[6] == seqno && |ccid| == 10 + |payload|
  {
    Bulk(kind, 0, seqno, spec0, 0, 0, payload)
  }

  // A frame that asks for this, byte by byte: the two marks, the message type, the length of
  // the payload, slot 0, the number, the one specific byte, two unused ones, the payload, and
  // the checksum over all of it.
  predicate Asks(f: seq<byte>, kind: byte, seqno: byte, spec0: byte, payload: seq<byte>) {
    && |f| == 13 + |payload|
    && f[0] == 0x03 && f[1] == 0x06 && f[2] == kind
    && FromLe32(f[3], f[4], f[5], f[6]) == |payload|
    && f[7] == 0 && f[8] == seqno && f[9] == spec0 && f[10] == 0 && f[11] == 0
    && f[12..12 + |payload|] == payload
    && f[12 + |payload|] == Lrc(f[..12 + |payload|])
  }

  lemma RequestAsks(kind: byte, seqno: byte, spec0: byte, payload: seq<byte>)
    requires |payload| <= MAX_PAYLOAD
    ensures Asks(Build(Request(kind, seqno, spec0, payload)), kind, seqno, spec0, payload)
  {
    hide Lrc, FromLe32, PayloadLength, Bulk;
    var ccid := Bulk(kind, 0, seqno, spec0, 0, 0, payload);
    var f := Build(ccid);
    assert f[12..12 + |payload|] == ccid[10..];
    assert f[..12 + |payload|] == Unsealed(ccid);
    LengthInFrame(ccid);
  }

  lemma LengthInFrame(ccid: seq<byte>)
    requires |ccid| >= HEADER_SIZE
    ensures var f := Build(ccid); FromLe32(f[3], f[4], f[5], f[6]) == PayloadLength(ccid)
  {
    hide Lrc, FromLe32;
  }

  // bmCommandStatus 01: the command failed.
  predicate CommandFailed(status: byte) {
    status / 0x40 == 1
  }

  // "Still processing" in either of its two shapes, for the request numbered seqno.
  predicate IsTimeExtension(frame: seq<byte>, seqno: byte)
    requires |frame| >= 13
  {
    && frame[8] == seqno
    && !CommandFailed(frame[9])
    && (frame[2] == RDR_SLOT_STATUS
        || (frame[2] == RDR_DATA_BLOCK && FromLe32(frame[3], frame[4], frame[5], frame[6]) == 0 && frame[9] >= 0x80))
  }

  predicate MayExtend(kind: byte) {
    kind == PC_XFR_BLOCK || kind == PC_ICC_POWER_ON || kind == PC_ESCAPE
  }

  // How many time extensions the driver reads past for a command of this type.
  function Patience(kind: byte): nat {
    if MayExtend(kind) then 64 else 0
  }

  // The interim frame the firmware writes while a card stalls.
  function FirmwareInterim(seqno: byte, icc: byte): (ccid: seq<byte>)
    requires icc <= 2
    ensures Message(ccid) && |ccid| == 10 && ccid[0] == 0x80 && ccid[5] == 0 && ccid[6] == seqno
    ensures ccid[7] == 0x80 + icc && ccid[8] == 2 && ccid[9] == 0
  {
    Bulk(RDR_DATA_BLOCK, 0, seqno, 0x80 + icc, 2, 0, [])
  }

  // The driver recognises every interim frame the firmware can send.
  lemma InterimIsRecognised(seqno: byte, icc: byte)
    requires icc <= 2
    ensures IsTimeExtension(Build(FirmwareInterim(seqno, icc)), seqno)
  {
    hide Lrc, Build, FirmwareInterim, Message;
    BuildIsSealed(FirmwareInterim(seqno, icc));
  }

  // Which messages the driver reads past: those of its own number that did not fail, and are
  // a SlotStatus, or a DataBlock without data that asks for more time.
  lemma ExtensionsAre(r: seq<byte>, seqno: byte)
    requires Message(r)
    ensures IsTimeExtension(Build(r), seqno) <==>
              && r[6] == seqno
              && !(0x40 <= r[7] < 0x80)
              && (r[0] == 0x81 || (r[0] == 0x80 && |r| == 10 && r[7] >= 0x80))
  {
    hide Lrc, Build, FromLe32, PayloadLength;
    BuildIsSealed(r);
    LengthInFrame(r);
    SealedLength(Build(r));
  }

  lemma SealedLength(f: seq<byte>)
    requires Sealed(f)
    ensures |f| >= 13
  {
    hide Lrc, FromLe32;
  }
}
