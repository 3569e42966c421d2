/** The default-deny card policies in front of a physical card. */
module HcePolicy {
  import opened Bytes

  // ---- Slices as the language of the relay takes them: cut short, never out of range ----

  function Slice(s: seq<byte>, from: nat, to: nat): seq<byte> {
    var high := if to < |s| then to else |s|;
    if from < high then s[from..high] else []
  }

  predicate Begins(s: seq<byte>, a: byte, b: byte) {
    |s| >= 2 && s[0] == a && s[1] == b
  }

  // Whether a reply ends in this status word.
  predicate EndsIn(r: seq<byte>, sw1: byte, sw2: byte) {
    |r| >= 2 && r[|r| - 2] == sw1 && r[|r| - 1] == sw2
  }

  function Body(r: seq<byte>): seq<byte> {
    if |r| < 2 then [] else r[..|r| - 2]
  }

  // One command that went to the card, and what the card said.
  datatype Link = Link(capdu: seq<byte>, rapdu: seq<byte>)

  // Crash is an index out of range, which no handler of the relay catches.
  datatype Verdict = Pass | Deny | Crash

  const NDEF_AID: seq<byte> := [0xD2, 0x76, 0x00, 0x00, 0x85, 0x01, 0x01]

  // ---- NTAG424: what the commands are ----

  predicate IsStart(c: seq<byte>) {
    Slice(c, 0, 5) == [0x90, 0x60, 0x00, 0x00, 0x00]
  }

  predicate IsContinuation(c: seq<byte>) {
    Begins(c, 0x90, 0xAF)
  }

  predicate IsSelect(c: seq<byte>) {
    Begins(c, 0x00, 0xA4)
  }

  predicate IsNdefSelect(c: seq<byte>) {
    IsSelect(c) && |c| >= 5 && c[2] == 0x04 && c[3] == 0x00 && Slice(c, 5, 5 + c[4] as int) == NDEF_AID
  }

  predicate IsFileSelect(c: seq<byte>) {
    && IsSelect(c) && |c| >= 5 && c[2] == 0x00 && c[3] == 0x0C && c[4] == 2
    && (Slice(c, 5, 7) == [0xE1, 0x03] || Slice(c, 5, 7) == [0xE1, 0x04])
  }

  // What may be read once the card is known.
  predicate InProfile(c: seq<byte>) {
    || IsFileSelect(c)
    || Begins(c, 0x00, 0xB0)
    || c == [0x90, 0xF5, 0x00, 0x00, 0x01, 0x02, 0x00]
    || c == [0x90, 0x3C, 0x00, 0x00, 0x01, 0x00, 0x00]
  }

  // ---- NTAG424: the policy's state ----

  datatype Ntag = Ntag(expected: seq<byte>, verified: bool, chainOpen: bool, dead: bool)

  // Too short to be told what it selects.
  predicate Unindexable(p: Ntag, c: seq<byte>) {
    && IsSelect(c) && |c| < 5
    && (p.verified || (|c| == 4 && c[2] == 0x04 && c[3] == 0x00))
  }

  function Checked(p: Ntag, c: seq<byte>): (Ntag, Verdict) {
    if p.dead then (p, Deny)
    else if IsContinuation(c) then (p, if p.chainOpen then Pass else Deny)
    else
      var q := p.(chainOpen := false);
      if IsStart(c) then (q, Pass)
      else if Unindexable(p, c) then (q, Crash)
      else if IsNdefSelect(c) then (q, Pass)
      else (q, if p.verified && InProfile(c) then Pass else Deny)
  }

  // A completed exchange; false is an identity mismatch.
  function Observed(p: Ntag, c: seq<byte>, r: seq<byte>): (Ntag, bool) {
    if !IsStart(c) && !IsContinuation(c) then (p, true)
    else
      var q := p.(chainOpen := EndsIn(r, 0x91, 0xAF));
      if !EndsIn(r, 0x91, 0x00) then (q, true)
      else if Slice(Body(r), 0, 7) != p.expected then (q.(dead := true), false)
      else (q.(verified := true), true)
  }

  class Ntag424ReadOnlyPolicy {
    const expectedId: seq<byte>
    var verified: bool
    var gvChainOpen: bool
    var dead: bool

    ghost function View(): Ntag
      reads this
    {
      Ntag(expectedId, verified, gvChainOpen, dead)
    }

    constructor (expected: seq<byte>)
      ensures View() == Ntag(expected, false, false, false)
    {
      expectedId := expected;
      verified, gvChainOpen, dead := false, false, false;
    }

    method Check(c: seq<byte>) returns (v: Verdict)
      modifies this
      ensures (View(), v) == Checked(old(View()), c)
    {
      hide IsStart, IsContinuation, InProfile;
      if dead { return Deny; }
      if IsContinuation(c) {
        return if gvChainOpen then Pass else Deny;
      }
      gvChainOpen := false;
      if IsStart(c) { return Pass; }
      if IsSelect(c) && |c| >= 4 && c[2] == 0x04 && c[3] == 0x00 {
        if |c| < 5 { return Crash; }
        if Slice(c, 5, 5 + c[4] as int) == NDEF_AID { return Pass; }
      }
      if !verified { return Deny; }
      if IsSelect(c) && |c| < 5 { return Crash; }
      v := if InProfile(c) then Pass else Deny;
    }

    method Observe(c: seq<byte>, r: seq<byte>) returns (ok: bool)
      modifies this
      ensures (View(), ok) == Observed(old(View()), c, r)
    {
      hide IsStart, IsContinuation, EndsIn, Slice, Body;
      if IsStart(c) || IsContinuation(c) {
        gvChainOpen := EndsIn(r, 0x91, 0xAF);
        if EndsIn(r, 0x91, 0x00) {
          var uid := Slice(Body(r), 0, 7);
          if uid != expectedId {
            dead := true;
            return false;
          }
          verified := true;
        }
      }
      ok := true;
    }
  }

  // ---- NTAG424: what the history of the card says ----

  // The newest links are an unbroken GET_VERSION chain, each answered with more to come.
  predicate OpenChain(log: List<Link>) {
    && log.Cons?
    && EndsIn(log.head.rapdu, 0x91, 0xAF)
    && (IsStart(log.head.capdu) || (IsContinuation(log.head.capdu) && OpenChain(log.tail)))
  }

  // The final part of a version answer carried this identity.
  predicate Identifies(l: Link, id: seq<byte>) {
    (IsStart(l.capdu) || IsContinuation(l.capdu)) && EndsIn(l.rapdu, 0x91, 0x00) && Slice(Body(l.rapdu), 0, 7) == id
  }

  predicate Identified(log: List<Link>, id: seq<byte>) {
    log.Cons? && (Identifies(log.head, id) || Identified(log.tail, id))
  }

  predicate Contradicts(l: Link, id: seq<byte>) {
    (IsStart(l.capdu) || IsContinuation(l.capdu)) && EndsIn(l.rapdu, 0x91, 0x00) && Slice(Body(l.rapdu), 0, 7) != id
  }

  predicate Mismatched(log: List<Link>, id: seq<byte>) {
    log.Cons? && (Contradicts(log.head, id) || Mismatched(log.tail, id))
  }

  // What may go to the card, told from what went before.
  predicate Permitted(log: List<Link>, id: seq<byte>, c: seq<byte>) {
    && !Mismatched(log, id)
    && if IsContinuation(c) then OpenChain(log)
       else IsStart(c) || IsNdefSelect(c) || (Identified(log, id) && InProfile(c))
  }

  // The flags say of the history what they stand for.
  predicate Remembers(p: Ntag, log: List<Link>) {
    && p.verified == Identified(log, p.expected)
    && p.dead == Mismatched(log, p.expected)
    && p.chainOpen == OpenChain(log)
  }

  lemma StartIsOneThing(c: seq<byte>)
    requires IsStart(c)
    ensures !IsContinuation(c) && !IsSelect(c)
  {
    assert Slice(c, 0, 5)[0] == 0x90 && Slice(c, 0, 5)[1] == 0x60;
  }

  lemma ShortSelects(c: seq<byte>)
    requires IsSelect(c) && |c| < 5
    ensures !InProfile(c) && !IsNdefSelect(c)
  {
  }

  // The gate is exact: a command passes if and only if the history permits it and it is
  // long enough to be classified.
  lemma CheckIsExact(p: Ntag, log: List<Link>, c: seq<byte>)
    requires Remembers(p, log)
    ensures Checked(p, c).1 == Pass <==> Permitted(log, p.expected, c)
    ensures Checked(p, c).1 == Crash <==> !p.dead && Unindexable(p, c)
  {
    hide OpenChain, Identified, Mismatched, Slice, EndsIn;
    if IsStart(c) { StartIsOneThing(c); }
    if IsSelect(c) && |c| < 5 { ShortSelects(c); }
  }

  // A four-byte SELECT by name, the first thing a reader may send, is such a command.
  lemma ShortSelectCrashes(id: seq<byte>)
    ensures Checked(Ntag(id, false, false, false), [0x00, 0xA4, 0x04, 0x00]).1 == Crash
  {
    var c: seq<byte> := [0x00, 0xA4, 0x04, 0x00];
    assert !IsStart(c) && !IsContinuation(c) && Unindexable(Ntag(id, false, false, false), c);
  }

  // A completed exchange leaves the flags true to the longer history.
  lemma ObserveRemembers(p: Ntag, log: List<Link>, c: seq<byte>, r: seq<byte>)
    requires Remembers(p, log) && Checked(p, c).1 == Pass
    ensures Remembers(Observed(Checked(p, c).0, c, r).0, Cons(Link(c, r), log))
  {
    hide Slice, EndsIn, InProfile, IsNdefSelect, IsStart, IsContinuation, IsSelect;
    if IsStart(c) { StartIsOneThing(c); }
  }

  // ---- JCOP ----

  predicate IsCplc(c: seq<byte>) {
    Slice(c, 0, 5) == [0x80, 0xCA, 0x9F, 0x7F, 0x00]
  }

  predicate InJcopProfile(c: seq<byte>) {
    || (IsSelect(c) && |c| >= 3 && (c[2] == 0x00 || c[2] == 0x04))
    || ((Begins(c, 0x80, 0xCA) || Begins(c, 0x00, 0xCA))
        && (Slice(c, 2, 4) == [0x9F, 0x7F] || Slice(c, 2, 4) == [0x00, 0x4F]))
  }

  datatype Jcop = Jcop(expected: seq<byte>, verified: bool)

  function CheckJcop(p: Jcop, c: seq<byte>): Verdict {
    if IsCplc(c) then Pass
    else if !p.verified then Deny
    else if IsSelect(c) && |c| == 2 then Crash
    else if InJcopProfile(c) then Pass
    else Deny
  }

  // A ledger answer: tag 9F7F, and the serial at bytes 15 to 18 of the body.
  predicate IsLedger(l: Link) {
    IsCplc(l.capdu) && EndsIn(l.rapdu, 0x90, 0x00) && Slice(Body(l.rapdu), 0, 2) == [0x9F, 0x7F]
  }

  function Serial(l: Link): seq<byte> {
    Slice(Body(l.rapdu), 15, 19)
  }

  function ObserveJcop(p: Jcop, c: seq<byte>, r: seq<byte>): (Jcop, bool) {
    if !IsLedger(Link(c, r)) then (p, true)
    else if Serial(Link(c, r)) != p.expected then (p, false)
    else (p.(verified := true), true)
  }

  class JcopReadOnlyPolicy {
    const expectedId: seq<byte>
    var verified: bool

    ghost function View(): Jcop
      reads this
    {
      Jcop(expectedId, verified)
    }

    constructor (expected: seq<byte>)
      ensures View() == Jcop(expected, false)
    {
      expectedId := expected;
      verified := false;
    }

    method Check(c: seq<byte>) returns (v: Verdict)
      ensures v == CheckJcop(View(), c)
    {
      if IsCplc(c) { return Pass; }
      if !verified { return Deny; }
      if IsSelect(c) {
        if |c| == 2 { return Crash; }
        if c[2] == 0x00 || c[2] == 0x04 { return Pass; }
      }
      v := if InJcopProfile(c) then Pass else Deny;
    }

    method Observe(c: seq<byte>, r: seq<byte>) returns (ok: bool)
      modifies this
      ensures (View(), ok) == ObserveJcop(old(View()), c, r)
    {
      hide IsCplc, EndsIn, Slice, Body;
      if !IsCplc(c) || !EndsIn(r, 0x90, 0x00) { return true; }
      var body := Body(r);
      if Slice(body, 0, 2) != [0x9F, 0x7F] { return true; }
      if Slice(body, 15, 19) != expectedId { return false; }
      verified := true;
      ok := true;
    }
  }

  predicate Ledgered(log: List<Link>, id: seq<byte>) {
    log.Cons? && ((IsLedger(log.head) && Serial(log.head) == id) || Ledgered(log.tail, id))
  }

  predicate PermittedJcop(log: List<Link>, id: seq<byte>, c: seq<byte>) {
    IsCplc(c) || (Ledgered(log, id) && InJcopProfile(c))
  }

  lemma JcopCheckIsExact(p: Jcop, log: List<Link>, c: seq<byte>)
    requires p.verified == Ledgered(log, p.expected)
    ensures CheckJcop(p, c) == Pass <==> PermittedJcop(log, p.expected, c)
    ensures CheckJcop(p, c) == Crash <==> p.verified && IsSelect(c) && |c| == 2
  {
    hide Ledgered;
    if IsCplc(c) { assert Slice(c, 0, 5)[0] == 0x80; }
  }

  lemma JcopObserveRemembers(p: Jcop, log: List<Link>, c: seq<byte>, r: seq<byte>)
    requires p.verified == Ledgered(log, p.expected)
    ensures ObserveJcop(p, c, r).0.verified == Ledgered(Cons(Link(c, r), log), p.expected)
    ensures ObserveJcop(p, c, r).0.expected == p.expected
  {
    hide IsLedger, Serial;
  }

  // ---- The profiles, in bytes ----

  lemma SliceIsPrefix(c: seq<byte>, p: seq<byte>)
    requires |p| >= 1
    ensures Slice(c, 0, |p|) == p <==> p <= c
  {
  }

  lemma SliceInside(c: seq<byte>, from: nat, p: seq<byte>)
    requires |p| >= 1 && |c| >= from
    ensures Slice(c, from, from + |p|) == p <==> p <= c[from..]
  {
  }

  // A SELECT of the NDEF application by name, whether or not an Le follows.
  predicate SelectsNdef(c: seq<byte>) {
    && [0x00, 0xA4, 0x04, 0x00] <= c && |c| >= 12
    && c[5..12] == [0xD2, 0x76, 0x00, 0x00, 0x85, 0x01, 0x01]
    && (c[4] == 7 || (c[4] > 7 && |c| == 12))
  }

  lemma NdefSelectIs(c: seq<byte>)
    ensures IsNdefSelect(c) <==> SelectsNdef(c)
  {
    if |c| >= 5 {
      var high := if 5 + c[4] as int < |c| then 5 + c[4] as int else |c|;
      assert |Slice(c, 5, 5 + c[4] as int)| == high - 5;
    }
  }

  // The whole NTAG424 profile. Nothing in it writes, authenticates or changes a setting.
  lemma NtagProfile(log: List<Link>, id: seq<byte>, c: seq<byte>)
    ensures Permitted(log, id, c) <==>
              && !Mismatched(log, id)
              && if [0x90, 0xAF] <= c then OpenChain(log)
                 else
                   || [0x90, 0x60, 0x00, 0x00, 0x00] <= c
                   || SelectsNdef(c)
                   || (Identified(log, id)
                       && (|| [0x00, 0xA4, 0x00, 0x0C, 0x02, 0xE1, 0x03] <= c
                           || [0x00, 0xA4, 0x00, 0x0C, 0x02, 0xE1, 0x04] <= c
                           || [0x00, 0xB0] <= c
                           || c == [0x90, 0xF5, 0x00, 0x00, 0x01, 0x02, 0x00]
                           || c == [0x90, 0x3C, 0x00, 0x00, 0x01, 0x00, 0x00]))
  {
    hide Mismatched, OpenChain, Identified, SelectsNdef, IsNdefSelect, Slice;
    NdefSelectIs(c);
    SliceIsPrefix(c, [0x90, 0x60, 0x00, 0x00, 0x00]);
    FileSelectIs(c);
  }

  lemma FileSelectIs(c: seq<byte>)
    ensures IsFileSelect(c) <==>
              [0x00, 0xA4, 0x00, 0x0C, 0x02, 0xE1, 0x03] <= c || [0x00, 0xA4, 0x00, 0x0C, 0x02, 0xE1, 0x04] <= c
  {
    hide Slice;
    if |c| >= 5 {
      SliceInside(c, 5, [0xE1, 0x03]);
      SliceInside(c, 5, [0xE1, 0x04]);
    }
  }

  // The whole JCOP profile.
  lemma JcopProfile(log: List<Link>, id: seq<byte>, c: seq<byte>)
    ensures PermittedJcop(log, id, c) <==>
              || [0x80, 0xCA, 0x9F, 0x7F, 0x00] <= c
              || (Ledgered(log, id)
                  && (|| [0x00, 0xA4, 0x00] <= c || [0x00, 0xA4, 0x04] <= c
                      || [0x80, 0xCA, 0x9F, 0x7F] <= c || [0x80, 0xCA, 0x00, 0x4F] <= c
                      || [0x00, 0xCA, 0x9F, 0x7F] <= c || [0x00, 0xCA, 0x00, 0x4F] <= c))
  {
    hide Ledgered, Slice;
    SliceIsPrefix(c, [0x80, 0xCA, 0x9F, 0x7F, 0x00]);
    if |c| >= 2 {
      SliceInside(c, 2, [0x9F, 0x7F]);
      SliceInside(c, 2, [0x00, 0x4F]);
    }
  }

  // How a version answer is judged: more to come keeps the chain open; the last part of it is
  // judged by the seven bytes it starts with; anything else leaves only the chain closed. The
  // answers to other commands are not judged.
  lemma VersionAnswerIsJudged(p: Ntag, c: seq<byte>, body: seq<byte>, sw1: byte, sw2: byte)
    ensures Observed(p, c, body + [sw1, sw2]) ==
              var q := p.(chainOpen := sw1 == 0x91 && sw2 == 0xAF);
              if !([0x90, 0xAF] <= c) && !([0x90, 0x60, 0x00, 0x00, 0x00] <= c) then (p, true)
              else if !(sw1 == 0x91 && sw2 == 0x00) then (q, true)
              else if |p.expected| == 7 && p.expected <= body then (q.(verified := true), true)
              else if |body| < 7 && body == p.expected then (q.(verified := true), true)
              else (q.(dead := true), false)
  {
    hide Slice;
    var r := body + [sw1, sw2];
    SliceIsPrefix(c, [0x90, 0x60, 0x00, 0x00, 0x00]);
    assert r[..|r| - 2] == body;
    JudgedBySeven(body, p.expected);
  }

  // Nor is an answer too short for a status word.
  lemma ShortAnswerIsNotJudged(p: Ntag, j: Jcop, c: seq<byte>, r: seq<byte>)
    requires |r| < 2
    ensures Observed(p, c, r) ==
              (if [0x90, 0xAF] <= c || [0x90, 0x60, 0x00, 0x00, 0x00] <= c then p.(chainOpen := false) else p, true)
    ensures ObserveJcop(j, c, r) == (j, true)
  {
    hide Slice;
    SliceIsPrefix(c, [0x90, 0x60, 0x00, 0x00, 0x00]);
  }

  lemma JudgedBySeven(body: seq<byte>, id: seq<byte>)
    ensures Slice(body, 0, 7) == id <==> (|id| == 7 && id <= body) || (|body| < 7 && body == id)
  {
  }

  // How a ledger answer is judged: tag 9F7F, a success word, and the serial at bytes 15 to 18.
  lemma LedgerAnswerIsJudged(p: Jcop, c: seq<byte>, body: seq<byte>, sw1: byte, sw2: byte)
    ensures var ledger := [0x80, 0xCA, 0x9F, 0x7F, 0x00] <= c && sw1 == 0x90 && sw2 == 0x00 && [0x9F, 0x7F] <= body;
            var serial := if |body| >= 19 then body[15..19] else if |body| > 15 then body[15..] else [];
            ObserveJcop(p, c, body + [sw1, sw2]) ==
              if !ledger then (p, true) else if serial == p.expected then (p.(verified := true), true) else (p, false)
  {
    hide Slice;
    var r := body + [sw1, sw2];
    SliceIsPrefix(c, [0x80, 0xCA, 0x9F, 0x7F, 0x00]);
    SliceIsPrefix(body, [0x9F, 0x7F]);
    assert r[..|r| - 2] == body;
    SerialIs(body);
  }

  lemma SerialIs(body: seq<byte>)
    ensures Slice(body, 15, 19) == if |body| >= 19 then body[15..19] else if |body| > 15 then body[15..] else []
  {
  }
}
