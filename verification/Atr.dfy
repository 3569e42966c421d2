/** The answer-to-reset parser: a loop over chained interface groups. */
module Atr {
  import opened Bytes

  datatype AtrParams = AtrParams(
    fi: nat, di: nat, ta1: byte, protocol: byte, guardTimeN: byte,
    ifsc: byte, bwi: nat, cwi: nat, edcType: nat, hasTa1: bool)

  const DEFAULT := AtrParams(372, 1, 0, 0, 0, 32, 4, 13, 0, false)

  const FI_TABLE: seq<nat> := [372, 372, 558, 744, 1116, 1488, 1860, 0, 0, 512, 768, 1024, 1536, 2048, 0, 0]
  const DI_TABLE: seq<nat> := [0, 1, 2, 4, 8, 16, 32, 64, 12, 20, 0, 0, 0, 0, 0, 0]

  function FiFromTa1High(nibble: nat): nat {
    if nibble < |FI_TABLE| then FI_TABLE[nibble] else 372
  }

  function DiFromTa1Low(nibble: nat): nat {
    var d := if nibble < |DI_TABLE| then DI_TABLE[nibble] else 1;
    if d == 0 then 1 else d
  }

  // ---- Interface bytes ----

  datatype Slot = TA | TB | TC | TD

  // Whether the presence nibble announces the byte of a slot.
  predicate Announces(y: nat, slot: Slot) {
    match slot
    case TA => y % 2 == 1
    case TB => y / 2 % 2 == 1
    case TC => y / 4 % 2 == 1
    case TD => y / 8 % 2 == 1
  }

  // What one interface byte of group `level` sets, the protocol being that of the last TD.
  function Update(p: AtrParams, level: nat, protocol: nat, slot: Slot, b: byte): AtrParams {
    match slot
    case TA =>
      if level == 1 then p.(ta1 := b, hasTa1 := true, fi := FiFromTa1High(b / 16), di := DiFromTa1Low(b % 16))
      else if level >= 3 && protocol == 1 then p.(ifsc := b)
      else p
    case TB => if level >= 2 && protocol == 1 then p.(bwi := b / 16, cwi := b % 16) else p
    case TC =>
      if level == 1 then p.(guardTimeN := b)
      else if protocol == 1 then p.(edcType := b % 2)
      else p
    case TD => if level == 1 then p.(protocol := b % 16) else p
  }

  datatype Item = Item(pos: nat, level: nat, protocol: nat, slot: Slot, b: byte)

  function Interpret(p: AtrParams, items: List<Item>): AtrParams
    decreases items
  {
    match items
    case Nil => p
    case Cons(i, rest) => Interpret(Update(p, i.level, i.protocol, i.slot, i.b), rest)
  }

  function NextSlot(slot: Slot): Slot {
    match slot case TA => TB case TB => TC case TC => TD case TD => TA
  }

  function Left(slot: Slot): nat {
    match slot case TA => 3 case TB => 2 case TC => 1 case TD => 0
  }

  // The interface bytes of an ATR in order: s is what remains from position pos, and the
  // next byte looked for is that of `slot` in group `level`. The group counter is one byte.
  function Items(s: seq<byte>, pos: nat, y: nat, slot: Slot, level: nat, protocol: nat): List<Item>
    requires 1 <= level <= 255
    decreases 256 - level, Left(slot)
  {
    if !Announces(y, slot) then
      if slot.TD? then Nil else Items(s, pos, y, NextSlot(slot), level, protocol)
    else if s == [] then Nil
    else
      var item := Item(pos, level, protocol, slot, s[0]);
      if !slot.TD? then Cons(item, Items(s[1..], pos + 1, y, NextSlot(slot), level, protocol))
      else if level == 255 then Cons(item, Nil)
      else Cons(item, Items(s[1..], pos + 1, s[0] / 16, TA, level + 1, s[0] % 16))
  }

  function AtrItems(atr: seq<byte>): List<Item> {
    if |atr| < 2 then Nil else Items(atr[2..], 2, atr[1] / 16, TA, 1, 0)
  }

  // ---- The parser loop ----

  // One slot of the loop: the state after it, or the end of parsing.
  lemma ReadSlot(atr: seq<byte>, idx: nat, y: nat, slot: Slot, level: nat, protocol: nat, p: AtrParams)
    requires 1 <= level <= 255 && idx <= |atr|
    ensures var items := Items(atr[idx..], idx, y, slot, level, protocol);
            && (Announces(y, slot) && idx == |atr| ==> items == Nil)
            && (!Announces(y, slot) && slot.TD? ==> items == Nil)
            && (!Announces(y, slot) && !slot.TD? ==>
                  items == Items(atr[idx..], idx, y, NextSlot(slot), level, protocol))
            && (Announces(y, slot) && idx < |atr| ==>
                  var q := Update(p, level, protocol, slot, atr[idx]);
                  Interpret(p, items) ==
                    if !slot.TD? then Interpret(q, Items(atr[idx + 1..], idx + 1, y, NextSlot(slot), level, protocol))
                    else if level == 255 then q
                    else Interpret(q, Items(atr[idx + 1..], idx + 1, atr[idx] / 16, TA, level + 1, atr[idx] % 16)))
  {
    hide Announces, Update;
    if idx < |atr| { assert atr[idx..][1..] == atr[idx + 1..]; }
  }

  // The loop stands before a slot, and what is still to be read will complete the whole.
  ghost predicate Parsing(atr: seq<byte>, idx: nat, y: nat, slot: Slot, level: nat, protocol: nat, p: AtrParams,
                          whole: AtrParams)
  {
    && 1 <= level <= 255 && idx <= |atr|
    && Interpret(p, Items(atr[idx..], idx, y, slot, level, protocol)) == whole
  }

  lemma SlotStep(atr: seq<byte>, idx: nat, y: nat, slot: Slot, level: nat, protocol: nat, p: AtrParams,
                 whole: AtrParams)
    requires Parsing(atr, idx, y, slot, level, protocol, p, whole)
    ensures 1 <= level <= 255 && idx <= |atr|
    ensures if !Announces(y, slot) then
              if slot.TD? then p == whole else Parsing(atr, idx, y, NextSlot(slot), level, protocol, p, whole)
            else if idx == |atr| then p == whole
            else
              var q := Update(p, level, protocol, slot, atr[idx]);
              if !slot.TD? then Parsing(atr, idx + 1, y, NextSlot(slot), level, protocol, q, whole)
              else if level == 255 then q == whole
              else Parsing(atr, idx + 1, atr[idx] / 16, TA, level + 1, atr[idx] % 16, q, whole)
  {
    hide Announces, Update, Items, Interpret;
    InterpretNil(p);
    ReadSlot(atr, idx, y, slot, level, protocol, p);
  }

  lemma ParsingStarts(atr: seq<byte>)
    requires |atr| >= 2
    ensures Parsing(atr, 2, atr[1] / 16, TA, 1, 0, DEFAULT, Interpret(DEFAULT, AtrItems(atr)))
  {
    hide Items, Interpret;
  }

  method ParseAtr(atr: seq<byte>) returns (p: AtrParams)
    ensures p == Interpret(DEFAULT, AtrItems(atr))
  {
    hide Parsing, Interpret, AtrItems, FiFromTa1High, DiFromTa1Low;
    p := DEFAULT;
    if |atr| < 2 {
      NothingToParse(atr);
      return;
    }
    var y: nat := atr[1] / 16;
    var idx: nat, level: nat, tdProtocol: nat := 2, 1, 0;
    ghost var whole := Interpret(DEFAULT, AtrItems(atr));
    ParsingStarts(atr);
    while true
      invariant Parsing(atr, idx, y, TA, level, tdProtocol, p, whole)
      decreases 256 - level
    {
      SlotStep(atr, idx, y, TA, level, tdProtocol, p, whole);
      if y % 2 == 1 {
        if idx >= |atr| { break; }
        var ta := atr[idx];
        idx := idx + 1;
        if level == 1 {
          p := p.(ta1 := ta, hasTa1 := true, fi := FiFromTa1High(ta / 16), di := DiFromTa1Low(ta % 16));
        } else if level >= 3 && tdProtocol == 1 {
          p := p.(ifsc := ta);
        }
      }
      SlotStep(atr, idx, y, TB, level, tdProtocol, p, whole);
      if y / 2 % 2 == 1 {
        if idx >= |atr| { break; }
        var tb := atr[idx];
        idx := idx + 1;
        if level >= 2 && tdProtocol == 1 {
          p := p.(bwi := tb / 16, cwi := tb % 16);
        }
      }
      SlotStep(atr, idx, y, TC, level, tdProtocol, p, whole);
      if y / 4 % 2 == 1 {
        if idx >= |atr| { break; }
        var tc := atr[idx];
        idx := idx + 1;
        if level == 1 {
          p := p.(guardTimeN := tc);
        } else if tdProtocol == 1 {
          p := p.(edcType := tc % 2);
        }
      }
      SlotStep(atr, idx, y, TD, level, tdProtocol, p, whole);
      if y / 8 % 2 == 1 {
        if idx >= |atr| { break; }
        var td := atr[idx];
        idx := idx + 1;
        tdProtocol := td % 16;
        if level == 1 {
          p := p.(protocol := tdProtocol);
        }
        y := td / 16;
        if level == 255 { break; }
        level := level + 1;
      } else {
        break;
      }
    }
  }

  lemma NothingToParse(atr: seq<byte>)
    requires |atr| < 2
    ensures Interpret(DEFAULT, AtrItems(atr)) == DEFAULT
  {
  }

  lemma InterpretNil(p: AtrParams)
    ensures Interpret(p, Nil) == p
  {
  }

  // ---- Truncation ----

  function Before(items: List<Item>, limit: nat): List<Item> {
    match items
    case Nil => Nil
    case Cons(i, rest) => if i.pos < limit then Cons(i, Before(rest, limit)) else Nil
  }

  lemma {:induction false} ItemsTruncated(s: seq<byte>, k: nat, pos: nat, y: nat, slot: Slot, level: nat, protocol: nat)
    requires 1 <= level <= 255 && k <= |s|
    ensures Items(s[..k], pos, y, slot, level, protocol) == Before(Items(s, pos, y, slot, level, protocol), pos + k)
    decreases 256 - level, Left(slot)
  {
    hide Announces;
    if !Announces(y, slot) {
      if !slot.TD? { ItemsTruncated(s, k, pos, y, NextSlot(slot), level, protocol); }
    } else if k > 0 {
      assert s[..k][1..] == s[1..][..k - 1];
      if !slot.TD? {
        ItemsTruncated(s[1..], k - 1, pos + 1, y, NextSlot(slot), level, protocol);
      } else if level < 255 {
        ItemsTruncated(s[1..], k - 1, pos + 1, s[0] / 16, TA, level + 1, s[0] % 16);
      }
    }
  }

  // Cutting an ATR short keeps every field whose byte is still there: the parse of the
  // prefix is the interpretation of exactly the interface bytes before the cut.
  lemma TruncationKeeps(atr: seq<byte>, k: nat)
    requires 2 <= k <= |atr|
    ensures AtrItems(atr[..k]) == Before(AtrItems(atr), k)
  {
    hide Items;
    ItemsTruncated(atr[2..], k - 2, 2, atr[1] / 16, TA, 1, 0);
    assert atr[..k][2..] == atr[2..][..k - 2];
  }

  // ---- A grammar of answers to reset, and its printer ----

  datatype Group = Group(ta: Option<byte>, tb: Option<byte>, tc: Option<byte>)

  type Nibble = n: nat | n < 16

  // Groups joined by TD bytes, each naming the protocol of the next group.
  datatype Chain = Last(group: Group) | Link(group: Group, protocol: Nibble, next: Chain)

  function Presence(o: Option<byte>): nat {
    if o.Some? then 1 else 0
  }

  // The presence nibble of the first group of a chain.
  function Y(c: Chain): Nibble {
    Presence(c.group.ta) + 2 * Presence(c.group.tb) + 4 * Presence(c.group.tc) + (if c.Link? then 8 else 0)
  }

  function Optional(o: Option<byte>): seq<byte> {
    if o.Some? then [o.value] else []
  }

  // Interface bytes from a slot of the first group on, then whatever follows them.
  function Printed(c: Chain, slot: Slot, tail: seq<byte>): seq<byte>
    decreases c, Left(slot)
  {
    match slot
    case TA => Optional(c.group.ta) + Printed(c, TB, tail)
    case TB => Optional(c.group.tb) + Printed(c, TC, tail)
    case TC => Optional(c.group.tc) + Printed(c, TD, tail)
    case TD => if c.Link? then [16 * Y(c.next) + c.protocol] + Printed(c.next, TA, tail) else tail
  }

  // TS, T0 with the historical-byte count, the chain, and any trailing bytes.
  function Print(ts: byte, historical: Nibble, c: Chain, tail: seq<byte>): seq<byte> {
    [ts, 16 * Y(c) + historical] + Printed(c, TA, tail)
  }

  // The last T=1 group with a byte in this slot, among groups `level` and later that the
  // parser counts; TA specifies T=1 from the third group on, TB and TC from the second.
  function LastOf(c: Chain, slot: Slot, level: nat, protocol: nat): Option<byte>
    decreases c
  {
    var later := if c.Link? && level < 255 then LastOf(c.next, slot, level + 1, c.protocol) else None;
    var here := if slot.TA? then c.group.ta else if slot.TB? then c.group.tb else c.group.tc;
    if later.Some? then later
    else if protocol == 1 && level >= (if slot.TA? then 3 else 2) then here
    else None
  }

  // What an answer to reset means, group by group.
  function Meaning(c: Chain): AtrParams {
    var ta := LastOf(c, TA, 1, 0);
    var tb := LastOf(c, TB, 1, 0);
    var tc := LastOf(c, TC, 1, 0);
    AtrParams(
      if c.group.ta.Some? then FiFromTa1High(c.group.ta.value / 16) else 372,
      if c.group.ta.Some? then DiFromTa1Low(c.group.ta.value % 16) else 1,
      if c.group.ta.Some? then c.group.ta.value else 0,
      if c.Link? then c.protocol else 0,
      if c.group.tc.Some? then c.group.tc.value else 0,
      if ta.Some? then ta.value else 32,
      if tb.Some? then tb.value / 16 else 4,
      if tb.Some? then tb.value % 16 else 13,
      if tc.Some? then tc.value % 2 else 0,
      c.group.ta.Some?)
  }

  function Present(c: Chain, slot: Slot): bool {
    match slot
    case TA => c.group.ta.Some?
    case TB => c.group.tb.Some?
    case TC => c.group.tc.Some?
    case TD => c.Link?
  }

  lemma NibbleAnnounces(c: Chain, slot: Slot)
    ensures Announces(Y(c), slot) <==> Present(c, slot)
  {
  }

  // What is still to come overrides what was set: the fields a T=1 chain can change.
  function Override(p: AtrParams, ta: Option<byte>, tb: Option<byte>, tc: Option<byte>): AtrParams {
    p.(ifsc := if ta.Some? then ta.value else p.ifsc,
       bwi := if tb.Some? then tb.value / 16 else p.bwi,
       cwi := if tb.Some? then tb.value % 16 else p.cwi,
       edcType := if tc.Some? then tc.value % 2 else p.edcType)
  }

  // The TD step of the printed chain.
  lemma LinkStep(c: Chain, tail: seq<byte>, pos: nat, level: nat, protocol: nat, p: AtrParams)
    requires 1 <= level <= 255
    ensures var items := Items(Printed(c, TD, tail), pos, Y(c), TD, level, protocol);
            if c.Last? then items == Nil
            else
              && items.Cons? && items.head == Item(pos, level, protocol, TD, items.head.b)
              && items.head.b % 16 == c.protocol
              && items.tail == if level == 255 then Nil
                               else Items(Printed(c.next, TA, tail), pos + 1, Y(c.next), TA, level + 1, c.protocol)
  {
    NibbleAnnounces(c, TD);
    if c.Link? {
      var b := 16 * Y(c.next) + c.protocol;
      assert b / 16 == Y(c.next) && b % 16 == c.protocol;
      assert Printed(c, TD, tail)[1..] == Printed(c.next, TA, tail);
    }
  }

  // A TA, TB or TC step of the printed chain.
  lemma ByteStep(c: Chain, slot: Slot, tail: seq<byte>, pos: nat, level: nat, protocol: nat)
    requires 1 <= level <= 255 && !slot.TD?
    ensures var items := Items(Printed(c, slot, tail), pos, Y(c), slot, level, protocol);
            var here := if slot.TA? then c.group.ta else if slot.TB? then c.group.tb else c.group.tc;
            var later := Printed(c, NextSlot(slot), tail);
            if here.None? then items == Items(later, pos, Y(c), NextSlot(slot), level, protocol)
            else items == Cons(Item(pos, level, protocol, slot, here.value),
                               Items(later, pos + 1, Y(c), NextSlot(slot), level, protocol))
  {
    hide Announces, Y;
    NibbleAnnounces(c, slot);
    var here := if slot.TA? then c.group.ta else if slot.TB? then c.group.tb else c.group.tc;
    var later := Printed(c, NextSlot(slot), tail);
    if here.Some? {
      assert ([here.value] + later)[1..] == later;
    } else {
      assert [] + later == later;
    }
  }

  // The interpretation of a group's TA, TB and TC, up to its TD.
  function ThroughGroup(p: AtrParams, c: Chain, level: nat, protocol: nat): AtrParams {
    var g := c.group;
    var pB := if g.ta.Some? then Update(p, level, protocol, TA, g.ta.value) else p;
    var pC := if g.tb.Some? then Update(pB, level, protocol, TB, g.tb.value) else pB;
    if g.tc.Some? then Update(pC, level, protocol, TC, g.tc.value) else pC
  }

  function AtTd(c: Chain, pos: nat): nat {
    pos + Presence(c.group.ta) + Presence(c.group.tb) + Presence(c.group.tc)
  }

  lemma GroupStep(c: Chain, tail: seq<byte>, pos: nat, level: nat, protocol: nat, p: AtrParams)
    requires 1 <= level <= 255
    ensures Interpret(p, Items(Printed(c, TA, tail), pos, Y(c), TA, level, protocol))
            == Interpret(ThroughGroup(p, c, level, protocol),
                         Items(Printed(c, TD, tail), AtTd(c, pos), Y(c), TD, level, protocol))
  {
    hide Items, Printed, Y, Update;
    var g := c.group;
    var posB := pos + Presence(g.ta);
    var posC := posB + Presence(g.tb);
    ByteStep(c, TA, tail, pos, level, protocol);
    ByteStep(c, TB, tail, posB, level, protocol);
    ByteStep(c, TC, tail, posC, level, protocol);
    var pB := if g.ta.Some? then Update(p, level, protocol, TA, g.ta.value) else p;
    var pC := if g.tb.Some? then Update(pB, level, protocol, TB, g.tb.value) else pB;
    assert Interpret(p, Items(Printed(c, TA, tail), pos, Y(c), TA, level, protocol))
        == Interpret(pB, Items(Printed(c, TB, tail), posB, Y(c), TB, level, protocol));
    assert Interpret(pB, Items(Printed(c, TB, tail), posB, Y(c), TB, level, protocol))
        == Interpret(pC, Items(Printed(c, TC, tail), posC, Y(c), TC, level, protocol));
  }

  // What a group from the second on has to say under a slot.
  function Here(c: Chain, slot: Slot, level: nat, protocol: nat): Option<byte> {
    if protocol == 1 && level >= (if slot.TA? then 3 else 2) then
      if slot.TA? then c.group.ta else if slot.TB? then c.group.tb else c.group.tc
    else None
  }

  lemma ThroughIsOverride(p: AtrParams, c: Chain, level: nat, protocol: nat)
    requires level >= 2
    ensures ThroughGroup(p, c, level, protocol)
         == Override(p, Here(c, TA, level, protocol), Here(c, TB, level, protocol), Here(c, TC, level, protocol))
  {
    hide FiFromTa1High, DiFromTa1Low;
  }

  function Either(later: Option<byte>, here: Option<byte>): Option<byte> {
    if later.Some? then later else here
  }

  lemma OverrideTwice(p: AtrParams, a: Option<byte>, b: Option<byte>, c: Option<byte>,
                      a2: Option<byte>, b2: Option<byte>, c2: Option<byte>)
    ensures Override(Override(p, a, b, c), a2, b2, c2) == Override(p, Either(a2, a), Either(b2, b), Either(c2, c))
  {
  }

  lemma LastIsEither(c: Chain, slot: Slot, level: nat, protocol: nat)
    ensures LastOf(c, slot, level, protocol)
         == Either(if c.Link? && level < 255 then LastOf(c.next, slot, level + 1, c.protocol) else None,
                   Here(c, slot, level, protocol))
  {
  }

  // Interpreting the printed groups from the second on.
  lemma {:induction false} LaterGroups(c: Chain, tail: seq<byte>, pos: nat, level: nat, protocol: nat, p: AtrParams)
    requires 2 <= level <= 255
    ensures Interpret(p, Items(Printed(c, TA, tail), pos, Y(c), TA, level, protocol))
            == Override(p, LastOf(c, TA, level, protocol), LastOf(c, TB, level, protocol),
                        LastOf(c, TC, level, protocol))
    decreases c
  {
    hide Items, Printed, Y, ThroughGroup, Override, LastOf, Here, Either;
    var pD := ThroughGroup(p, c, level, protocol);
    GroupStep(c, tail, pos, level, protocol, p);
    LinkStep(c, tail, AtTd(c, pos), level, protocol, pD);
    InterpretNil(pD);
    ThroughIsOverride(p, c, level, protocol);
    LastIsEither(c, TA, level, protocol);
    LastIsEither(c, TB, level, protocol);
    LastIsEither(c, TC, level, protocol);
    var a, b, d := Here(c, TA, level, protocol), Here(c, TB, level, protocol), Here(c, TC, level, protocol);
    if c.Link? && level < 255 {
      LaterGroups(c.next, tail, AtTd(c, pos) + 1, level + 1, c.protocol, pD);
      OverrideTwice(p, a, b, d, LastOf(c.next, TA, level + 1, c.protocol), LastOf(c.next, TB, level + 1, c.protocol),
                    LastOf(c.next, TC, level + 1, c.protocol));
    } else {
      EitherNone(a);
      EitherNone(b);
      EitherNone(d);
    }
  }

  lemma EitherNone(here: Option<byte>)
    ensures Either(None, here) == here
  {
  }

  // The parser undoes the printer, whatever trails the chain, for chains of any length:
  // groups past the 255th, which the one-byte counter cannot number, count for nothing.
  lemma ParsePrinted(ts: byte, historical: Nibble, c: Chain, tail: seq<byte>)
    ensures Interpret(DEFAULT, AtrItems(Print(ts, historical, c, tail))) == Meaning(c)
  {
    hide Items, Printed, Print, Y, FiFromTa1High, DiFromTa1Low;
    PrintHead(ts, historical, c, tail);
    var pD := ThroughGroup(DEFAULT, c, 1, 0);
    GroupStep(c, tail, 2, 1, 0, DEFAULT);
    LinkStep(c, tail, AtTd(c, 2), 1, 0, pD);
    InterpretNil(pD);
    if c.Link? {
      var b := Items(Printed(c, TD, tail), AtTd(c, 2), Y(c), TD, 1, 0).head.b;
      LaterGroups(c.next, tail, AtTd(c, 2) + 1, 2, c.protocol, Update(pD, 1, 0, TD, b));
    }
  }

  lemma PrintHead(ts: byte, historical: Nibble, c: Chain, tail: seq<byte>)
    ensures var atr := Print(ts, historical, c, tail);
            |atr| >= 2 && atr[1] / 16 == Y(c) && atr[2..] == Printed(c, TA, tail)
  {
  }

  // The loop itself, on a printed ATR.
  method ParsePrintedAtr(ts: byte, historical: Nibble, c: Chain, tail: seq<byte>) returns (p: AtrParams)
    ensures p == Meaning(c)
  {
    hide *;
    p := ParseAtr(Print(ts, historical, c, tail));
    ParsePrinted(ts, historical, c, tail);
  }

  // ---- The tables of TA1 ----

  // Fi in the two rows of the standard, in halves of 372 and 512 clocks; reserved codes have no
  // value.
  lemma FiTable(n: nat)
    ensures n == 0 ==> FiFromTa1High(n) == 372
    ensures n in [1, 2, 3, 4, 5, 6] ==> 2 * FiFromTa1High(n) == 372 * [2, 3, 4, 6, 8, 10][n - 1]
    ensures n in [9, 10, 11, 12, 13] ==> 2 * FiFromTa1High(n) == 512 * [2, 3, 4, 6, 8][n - 9]
    ensures n in [7, 8, 14, 15] ==> FiFromTa1High(n) == 0
    ensures n >= 16 ==> FiFromTa1High(n) == 372
  {
  }

  // Di doubles from 1 to 64, then has two values of its own.
  lemma DiTable(n: nat)
    ensures DiFromTa1Low(1) == 1 && DiFromTa1Low(8) == 12 && DiFromTa1Low(9) == 20
    ensures 1 <= n < 7 ==> DiFromTa1Low(n + 1) == 2 * DiFromTa1Low(n)
    ensures n == 0 || n >= 10 ==> DiFromTa1Low(n) == 1
  {
  }
}
