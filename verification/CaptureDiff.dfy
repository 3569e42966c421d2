/** Comparing two exchange captures modulo the byte ranges declared random. */
module CaptureDiff {
  import opened Bytes

  datatype Span = Span(start: nat, end: nat)

  predicate Proper(s: Span) {
    s.start < s.end
  }

  predicate Within(s: Span, x: nat) {
    s.start <= x < s.end
  }

  ghost predicate Covered(spans: seq<Span>, x: nat) {
    exists k :: 0 <= k < |spans| && Within(spans[k], x)
  }

  // The same bytes are masked.
  ghost predicate SameCover(a: seq<Span>, b: seq<Span>) {
    forall x: nat :: Covered(a, x) <==> Covered(b, x)
  }

  predicate AllProper(spans: seq<Span>) {
    forall k :: 0 <= k < |spans| ==> Proper(spans[k])
  }

  // ---- Sorting ----

  predicate Precedes(a: Span, b: Span) {
    a.start < b.start || (a.start == b.start && a.end <= b.end)
  }

  predicate Sorted(spans: seq<Span>) {
    forall i, j :: 0 <= i < j < |spans| ==> Precedes(spans[i], spans[j])
  }

  method Sort(spans: seq<Span>) returns (sorted: seq<Span>)
    ensures Sorted(sorted) && multiset(sorted) == multiset(spans)
  {
    sorted := [];
    for i := 0 to |spans|
      invariant Sorted(sorted) && multiset(sorted) == multiset(spans[..i])
    {
      var k := 0;
      while k < |sorted| && Precedes(sorted[k], spans[i])
        invariant 0 <= k <= |sorted|
        invariant forall j :: 0 <= j < k ==> Precedes(sorted[j], spans[i])
      {
        k := k + 1;
      }
      InsertKeeps(sorted, k, spans[i]);
      assert spans[..i + 1] == spans[..i] + [spans[i]];
      sorted := sorted[..k] + [spans[i]] + sorted[k..];
    }
    assert spans[..|spans|] == spans;
  }

  lemma InsertKeeps(s: seq<Span>, k: nat, x: Span)
    requires Sorted(s) && k <= |s|
    requires forall j :: 0 <= j < k ==> Precedes(s[j], x)
    requires k < |s| ==> !Precedes(s[k], x)
    ensures var t := s[..k] + [x] + s[k..]; Sorted(t) && multiset(t) == multiset(s) + multiset{x}
  {
    assert s[..k] + s[k..] == s;
    if k < |s| {
      assert Precedes(x, s[k]);
      forall j | k <= j < |s| ensures Precedes(x, s[j]) {
        assert j > k ==> Precedes(s[k], s[j]);
      }
    }
  }

  lemma SameElementsSameCover(a: seq<Span>, b: seq<Span>)
    requires multiset(a) == multiset(b)
    ensures SameCover(a, b) && (AllProper(a) ==> AllProper(b))
  {
    Included(a, b);
    Included(b, a);
  }

  lemma Included(a: seq<Span>, b: seq<Span>)
    requires multiset(a) == multiset(b)
    ensures forall x: nat :: Covered(a, x) ==> Covered(b, x)
    ensures AllProper(b) ==> AllProper(a)
  {
    forall k | 0 <= k < |a| ensures a[k] in b {
      assert a[k] in multiset(a);
    }
    forall x: nat | Covered(a, x) ensures Covered(b, x) {
      var k :| 0 <= k < |a| && Within(a[k], x);
      assert a[k] in b;
    }
  }

  // ---- Merging ----

  // Spans in order with at least one unmasked byte between neighbours.
  predicate Separated(runs: seq<Span>) {
    AllProper(runs) && forall i :: 0 <= i < |runs| - 1 ==> runs[i].end < runs[i + 1].start
  }

  // The runs after one more span, none starting earlier than what is already there.
  function Absorb(runs: seq<Span>, s: Span): seq<Span> {
    if runs != [] && s.start <= runs[|runs| - 1].end then
      var last := runs[|runs| - 1];
      runs[..|runs| - 1] + [Span(last.start, if last.end < s.end then s.end else last.end)]
    else runs + [s]
  }

  lemma AbsorbSeparates(runs: seq<Span>, s: Span)
    requires Separated(runs) && Proper(s)
    requires runs != [] ==> runs[|runs| - 1].start <= s.start
    ensures Separated(Absorb(runs, s)) && Absorb(runs, s) != []
    ensures Absorb(runs, s)[|Absorb(runs, s)| - 1].start <= s.start
  {
  }

  lemma AppendCovers(a: seq<Span>, b: seq<Span>, x: nat)
    ensures Covered(a + b, x) <==> Covered(a, x) || Covered(b, x)
  {
    if Covered(a, x) {
      var k :| 0 <= k < |a| && Within(a[k], x);
      assert Within((a + b)[k], x);
    }
    if Covered(b, x) {
      var k :| 0 <= k < |b| && Within(b[k], x);
      assert Within((a + b)[|a| + k], x);
    }
    if Covered(a + b, x) {
      var k :| 0 <= k < |a + b| && Within((a + b)[k], x);
      assert if k < |a| then Within(a[k], x) else Within(b[k - |a|], x);
    }
  }

  lemma OneCovers(s: Span, x: nat)
    ensures Covered([s], x) <==> Within(s, x)
  {
    if Within(s, x) { assert Within([s][0], x); }
  }

  lemma AbsorbCovers(runs: seq<Span>, s: Span, x: nat)
    requires Separated(runs) && Proper(s)
    requires runs != [] ==> runs[|runs| - 1].start <= s.start
    ensures Covered(Absorb(runs, s), x) <==> Covered(runs, x) || Within(s, x)
  {
    hide Covered;
    OneCovers(s, x);
    if runs != [] && s.start <= runs[|runs| - 1].end {
      var n := |runs| - 1;
      assert runs == runs[..n] + [runs[n]];
      OneCovers(runs[n], x);
      OneCovers(Absorb(runs, s)[n], x);
      AppendCovers(runs[..n], [runs[n]], x);
      AppendCovers(runs[..n], [Absorb(runs, s)[n]], x);
    } else {
      AppendCovers(runs, [s], x);
    }
  }

  // What merging has to keep as it goes through sorted spans.
  ghost predicate Merged(spans: seq<Span>, i: nat, runs: seq<Span>)
    requires i <= |spans|
  {
    && Separated(runs)
    && (forall x: nat :: Covered(runs, x) <==> Covered(spans[..i], x))
    && (i == 0 ==> runs == [])
    && (i > 0 ==> runs != [] && runs[|runs| - 1].start <= spans[i - 1].start)
  }

  lemma MergeStarts(spans: seq<Span>)
    ensures Merged(spans, 0, [])
  {
  }

  lemma MergeSteps(spans: seq<Span>, i: nat, runs: seq<Span>)
    requires i < |spans| && Sorted(spans) && AllProper(spans) && Merged(spans, i, runs)
    ensures Merged(spans, i + 1, Absorb(runs, spans[i]))
  {
    hide Covered, Absorb;
    var s := spans[i];
    assert i > 0 ==> Precedes(spans[i - 1], s);
    AbsorbSeparates(runs, s);
    assert spans[..i + 1] == spans[..i] + [s];
    forall x: nat ensures Covered(Absorb(runs, s), x) <==> Covered(spans[..i + 1], x) {
      AbsorbCovers(runs, s, x);
      AppendCovers(spans[..i], [s], x);
      OneCovers(s, x);
    }
  }

  // Overlapping and touching spans become one; the masked bytes stay the same.
  method Merge(spans: seq<Span>) returns (runs: seq<Span>)
    requires AllProper(spans)
    ensures Separated(runs) && SameCover(runs, spans)
  {
    hide Covered, Separated, Merged, SameCover, Sorted, AllProper;
    var sorted := Sort(spans);
    SameElementsSameCover(spans, sorted);
    runs := [];
    MergeStarts(sorted);
    for i := 0 to |sorted|
      invariant Merged(sorted, i, runs)
    {
      MergeSteps(sorted, i, runs);
      if |runs| > 0 && sorted[i].start <= runs[|runs| - 1].end {
        var last := runs[|runs| - 1];
        var end := if last.end < sorted[i].end then sorted[i].end else last.end;
        runs := runs[..|runs| - 1] + [Span(last.start, end)];
      } else {
        runs := runs + [sorted[i]];
      }
    }
    MergeEnds(spans, sorted, runs);
  }

  lemma MergeEnds(spans: seq<Span>, sorted: seq<Span>, runs: seq<Span>)
    requires Merged(sorted, |sorted|, runs) && SameCover(spans, sorted)
    ensures Separated(runs) && SameCover(runs, spans)
  {
    hide Covered, Separated;
    assert sorted[..|sorted|] == sorted;
  }

  // ---- Merged spans are canonical ----

  lemma FirstCovered(runs: seq<Span>, x: nat)
    requires Separated(runs) && runs != [] && Covered(runs, x)
    ensures runs[0].start <= x && (x > runs[0].end ==> Covered(runs[1..], x)) && x != runs[0].end
  {
    var k :| 0 <= k < |runs| && Within(runs[k], x);
    Ascending(runs, k);
    if k > 0 { assert Within(runs[1..][k - 1], x); }
  }

  lemma {:induction false} Ascending(runs: seq<Span>, k: nat)
    requires Separated(runs) && k < |runs|
    ensures k > 0 ==> runs[0].end < runs[k].start
    ensures runs[0].start <= runs[k].start
    decreases k
  {
    if k > 0 { Ascending(runs, k - 1); }
  }

  lemma TailSeparated(runs: seq<Span>)
    requires Separated(runs) && runs != []
    ensures Separated(runs[1..]) && Covered(runs, runs[0].start) && !Covered(runs, runs[0].end)
    ensures forall x: nat :: runs[0].start <= x < runs[0].end ==> Covered(runs, x)
    ensures forall x: nat :: Covered(runs[1..], x) <==> Covered(runs, x) && x > runs[0].end
  {
    assert Within(runs[0], runs[0].start);
    forall x: nat | Covered(runs[1..], x) ensures Covered(runs, x) && x > runs[0].end {
      var k :| 0 <= k < |runs[1..]| && Within(runs[1..][k], x);
      assert Within(runs[k + 1], x);
      Ascending(runs, k + 1);
    }
    forall x: nat | Covered(runs, x) ensures x != runs[0].end && (x > runs[0].end ==> Covered(runs[1..], x)) {
      FirstCovered(runs, x);
    }
    forall x: nat | runs[0].start <= x < runs[0].end ensures Covered(runs, x) {
      assert Within(runs[0], x);
    }
  }

  lemma NothingCovered(x: nat)
    ensures !Covered([], x)
  {
  }

  lemma SameFirst(a: seq<Span>, b: seq<Span>)
    requires Separated(a) && Separated(b) && SameCover(a, b) && a != [] && b != []
    ensures a[0] == b[0]
  {
    hide Covered, Separated;
    TailSeparated(a);
    TailSeparated(b);
    FirstCovered(a, b[0].start);
    FirstCovered(b, a[0].start);
    assert a[0].start == b[0].start;
    ProperFirst(a);
    ProperFirst(b);
    assert !Covered(b, a[0].end) && !Covered(a, b[0].end);
  }

  lemma ProperFirst(runs: seq<Span>)
    requires Separated(runs) && runs != []
    ensures runs[0].start < runs[0].end
  {
  }

  // Two merged lists that mask the same bytes are the same list.
  lemma {:induction false} MergedIsCanonical(a: seq<Span>, b: seq<Span>)
    requires Separated(a) && Separated(b) && SameCover(a, b)
    ensures a == b
    decreases |a|
  {
    hide Covered, Separated;
    if a == [] {
      if b != [] { TailSeparated(b); NothingCovered(b[0].start); assert false; }
    } else if b == [] {
      TailSeparated(a);
      NothingCovered(a[0].start);
      assert false;
    } else {
      SameFirst(a, b);
      TailSeparated(a);
      TailSeparated(b);
      MergedIsCanonical(a[1..], b[1..]);
      assert a == [a[0]] + a[1..] && b == [b[0]] + b[1..];
    }
  }

  // ---- Mask declarations ----

  datatype Side = CommandSide | ResponseSide

  // A declared random field; None where the capture has something else than it should.
  datatype Decl = Decl(side: Option<Side>, offset: Option<int>, length: Option<int>)

  datatype Pair = Pair(command: seq<byte>, response: seq<byte>)

  function Buffer(b: Pair, side: Side): seq<byte> {
    if side == CommandSide then b.command else b.response
  }

  // A declaration that lies wholly inside the bytes it masks.
  predicate Good(d: Decl, b: Pair) {
    && d.side.Some? && d.offset.Some? && d.length.Some?
    && d.offset.value >= 0 && d.length.value >= 1
    && d.offset.value + d.length.value <= |Buffer(b, d.side.value)|
  }

  function SpanOf(d: Decl, b: Pair): Span
    requires Good(d, b)
  {
    Span(d.offset.value, d.offset.value + d.length.value)
  }

  // The declared spans of one side.
  function Declared(decls: seq<Decl>, b: Pair, side: Side): seq<Span>
    requires forall k :: 0 <= k < |decls| ==> Good(decls[k], b)
  {
    if decls == [] then []
    else
      var n := |decls| - 1;
      assert Good(decls[n], b);
      Declared(decls[..n], b, side) + if decls[n].side.value == side then [SpanOf(decls[n], b)] else []
  }

  ghost predicate AllGood(decls: seq<Decl>, b: Pair) {
    forall k :: 0 <= k < |decls| ==> Good(decls[k], b)
  }

  // Some declaration of this side masks this byte.
  ghost predicate DeclaredAt(decls: seq<Decl>, b: Pair, side: Side, x: nat)
    requires AllGood(decls, b)
  {
    exists k :: 0 <= k < |decls| && Hides(decls[k], b, side, x)
  }

  predicate Hides(d: Decl, b: Pair, side: Side, x: nat)
    requires Good(d, b)
  {
    d.side.value == side && Within(SpanOf(d, b), x)
  }

  lemma DeclaredStep(decls: seq<Decl>, b: Pair, side: Side, x: nat)
    requires decls != [] && AllGood(decls, b)
    ensures var n := |decls| - 1;
            AllGood(decls[..n], b)
            && (DeclaredAt(decls, b, side, x) <==> DeclaredAt(decls[..n], b, side, x) || Hides(decls[n], b, side, x))
  {
    hide Good, SpanOf, Within, Hides;
    var n := |decls| - 1;
    forall k | 0 <= k < n ensures decls[..n][k] == decls[k] {}
    if DeclaredAt(decls[..n], b, side, x) {
      var k :| 0 <= k < n && Hides(decls[..n][k], b, side, x);
      assert Hides(decls[k], b, side, x);
    }
    if DeclaredAt(decls, b, side, x) {
      var k :| 0 <= k < |decls| && Hides(decls[k], b, side, x);
      assert k < n ==> Hides(decls[..n][k], b, side, x);
    }
  }

  // The spans of a side mask exactly what its declarations do, and none is empty.
  lemma {:induction false} DeclaredCovers(decls: seq<Decl>, b: Pair, side: Side, x: nat)
    requires AllGood(decls, b)
    ensures Covered(Declared(decls, b, side), x) <==> DeclaredAt(decls, b, side, x)
    decreases |decls|
  {
    hide Covered, DeclaredAt;
    if decls == [] {
      NothingCovered(x);
      NothingDeclared(decls, b, side, x);
    } else {
      var n := |decls| - 1;
      DeclaredStep(decls, b, side, x);
      DeclaredCovers(decls[..n], b, side, x);
      OneCovers(SpanOf(decls[n], b), x);
      NothingCovered(x);
      AppendCovers(Declared(decls[..n], b, side), if decls[n].side.value == side then [SpanOf(decls[n], b)] else [], x);
    }
  }

  lemma NothingDeclared(decls: seq<Decl>, b: Pair, side: Side, x: nat)
    requires decls == []
    ensures AllGood(decls, b) && !DeclaredAt(decls, b, side, x)
  {
  }

  lemma {:induction false} DeclaredProper(decls: seq<Decl>, b: Pair, side: Side)
    requires AllGood(decls, b)
    ensures AllProper(Declared(decls, b, side))
    decreases |decls|
  {
    if decls != [] { DeclaredProper(decls[..|decls| - 1], b, side); }
  }

  datatype Masks = Masks(command: seq<Span>, response: seq<Span>)

  function SpansOn(m: Masks, side: Side): seq<Span> {
    if side == CommandSide then m.command else m.response
  }

  // All or nothing: one bad declaration rejects the capture, and no mask is ever shortened.
  method MaskSpans(decls: seq<Decl>, b: Pair) returns (masks: Option<Masks>)
    ensures masks.Some? <==> AllGood(decls, b)
    ensures masks.Some? ==> forall side :: Separated(SpansOn(masks.value, side))
    ensures masks.Some? ==>
              forall side, x: nat :: Covered(SpansOn(masks.value, side), x) <==> DeclaredAt(decls, b, side, x)
  {
    hide Covered, Separated, DeclaredAt;
    var command, response: seq<Span> := [], [];
    for i := 0 to |decls|
      invariant forall k :: 0 <= k < i ==> Good(decls[k], b)
      invariant command == Declared(decls[..i], b, CommandSide) && response == Declared(decls[..i], b, ResponseSide)
    {
      if !Good(decls[i], b) { return None; }
      assert decls[..i + 1][..i] == decls[..i];
      if decls[i].side.value == CommandSide {
        command := command + [SpanOf(decls[i], b)];
      } else {
        response := response + [SpanOf(decls[i], b)];
      }
    }
    assert decls[..|decls|] == decls;
    DeclaredProper(decls, b, CommandSide);
    DeclaredProper(decls, b, ResponseSide);
    var commandRuns := Merge(command);
    var responseRuns := Merge(response);
    masks := Some(Masks(commandRuns, responseRuns));
    forall side, x: nat ensures Covered(SpansOn(masks.value, side), x) <==> DeclaredAt(decls, b, side, x) {
      DeclaredCovers(decls, b, side, x);
    }
  }

  // ---- Comparing ----

  datatype Entry = Entry(bytes: Pair, masks: Masks)

  // A byte index that either capture masks, unless the comparison is strict.
  ghost predicate Masked(a: Entry, b: Entry, strict: bool, side: Side, x: nat) {
    !strict && (Covered(SpansOn(a.masks, side), x) || Covered(SpansOn(b.masks, side), x))
  }

  predicate WellMasked(e: Entry) {
    AllProper(e.masks.command) && AllProper(e.masks.response)
  }

  method UnionMasked(a: Entry, b: Entry, strict: bool, side: Side) returns (spans: seq<Span>)
    requires WellMasked(a) && WellMasked(b)
    ensures Separated(spans) && forall x: nat :: Covered(spans, x) <==> Masked(a, b, strict, side, x)
  {
    hide Covered, Separated;
    if strict {
      spans := [];
      NoRuns();
      forall x: nat ensures !Covered(spans, x) { NothingCovered(x); }
      return;
    }
    spans := Merge(SpansOn(a.masks, side) + SpansOn(b.masks, side));
    forall x: nat ensures Covered(spans, x) <==> Masked(a, b, strict, side, x) {
      AppendCovers(SpansOn(a.masks, side), SpansOn(b.masks, side), x);
    }
  }

  lemma NoRuns()
    ensures Separated([])
  {
  }

  method IsCovered(spans: seq<Span>, x: nat) returns (yes: bool)
    ensures yes <==> Covered(spans, x)
  {
    for k := 0 to |spans|
      invariant forall j :: 0 <= j < k ==> !Within(spans[j], x)
    {
      if Within(spans[k], x) { return true; }
    }
    yes := false;
  }

  function Shorter(a: seq<byte>, b: seq<byte>): nat {
    if |a| <= |b| then |a| else |b|
  }

  // One side of an exchange agrees: same length, and same bytes wherever neither is masked.
  ghost predicate SideAgrees(a: Entry, b: Entry, strict: bool, side: Side) {
    var x, y := Buffer(a.bytes, side), Buffer(b.bytes, side);
    && |x| == |y|
    && forall i :: 0 <= i < |x| && !Masked(a, b, strict, side, i) ==> x[i] == y[i]
  }

  // Which indices differ and which are masked, in order.
  method DiffSide(x: seq<byte>, y: seq<byte>, spans: seq<Span>) returns (differing: seq<nat>, masked: nat)
    ensures forall i :: 0 <= i < Shorter(x, y) && x[i] != y[i] && !Covered(spans, i) ==> i in differing
    ensures forall d :: d in differing ==> d < Shorter(x, y) && x[d] != y[d] && !Covered(spans, d)
    ensures forall j, k :: 0 <= j < k < |differing| ==> differing[j] < differing[k]
    ensures |differing| + masked <= Shorter(x, y)
  {
    hide Covered;
    differing, masked := [], 0;
    for i := 0 to Shorter(x, y)
      invariant forall j :: 0 <= j < i && x[j] != y[j] && !Covered(spans, j) ==> j in differing
      invariant forall d :: d in differing ==> d < i && x[d] != y[d] && !Covered(spans, d)
      invariant forall j, k :: 0 <= j < k < |differing| ==> differing[j] < differing[k]
      invariant |differing| + masked <= i
    {
      var yes := IsCovered(spans, i);
      if yes {
        masked := masked + 1;
      } else if x[i] != y[i] {
        assert forall j :: 0 <= j < |differing| ==> differing[j] in differing;
        differing := differing + [i];
      }
    }
  }

  // Some byte that both have and neither masks is not the same.
  ghost predicate BytesDiffer(a: Entry, b: Entry, strict: bool, side: Side) {
    var x, y := Buffer(a.bytes, side), Buffer(b.bytes, side);
    exists i :: 0 <= i < Shorter(x, y) && x[i] != y[i] && !Masked(a, b, strict, side, i)
  }

  // What one side of an exchange adds to the count: a wrong length, and wrong bytes.
  method CountSide(a: Entry, b: Entry, strict: bool, side: Side) returns (diffs: nat)
    requires WellMasked(a) && WellMasked(b)
    ensures diffs == 0 <==> SideAgrees(a, b, strict, side)
    ensures diffs == (if |Buffer(a.bytes, side)| != |Buffer(b.bytes, side)| then 1 else 0)
                     + (if BytesDiffer(a, b, strict, side) then 1 else 0)
  {
    hide Covered, Separated, Masked, AllProper;
    var spans := UnionMasked(a, b, strict, side);
    var x, y := Buffer(a.bytes, side), Buffer(b.bytes, side);
    var differing, masked := DiffSide(x, y, spans);
    diffs := 0;
    if |x| != |y| { diffs := diffs + 1; }
    if |differing| > 0 {
      assert differing[0] in differing;
      diffs := diffs + 1;
    }
  }

  type Capture = map<string, Entry>

  predicate WellFormed(c: Capture) {
    forall name :: name in c ==> WellMasked(c[name])
  }

  ghost predicate NameAgrees(a: Capture, b: Capture, strict: bool, name: string) {
    && name in a && name in b
    && SideAgrees(a[name], b[name], strict, CommandSide)
    && SideAgrees(a[name], b[name], strict, ResponseSide)
  }

  // Two captures agree: the same exchanges, each agreeing on both sides.
  ghost predicate Agree(a: Capture, b: Capture, strict: bool) {
    forall name :: name in a.Keys + b.Keys ==> NameAgrees(a, b, strict, name)
  }

  method CountName(a: Capture, b: Capture, strict: bool, name: string) returns (diffs: nat)
    requires WellFormed(a) && WellFormed(b)
    ensures diffs == 0 <==> NameAgrees(a, b, strict, name)
  {
    hide SideAgrees, WellMasked;
    if name !in a || name !in b { return 1; }
    var command := CountSide(a[name], b[name], strict, CommandSide);
    var response := CountSide(a[name], b[name], strict, ResponseSide);
    diffs := command + response;
  }

  // The count is zero exactly when the captures agree.
  method DiffCaptures(a: Capture, b: Capture, strict: bool) returns (diffs: nat)
    requires WellFormed(a) && WellFormed(b)
    ensures diffs == 0 <==> Agree(a, b, strict)
  {
    hide NameAgrees, WellFormed;
    var todo := a.Keys + b.Keys;
    diffs := 0;
    while todo != {}
      invariant todo <= a.Keys + b.Keys
      invariant diffs == 0 <==> forall name :: name in (a.Keys + b.Keys) - todo ==> NameAgrees(a, b, strict, name)
      decreases |todo|
    {
      var name :| name in todo;
      var d := CountName(a, b, strict, name);
      diffs := diffs + d;
      todo := todo - {name};
    }
  }

  // ---- What agreement is worth ----

  // Strict agreement is equality of names and bytes, whatever is declared random.
  lemma StrictIsEquality(a: Capture, b: Capture)
    ensures Agree(a, b, true) <==>
              a.Keys == b.Keys && forall name :: name in a && name in b ==> a[name].bytes == b[name].bytes
  {
    forall name | name in a && name in b
      ensures NameAgrees(a, b, true, name) <==> a[name].bytes == b[name].bytes
    {
    }
    if Agree(a, b, true) {
      forall name ensures name in a <==> name in b {
        assert name in a.Keys + b.Keys ==> NameAgrees(a, b, true, name);
      }
    }
  }

  // Agreement does not depend on which capture comes first, and masks only ever excuse.
  lemma AgreementIsFair(a: Capture, b: Capture, strict: bool)
    ensures Agree(a, b, strict) <==> Agree(b, a, strict)
    ensures Agree(a, b, true) ==> Agree(a, b, strict)
    ensures Agree(a, a, strict)
  {
    forall name ensures NameAgrees(a, b, strict, name) <==> NameAgrees(b, a, strict, name) {}
    forall name ensures NameAgrees(a, b, true, name) ==> NameAgrees(a, b, strict, name) {}
  }
}
