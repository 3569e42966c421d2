/** PC_to_RDR_Secure: the PIN data structures, the entered digits and the reader-built APDUs. */
module SecurePin {
  import opened Bytes

  // What a parse comes to; Faulted is an index out of range.
  datatype Parsed<+T> = Accepted(params: T) | Rejected | Faulted

  // ---- PIN verify, section 6.1.11 of USB CCID Rev 1.1 ----

  // The head of the APDU template: CLA, INS, P1, P2.
  datatype Head = Head(cla: byte, ins: byte, p1: byte, p2: byte)

  datatype VerifyParams = VerifyParams(
    timeout: byte, minLen: byte, maxLen: byte, format: byte, validation: byte, head: Head, lc: byte,
    message: byte, blockString: byte, lengthFormat: byte, numberMessage: byte, langId: nat, prologue: byte)

  // Bytes 12 and 13, the rest of the prologue, are not looked at.
  function ParseVerify(data: seq<byte>): Parsed<VerifyParams> {
    if |data| < 18 then Rejected
    else
      Accepted(VerifyParams(
        data[0], data[5], data[4], data[1], data[6], Head(data[14], data[15], data[16], data[17]), data[4],
        data[10], data[2], data[3], data[7], FromLe32(data[8], data[9], 0, 0), data[11]))
  }

  // The structure as a host lays it out: little-endian fields, then prologue and APDU.
  function EncodeVerify(p: VerifyParams, prologue: seq<byte>, apdu: seq<byte>): seq<byte>
    requires p.langId < 0x1_0000
  {
    [p.timeout, p.format, p.blockString, p.lengthFormat, p.maxLen, p.minLen, p.validation, p.numberMessage]
    + [p.langId % 0x100, p.langId / 0x100, p.message] + prologue + apdu
  }

  lemma VerifyRoundTrip(p: VerifyParams, prologue: seq<byte>, apdu: seq<byte>)
    requires p.langId < 0x1_0000 && p.lc == p.maxLen && |prologue| == 3 && prologue[0] == p.prologue
    requires |apdu| >= 4 ==> apdu[..4] == [p.head.cla, p.head.ins, p.head.p1, p.head.p2]
    ensures ParseVerify(EncodeVerify(p, prologue, apdu)) == if |apdu| < 4 then Rejected else Accepted(p)
  {
    if |apdu| >= 4 { assert forall k :: 0 <= k < 4 ==> apdu[k] == apdu[..4][k]; }
  }

  // ---- PIN modify, section 6.1.12 ----

  datatype ModifyParams = ModifyParams(
    timeout: byte, minLen: byte, maxLen: byte, format: byte, validation: byte,
    oldOffset: byte, newOffset: byte, head: Head, lc: byte, msgOld: byte, msgNew: byte, msgConfirm: byte)

  function Flag(b: bool): nat {
    if b then 1 else 0
  }

  // Where the prologue starts: after the message indices that the count lets through.
  function PrologueAt(data: seq<byte>): nat
    requires |data| >= 14
  {
    14 + Flag(data[10] != 0) + Flag(data[10] >= 3)
  }

  // Old plus new in one byte: release builds wrap the product.
  function Doubled(n: byte): byte {
    n * 2 % 0x100
  }

  function ModifyAt(data: seq<byte>, t: nat): ModifyParams
    requires |data| >= t + 7 >= 21 && t == PrologueAt(data)
  {
    ModifyParams(
      data[0], data[7], data[6], data[1], data[9], data[4], data[5],
      Head(data[t + 3], data[t + 4], data[t + 5], data[t + 6]), Doubled(data[6]), data[13],
      if data[10] != 0 then data[14] else 1, if data[10] >= 3 then data[15] else 2)
  }

  function ParseModify(data: seq<byte>): Parsed<ModifyParams> {
    if |data| < 11 then Rejected
    else if |data| < 14 then Faulted
    else if |data| < PrologueAt(data) + 7 then Rejected
    else Accepted(ModifyAt(data, PrologueAt(data)))
  }

  method ParsePinModify(data: seq<byte>) returns (r: Parsed<ModifyParams>)
    ensures r == ParseModify(data)
  {
    if |data| < 11 { return Rejected; }
    if |data| < 14 { return Faulted; }
    var msgOld, number := data[13], data[10];
    var idx := 14;
    var msgNew: byte, msgConfirm: byte := 1, 2;
    if number != 0 {
      if idx >= |data| { return Rejected; }
      msgNew := data[idx];
      idx := idx + 1;
    }
    if number >= 3 {
      if idx >= |data| { return Rejected; }
      msgConfirm := data[idx];
      idx := idx + 1;
    }
    if idx >= |data| { return Rejected; }
    idx := idx + 3;
    if idx + 3 >= |data| { return Rejected; }
    r := Accepted(ModifyParams(
      data[0], data[7], data[6], data[1], data[9], data[4], data[5],
      Head(data[idx], data[idx + 1], data[idx + 2], data[idx + 3]), Doubled(data[6]), msgOld, msgNew, msgConfirm));
  }

  // What a host puts in the structure, whether or not it reaches the wire.
  datatype ModifyFields = ModifyFields(
    timeout: byte, format: byte, blockString: byte, lengthFormat: byte, oldOffset: byte, newOffset: byte,
    maxLen: byte, minLen: byte, confirm: byte, validation: byte, number: byte, langLow: byte, langHigh: byte,
    msg1: byte, msg2: byte, msg3: byte, prologue: seq<byte>, apdu: seq<byte>)

  function FixedPart(f: ModifyFields): seq<byte> {
    [f.timeout, f.format, f.blockString, f.lengthFormat, f.oldOffset, f.newOffset, f.maxLen]
    + [f.minLen, f.confirm, f.validation, f.number, f.langLow, f.langHigh, f.msg1]
  }

  // libccid leaves bMsgIndex2 out when the count is 0 and bMsgIndex3 when it is below 3.
  function Messages(f: ModifyFields): seq<byte> {
    (if f.number != 0 then [f.msg2] else []) + (if f.number >= 3 then [f.msg3] else [])
  }

  function EncodeModify(f: ModifyFields): seq<byte> {
    FixedPart(f) + Messages(f) + f.prologue + f.apdu
  }

  // The reading of a structure that does not depend on where its fields lie.
  function Meant(f: ModifyFields): Parsed<ModifyParams>
    requires |f.prologue| == 3
  {
    if |f.apdu| < 4 then Rejected
    else
      Accepted(ModifyParams(
        f.timeout, f.minLen, f.maxLen, f.format, f.validation, f.oldOffset, f.newOffset,
        Head(f.apdu[0], f.apdu[1], f.apdu[2], f.apdu[3]), Doubled(f.maxLen), f.msg1,
        if f.number != 0 then f.msg2 else 1, if f.number >= 3 then f.msg3 else 2))
  }

  lemma FixedAt(f: ModifyFields)
    ensures var d := FixedPart(f);
            && |d| == 14 && d[0] == f.timeout && d[1] == f.format && d[4] == f.oldOffset && d[5] == f.newOffset
            && d[6] == f.maxLen && d[7] == f.minLen && d[9] == f.validation && d[10] == f.number && d[13] == f.msg1
  {
  }

  lemma EncodedAt(fixed: seq<byte>, messages: seq<byte>, prologue: seq<byte>, apdu: seq<byte>)
    requires |prologue| == 3
    ensures var d := fixed + messages + prologue + apdu; var t := |fixed| + |messages|;
            && |d| == t + 3 + |apdu|
            && (forall k :: 0 <= k < |fixed| ==> d[k] == fixed[k])
            && (forall k :: 0 <= k < |messages| ==> d[|fixed| + k] == messages[k])
            && (forall k :: 0 <= k < |apdu| ==> d[t + 3 + k] == apdu[k])
  {
  }

  // Parsing undoes the encoding, for every field value and every number of messages.
  lemma ModifyRoundTrip(f: ModifyFields)
    requires |f.prologue| == 3
    ensures ParseModify(EncodeModify(f)) == Meant(f)
  {
    hide FixedPart;
    FixedAt(f);
    EncodedAt(FixedPart(f), Messages(f), f.prologue, f.apdu);
    var d := EncodeModify(f);
    assert PrologueAt(d) == 14 + |Messages(f)|;
    assert f.number != 0 ==> d[14] == Messages(f)[0];
    assert f.number >= 3 ==> d[15] == Messages(f)[1];
    if |f.apdu| >= 4 {
      var t := PrologueAt(d) + 3;
      assert d[t + 0] == f.apdu[0] && d[t + 1] == f.apdu[1] && d[t + 2] == f.apdu[2] && d[t + 3] == f.apdu[3];
    }
  }

  // The parser indexes a byte it has not checked for exactly on 11 to 13 bytes; and the Lc it
  // stores is old plus new exactly up to a maximum of 127.
  lemma ModifyFaults(data: seq<byte>)
    ensures ParseModify(data).Faulted? <==> 11 <= |data| <= 13
    ensures ParseModify(data).Rejected? <==> |data| < 11 || (|data| >= 14 && |data| < PrologueAt(data) + 7)
    ensures ParseModify(data).Accepted? ==>
              (ParseModify(data).params.lc == 2 * data[6] as int <==> data[6] <= 127)
  {
  }

  function FieldsOf(data: seq<byte>): ModifyFields
    requires |data| >= 14 && |data| >= PrologueAt(data) + 3
  {
    var t := PrologueAt(data);
    ModifyFields(
      data[0], data[1], data[2], data[3], data[4], data[5], data[6], data[7], data[8], data[9], data[10],
      data[11], data[12], data[13], if data[10] != 0 then data[14] else 1, if data[10] >= 3 then data[15] else 2,
      data[t..t + 3], data[t + 3..])
  }

  lemma Split(s: seq<byte>, a: nat, b: nat)
    requires a <= b <= |s|
    ensures s[..a] + s[a..b] == s[..b] && s[..|s|] == s && s[a..|s|] == s[a..]
  {
  }

  // Nothing but encodings is accepted, and each is read as what it encodes.
  lemma ModifySound(data: seq<byte>)
    requires ParseModify(data).Accepted?
    ensures EncodeModify(FieldsOf(data)) == data && ParseModify(data) == Meant(FieldsOf(data))
  {
    hide ParseModify, ModifyAt, Meant;
    assert |data| >= 14 && |data| >= PrologueAt(data) + 7 by { ParsedLength(data); }
    var f, t := FieldsOf(data), PrologueAt(data);
    assert FixedPart(f) == data[..14];
    assert Messages(f) == data[14..t];
    Split(data, 14, t);
    Split(data, t, t + 3);
    Split(data, t + 3, |data|);
    ModifyRoundTrip(f);
  }

  lemma ParsedLength(data: seq<byte>)
    requires ParseModify(data).Accepted?
    ensures |data| >= 14 && |data| >= PrologueAt(data) + 7
  {
  }

  // ---- The digits on the pad ----

  datatype Key = Digit(d: byte) | Backspace | Wipe

  function Cap(maxLen: nat): nat {
    if maxLen <= 16 then maxLen else 16
  }

  // The stack after one key; a full stack and a non-digit refuse the push.
  function Press(cap: nat, stack: seq<byte>, key: Key): seq<byte> {
    match key
    case Digit(d) => if |stack| >= cap || d > 9 then stack else stack + [d]
    case Backspace => if stack == [] then [] else stack[..|stack| - 1]
    case Wipe => []
  }

  function Entered(cap: nat, stack: seq<byte>, keys: List<Key>): seq<byte>
    decreases keys
  {
    match keys
    case Nil => stack
    case Cons(key, rest) => Entered(cap, Press(cap, stack, key), rest)
  }

  predicate Digits(s: seq<byte>) {
    forall i :: 0 <= i < |s| ==> s[i] <= 9
  }

  lemma {:induction false} EnteredIsDigits(cap: nat, stack: seq<byte>, keys: List<Key>)
    requires Digits(stack) && |stack| <= cap
    ensures Digits(Entered(cap, stack, keys)) && |Entered(cap, stack, keys)| <= cap
    decreases keys
  {
    match keys
    case Nil =>
    case Cons(key, rest) => EnteredIsDigits(cap, Press(cap, stack, key), rest);
  }

  function Typed(digits: seq<byte>): List<Key> {
    if digits == [] then Nil else Cons(Digit(digits[0]), Typed(digits[1..]))
  }

  // Typing is what arrives; a corrected slip and everything before a wipe leave no trace.
  lemma {:induction false} TypedArrives(cap: nat, stack: seq<byte>, digits: seq<byte>)
    requires Digits(digits) && |stack| + |digits| <= cap
    ensures Entered(cap, stack, Typed(digits)) == stack + digits
    decreases |digits|
  {
    if digits == [] {
      assert stack + digits == stack;
    } else {
      assert stack + [digits[0]] + digits[1..] == stack + digits;
      TypedArrives(cap, stack + [digits[0]], digits[1..]);
    }
  }

  lemma SlipsLeaveNoTrace(cap: nat, stack: seq<byte>, before: List<Key>, d: byte, keys: List<Key>)
    requires d <= 9 && |stack| < cap
    ensures Entered(cap, stack, Cons(Digit(d), Cons(Backspace, keys))) == Entered(cap, stack, keys)
    ensures Entered(cap, stack, Append(before, Cons(Wipe, keys))) == Entered(cap, [], keys)
  {
    assert (stack + [d])[..|stack|] == stack;
    WipeForgets(cap, stack, before, keys);
  }

  lemma {:induction false} WipeForgets(cap: nat, stack: seq<byte>, before: List<Key>, keys: List<Key>)
    ensures Entered(cap, stack, Append(before, Cons(Wipe, keys))) == Entered(cap, [], keys)
    decreases before
  {
    match before
    case Nil =>
    case Cons(key, rest) => WipeForgets(cap, Press(cap, stack, key), rest, keys);
  }

  class PinBuffer {
    const digits: array<byte>
    var len: nat
    const maxLen: nat

    ghost predicate Valid()
      reads this, digits
    {
      digits.Length == 16 && len <= maxLen <= 16 && Digits(digits[..len])
    }

    ghost function Stack(): seq<byte>
      requires Valid()
      reads this, digits
    {
      digits[..len]
    }

    constructor (max: nat)
      ensures Valid() && fresh(digits) && Stack() == [] && maxLen == (if max < 16 then max else 16)
    {
      digits := new byte[16](_ => 0);
      len := 0;
      maxLen := Cap(max);
    }

    method Push(digit: byte) returns (ok: bool)
      requires Valid()
      modifies this`len, digits
      ensures Valid() && ok == (|old(Stack())| < maxLen && digit <= 9)
      ensures Stack() == Press(maxLen, old(Stack()), Digit(digit))
    {
      if len >= maxLen { return false; }
      if digit > 9 { return false; }
      digits[len] := digit;
      len := len + 1;
      assert digits[..len] == old(digits[..len]) + [digit];
      ok := true;
    }

    method Pop() returns (ok: bool)
      requires Valid()
      modifies this`len
      ensures Valid() && ok == (old(Stack()) != []) && Stack() == Press(maxLen, old(Stack()), Backspace)
    {
      if len == 0 { return false; }
      len := len - 1;
      assert digits[..len] == old(digits[..len])[..len];
      ok := true;
    }

    // Every cell is overwritten, not only the length.
    method Clear()
      requires Valid()
      modifies this`len, digits
      ensures Valid() && Stack() == Press(maxLen, old(Stack()), Wipe)
      ensures forall i :: 0 <= i < digits.Length ==> digits[i] == 0
    {
      for i := 0 to digits.Length
        invariant forall k :: 0 <= k < i ==> digits[k] == 0
      {
        digits[i] := 0;
      }
      len := 0;
    }

    method ToAscii() returns (ascii: array<byte>)
      requires Valid()
      ensures fresh(ascii) && ascii.Length == 16 && ascii[..len] == Ascii(Stack())
      ensures forall i :: len <= i < 16 ==> ascii[i] == 0
    {
      ascii := new byte[16](_ => 0);
      for i := 0 to len
        invariant forall k :: 0 <= k < i ==> ascii[k] == digits[k] + 0x30
        invariant forall k :: i <= k < 16 ==> ascii[k] == 0
      {
        assert digits[i] == digits[..len][i];
        ascii[i] := digits[i] + 0x30;
      }
    }
  }

  function Ascii(s: seq<byte>): (r: seq<byte>)
    requires Digits(s)
  {
    seq(|s|, i requires 0 <= i < |s| => s[i] + 0x30)
  }

  // ---- The APDUs the reader builds ----

  datatype ApduError = PinTooShort | InvalidPinLength | InvalidPinCharacter

  // Overrun: the digits do not fit the fixed buffer, and the copy faults.
  datatype Built = Apdu(bytes: seq<byte>) | Refused(error: ApduError) | Overrun

  const ADMIN_PIN: byte := 0x83
  const USER_PIN: byte := 0x81
  const INS_VERIFY: byte := 0x20
  const INS_CHANGE: byte := 0x24

  // Only two reference numbers have a length rule of their own.
  predicate LengthRule(p2: byte, n: nat) {
    n > 0 && (p2 == ADMIN_PIN ==> n == 8) && (p2 == USER_PIN ==> 6 <= n <= 8)
  }

  predicate AsciiDigits(s: seq<byte>) {
    forall i :: 0 <= i < |s| ==> 0x30 <= s[i] <= 0x39
  }

  // The command: header, Lc, data.
  function Command(cla: byte, ins: byte, p1: byte, p2: byte, data: seq<byte>): seq<byte>
    requires |data| < 256
  {
    [cla, ins, p1, p2, |data|] + data
  }

  function Zeros(n: nat): seq<byte> {
    seq(n, _ => 0)
  }

  function BuildVerify(cla: byte, p1: byte, p2: byte, pin: seq<byte>): Built {
    if pin == [] then Refused(PinTooShort)
    else if !LengthRule(p2, |pin|) then Refused(InvalidPinLength)
    else if !AsciiDigits(pin) then Refused(InvalidPinCharacter)
    else if |pin| > 8 then Overrun
    else Apdu(Command(cla, INS_VERIFY, p1, p2, pin) + Zeros(8 - |pin|))
  }

  function BuildModify(cla: byte, p1: byte, p2: byte, oldPin: seq<byte>, newPin: seq<byte>): Built {
    if oldPin == [] || newPin == [] then Refused(PinTooShort)
    else if !LengthRule(p2, |oldPin|) || !LengthRule(p2, |newPin|) then Refused(InvalidPinLength)
    else if !AsciiDigits(oldPin + newPin) then Refused(InvalidPinCharacter)
    else if |oldPin + newPin| > 16 then Overrun
    else Apdu(Command(cla, INS_CHANGE, p1, p2, oldPin + newPin) + Zeros(16 - |oldPin + newPin|))
  }

  method AllDigits(s: seq<byte>) returns (ok: bool)
    ensures ok == AsciiDigits(s)
  {
    for i := 0 to |s|
      invariant AsciiDigits(s[..i])
    {
      if s[i] < 0x30 || s[i] > 0x39 { return false; }
      assert s[..i + 1] == s[..i] + [s[i]];
    }
    assert s[..|s|] == s;
    ok := true;
  }

  // Header, Lc and data laid into a zeroed buffer.
  method Lay(size: nat, cla: byte, ins: byte, p1: byte, p2: byte, data: seq<byte>) returns (apdu: array<byte>)
    requires 5 + |data| <= size < 256
    ensures fresh(apdu) && apdu[..] == Command(cla, ins, p1, p2, data) + Zeros(size - 5 - |data|)
  {
    apdu := new byte[size](_ => 0);
    apdu[0], apdu[1], apdu[2], apdu[3], apdu[4] := cla, ins, p1, p2, |data|;
    forall i | 0 <= i < |data| { apdu[5 + i] := data[i]; }
    assert apdu[..5] == [cla, ins, p1, p2, |data|];
    assert apdu[5..5 + |data|] == data;
    assert apdu[5 + |data|..] == Zeros(size - 5 - |data|);
    assert apdu[..] == apdu[..5] + apdu[5..5 + |data|] + apdu[5 + |data|..];
  }

  method BuildVerifyApdu(cla: byte, p1: byte, p2: byte, pin: seq<byte>) returns (r: Built)
    ensures r == BuildVerify(cla, p1, p2, pin)
  {
    hide AsciiDigits, Command, Zeros;
    if |pin| == 0 { return Refused(PinTooShort); }
    if p2 == ADMIN_PIN && |pin| != 8 { return Refused(InvalidPinLength); }
    if p2 == USER_PIN && (|pin| < 6 || |pin| > 8) { return Refused(InvalidPinLength); }
    var digits := AllDigits(pin);
    if !digits { return Refused(InvalidPinCharacter); }
    if |pin| > 8 { return Overrun; }
    var apdu := Lay(13, cla, INS_VERIFY, p1, p2, pin);
    r := Apdu(apdu[..]);
  }

  method BuildModifyApdu(cla: byte, p1: byte, p2: byte, oldPin: seq<byte>, newPin: seq<byte>) returns (r: Built)
    ensures r == BuildModify(cla, p1, p2, oldPin, newPin)
  {
    hide AsciiDigits, Command, Zeros;
    if |oldPin| == 0 || |newPin| == 0 { return Refused(PinTooShort); }
    if p2 == ADMIN_PIN && (|oldPin| != 8 || |newPin| != 8) { return Refused(InvalidPinLength); }
    if p2 == USER_PIN && (|oldPin| < 6 || |oldPin| > 8 || |newPin| < 6 || |newPin| > 8) {
      return Refused(InvalidPinLength);
    }
    var digits := AllDigits(oldPin + newPin);
    if !digits { return Refused(InvalidPinCharacter); }
    if |oldPin + newPin| > 16 { return Overrun; }
    var apdu := Lay(21, cla, INS_CHANGE, p1, p2, oldPin + newPin);
    r := Apdu(apdu[..]);
  }

  // For any bytes at all: what breaks the character rule alone is refused for it, and a
  // built command holds the characters 0 to 9 only and leaves the rest of its buffer zero.
  lemma OnlyDigitsAreBuilt(cla: byte, p1: byte, p2: byte, pin: seq<byte>)
    requires LengthRule(p2, |pin|)
    ensures var r := BuildVerify(cla, p1, p2, pin);
            && (r == Refused(InvalidPinCharacter) <==> exists i :: 0 <= i < |pin| && !(48 <= pin[i] <= 57))
            && (r.Apdu? ==> |pin| <= 8 && r.bytes[5..5 + |pin|] == pin
                            && forall i :: 5 + |pin| <= i < 13 ==> r.bytes[i] == 0)
  {
    var r := BuildVerify(cla, p1, p2, pin);
    if r.Apdu? { assert r.bytes[5..5 + |pin|] == pin; }
  }

  lemma OnlyDigitsAreChanged(cla: byte, p1: byte, p2: byte, oldPin: seq<byte>, newPin: seq<byte>)
    requires LengthRule(p2, |oldPin|) && LengthRule(p2, |newPin|)
    ensures var r, data := BuildModify(cla, p1, p2, oldPin, newPin), oldPin + newPin;
            && (r == Refused(InvalidPinCharacter) <==> exists i :: 0 <= i < |data| && !(48 <= data[i] <= 57))
            && (r.Apdu? ==> |data| <= 16 && r.bytes[5..5 + |data|] == data
                            && forall i :: 5 + |data| <= i < 21 ==> r.bytes[i] == 0)
  {
    var r, data := BuildModify(cla, p1, p2, oldPin, newPin), oldPin + newPin;
    if r.Apdu? { assert r.bytes[5..5 + |data|] == data; }
  }

  lemma AsciiOfDigits(s: seq<byte>)
    requires Digits(s)
    ensures AsciiDigits(Ascii(s)) && |Ascii(s)| == |s|
  {
  }

  // Too many digits for the fixed buffer, under a reference number without a length rule.
  predicate VerifyOverruns(p2: byte, pin: seq<byte>) {
    p2 != USER_PIN && p2 != ADMIN_PIN && |pin| > 8
  }

  predicate ModifyOverruns(p2: byte, oldPin: seq<byte>, newPin: seq<byte>) {
    p2 != USER_PIN && p2 != ADMIN_PIN && oldPin != [] && newPin != [] && |oldPin| + |newPin| > 16
  }

  // Nine digits under 0x82, which a buffer of sixteen holds, do not fit the APDU.
  lemma NineDigitsOverrun(pin: seq<byte>)
    requires Digits(pin) && |pin| == 9
    ensures BuildVerify(0x00, 0x00, 0x82, Ascii(pin)) == Overrun
    ensures BuildModify(0x00, 0x00, 0x82, Ascii(pin), Ascii(pin)) == Overrun
  {
    AsciiOfDigits(pin);
  }

  // A buffer of digits is refused for its length alone, and what is sent of the
  // built buffer is exactly the command.
  lemma BuildVerifyExact(cla: byte, p1: byte, p2: byte, pin: seq<byte>)
    requires Digits(pin)
    ensures var r := BuildVerify(cla, p1, p2, Ascii(pin));
            && (r.Refused? <==> !LengthRule(p2, |pin|))
            && (r.Overrun? <==> VerifyOverruns(p2, pin))
            && (r.Apdu? ==>
                  5 + |pin| <= |r.bytes| == 13 && r.bytes[..5 + |pin|] == Command(cla, INS_VERIFY, p1, p2, Ascii(pin)))
  {
    AsciiOfDigits(pin);
    var r := BuildVerify(cla, p1, p2, Ascii(pin));
    if r.Apdu? {
      assert r.bytes[..5 + |pin|] == Command(cla, INS_VERIFY, p1, p2, Ascii(pin));
    }
  }

  lemma BuildModifyExact(cla: byte, p1: byte, p2: byte, oldPin: seq<byte>, newPin: seq<byte>)
    requires Digits(oldPin) && Digits(newPin)
    ensures var r, data := BuildModify(cla, p1, p2, Ascii(oldPin), Ascii(newPin)), Ascii(oldPin) + Ascii(newPin);
            && (r.Refused? <==> !(LengthRule(p2, |oldPin|) && LengthRule(p2, |newPin|)))
            && (r.Overrun? <==> ModifyOverruns(p2, oldPin, newPin))
            && (r.Apdu? ==> |data| < 256 && 5 + |data| <= |r.bytes| == 21
                            && r.bytes[..5 + |data|] == Command(cla, INS_CHANGE, p1, p2, data))
  {
    AsciiOfDigits(oldPin);
    AsciiOfDigits(newPin);
    var r, data := BuildModify(cla, p1, p2, Ascii(oldPin), Ascii(newPin)), Ascii(oldPin) + Ascii(newPin);
    if r.Apdu? {
      assert r.bytes[..5 + |data|] == Command(cla, INS_CHANGE, p1, p2, data);
    }
  }

  // The user PIN has six to eight digits, the administrator's exactly eight, any other at
  // least one.
  lemma LengthRuleTold(p2: byte, n: nat)
    ensures LengthRule(p2, n) <==> if p2 == 0x81 then n in [6, 7, 8] else if p2 == 0x83 then n == 8 else n >= 1
  {
  }

  // What the card is sent: class, VERIFY or CHANGE REFERENCE DATA, the template's P1 and P2,
  // the number of digits, and each digit in ASCII, the old ones before the new ones.
  lemma CommandBytes(cla: byte, p1: byte, p2: byte, pin: seq<byte>, newPin: seq<byte>)
    requires Digits(pin) && Digits(newPin) && |pin| + |newPin| < 256
    ensures var c := Command(cla, INS_VERIFY, p1, p2, Ascii(pin));
            && |c| == 5 + |pin| && c[..5] == [cla, 0x20, p1, p2, |pin|]
            && forall i :: 0 <= i < |pin| ==> c[5 + i] == 0x30 + pin[i]
    ensures var c := Command(cla, INS_CHANGE, p1, p2, Ascii(pin) + Ascii(newPin));
            && |c| == 5 + |pin| + |newPin| && c[..5] == [cla, 0x24, p1, p2, |pin| + |newPin|]
            && (forall i :: 0 <= i < |pin| ==> c[5 + i] == 0x30 + pin[i])
            && (forall i :: 0 <= i < |newPin| ==> c[5 + |pin| + i] == 0x30 + newPin[i])
  {
  }
}
