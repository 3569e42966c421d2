/** T=1 waiting times: block and character windows in whole milliseconds. */
module WaitingTime {
  import opened Bytes

  const FIRST_BYTE_FLOOR_MS: nat := 500
  const FIRST_BYTE_MAX_MS: nat := 5000
  const INTER_BYTE_FLOOR_MS: nat := 50

  function DivCeil(a: nat, b: nat): nat
    requires b > 0
  {
    (a + b - 1) / b
  }

  function Pow2(n: nat): nat {
    if n == 0 then 1 else 2 * Pow2(n - 1)
  }

  function Min(a: nat, b: nat): nat {
    if a <= b then a else b
  }

  function Clamp(x: nat, low: nat, high: nat): nat {
    if x < low then low else if x > high then high else x
  }

  function BwtEtu(bwi: nat): nat {
    11 + Pow2(bwi % 16) * 960
  }

  function CwtEtu(cwi: nat): nat {
    Pow2(cwi % 16) + 11
  }

  function BwtMs(bwi: nat, baud: nat): nat {
    if baud == 0 then 5000 else Min(DivCeil(BwtEtu(bwi) * 1000, baud), U32_MAX)
  }

  function CwtMs(cwi: nat, baud: nat): nat {
    if baud == 0 then INTER_BYTE_FLOOR_MS else Min(DivCeil(CwtEtu(cwi) * 1000, baud), U32_MAX)
  }

  function FirstByteTimeoutMs(bwi: nat, baud: nat): nat {
    Clamp(BwtMs(bwi, baud), FIRST_BYTE_FLOOR_MS, FIRST_BYTE_MAX_MS)
  }

  function InterByteTimeoutMs(cwi: nat, baud: nat): nat {
    Clamp(CwtMs(cwi, baud), INTER_BYTE_FLOOR_MS, FIRST_BYTE_MAX_MS)
  }

  // m milliseconds cover e etu at this baud rate: m/1000 >= e/baud, without division.
  predicate Covers(m: nat, etu: nat, baud: nat) {
    etu * 1000 <= m * baud
  }

  // Ceiling division is the least cover: it covers, and so does exactly what is no smaller.
  lemma DivCeilLeast(a: nat, b: nat, m: nat)
    requires b > 0
    ensures DivCeil(a, b) <= m <==> a <= m * b
  {
    var q := DivCeil(a, b);
    assert (q - 1) * b < a <= q * b by {
      assert a + b - 1 == b * q + (a + b - 1) % b;
    }
    if q <= m {
      MulMonotone(q, m, b);
    } else {
      MulMonotone(m, q - 1, b);
    }
  }

  // 11 etu and 960 more at nibble 0, the latter doubling with each step; 11 and 1 for characters.
  lemma EtuDoubles(n: nat)
    ensures n % 16 == 0 ==> BwtEtu(n) == 971 && CwtEtu(n) == 12
    ensures n % 16 < 15 ==> BwtEtu(n + 1) - 11 == 2 * (BwtEtu(n) - 11) && CwtEtu(n + 1) - 11 == 2 * (CwtEtu(n) - 11)
  {
    if n % 16 < 15 { assert (n + 1) % 16 == n % 16 + 1; }
  }

  // At an unknown rate the windows are the fixed ones.
  lemma UnknownRate(n: nat)
    ensures BwtMs(n, 0) == 5000 && CwtMs(n, 0) == 50
    ensures FirstByteTimeoutMs(n, 0) == 5000 && InterByteTimeoutMs(n, 0) == 50
  {
    hide BwtEtu, CwtEtu, DivCeil;
  }

  lemma MulMonotone(x: int, y: int, b: nat)
    requires x <= y
    ensures x * b <= y * b
  {
  }

  // The advertised window is the least whole number of milliseconds that covers the
  // etu count, unless it saturates at the largest 32-bit value.
  lemma WindowLeast(etu: nat, baud: nat, m: nat)
    requires baud > 0
    ensures var ms := Min(DivCeil(etu * 1000, baud), U32_MAX);
            && (m < U32_MAX ==> (ms <= m <==> Covers(m, etu, baud)))
            && (ms == U32_MAX <==> !Covers(U32_MAX - 1, etu, baud))
  {
    hide DivCeil;
    DivCeilLeast(etu * 1000, baud, m);
    DivCeilLeast(etu * 1000, baud, U32_MAX - 1);
  }

  lemma BwtLeast(bwi: nat, baud: nat, m: nat)
    requires baud > 0
    ensures m < U32_MAX ==> (BwtMs(bwi, baud) <= m <==> Covers(m, BwtEtu(bwi), baud))
    ensures BwtMs(bwi, baud) == U32_MAX <==> !Covers(U32_MAX - 1, BwtEtu(bwi), baud)
  {
    hide DivCeil, BwtEtu, Covers;
    WindowLeast(BwtEtu(bwi), baud, m);
  }

  lemma CwtLeast(cwi: nat, baud: nat, m: nat)
    requires baud > 0
    ensures m < U32_MAX ==> (CwtMs(cwi, baud) <= m <==> Covers(m, CwtEtu(cwi), baud))
    ensures CwtMs(cwi, baud) == U32_MAX <==> !Covers(U32_MAX - 1, CwtEtu(cwi), baud)
  {
    hide DivCeil, CwtEtu, Covers;
    WindowLeast(CwtEtu(cwi), baud, m);
  }

  lemma {:induction false} Pow2Grows(m: nat, n: nat)
    requires m <= n
    ensures 1 <= Pow2(m) <= Pow2(n)
    decreases n
  {
    if m < n {
      Pow2Grows(m, n - 1);
    } else if n > 0 {
      Pow2Grows(n - 1, n - 1);
    }
  }

  lemma WindowMonotone(etu: nat, more: nat, baud: nat, faster: nat)
    requires 0 < baud <= faster && etu <= more
    ensures Min(DivCeil(etu * 1000, faster), U32_MAX) <= Min(DivCeil(more * 1000, baud), U32_MAX)
  {
    hide DivCeil;
    var m := DivCeil(more * 1000, baud);
    DivCeilLeast(more * 1000, baud, m);
    MulMonotone(baud, faster, m);
    DivCeilLeast(etu * 1000, faster, m);
  }

  // Monotone in the nibble, antitone in the baud rate; so once a nibble saturates at some
  // rate, every higher nibble saturates there and at every slower rate.
  lemma BwtMonotone(bwi: nat, higher: nat, baud: nat, faster: nat)
    requires bwi <= higher < 16 && 0 < baud <= faster
    ensures BwtMs(bwi, faster) <= BwtMs(higher, baud)
    ensures BwtMs(bwi, faster) == U32_MAX ==> BwtMs(higher, baud) == U32_MAX
  {
    hide DivCeil, Pow2;
    Pow2Grows(bwi, higher);
    WindowMonotone(BwtEtu(bwi), BwtEtu(higher), baud, faster);
  }

  lemma CwtMonotone(cwi: nat, higher: nat, baud: nat, faster: nat)
    requires cwi <= higher < 16 && 0 < baud <= faster
    ensures CwtMs(cwi, faster) <= CwtMs(higher, baud)
    ensures CwtMs(cwi, faster) == U32_MAX ==> CwtMs(higher, baud) == U32_MAX
  {
    hide DivCeil, Pow2;
    Pow2Grows(cwi, higher);
    WindowMonotone(CwtEtu(cwi), CwtEtu(higher), baud, faster);
  }

  // The reader is as patient as the window it advertises, exactly when that window is at
  // most the ceiling, at every rate including the unknown one; and never less than the
  // smaller of the two.
  lemma ReaderPatience(nibble: nat, baud: nat)
    ensures FirstByteTimeoutMs(nibble, baud) >= BwtMs(nibble, baud) <==> BwtMs(nibble, baud) <= 5000
    ensures InterByteTimeoutMs(nibble, baud) >= CwtMs(nibble, baud) <==> CwtMs(nibble, baud) <= 5000
    ensures FirstByteTimeoutMs(nibble, baud) >= Min(BwtMs(nibble, baud), 5000)
    ensures InterByteTimeoutMs(nibble, baud) >= Min(CwtMs(nibble, baud), 5000)
    ensures 500 <= FirstByteTimeoutMs(nibble, baud) <= 5000
    ensures 50 <= InterByteTimeoutMs(nibble, baud) <= 5000
    ensures FirstByteTimeoutMs(nibble, baud) > BwtMs(nibble, baud) <==> BwtMs(nibble, baud) < 500
    ensures InterByteTimeoutMs(nibble, baud) > CwtMs(nibble, baud) <==> CwtMs(nibble, baud) < 50
    ensures FirstByteTimeoutMs(nibble, baud) in {500, BwtMs(nibble, baud), 5000}
    ensures InterByteTimeoutMs(nibble, baud) in {50, CwtMs(nibble, baud), 5000}
  {
    hide DivCeil, Pow2;
  }

  // The patience falls short only where the etu count itself exceeds five seconds: at the
  // 10752 and 9600 default rates, from BWI 6 on.
  lemma PatienceCrossover(bwi: nat, baud: nat)
    requires bwi < 16 && (baud == 10752 || baud == 9600)
    ensures FirstByteTimeoutMs(bwi, baud) < BwtMs(bwi, baud) <==> bwi >= 6
  {
    hide DivCeil;
    assert BwtEtu(5) == 30731 && BwtEtu(6) == 61451 by { assert Pow2(5) == 32 && Pow2(6) == 64; }
    BwtLeast(5, baud, 5000);
    BwtLeast(6, baud, 5000);
    if bwi >= 6 {
      BwtMonotone(6, bwi, baud, baud);
    } else {
      BwtMonotone(bwi, 5, baud, baud);
    }
    ReaderPatience(bwi, baud);
  }
}
