/**
 Rounding to sectors and clicks, as the boot monitor does it in 32-bit unsigned
 arithmetic.
 */
module BootArith {
  type Byte = x: int | 0 <= x < 256

  const SECTOR := 512
  const TWO32 := 0x1_0000_0000

  // click_size for a click shift from 4 to 16.
  ghost predicate LegalClick(c: int) {
    16 <= c <= 65536 && PowerOfTwo(c)
  }

  ghost predicate PowerOfTwo(c: int)
    decreases c
  {
    c == 1 || (c > 1 && c % 2 == 0 && PowerOfTwo(c / 2))
  }

  // The least multiple of c that is at least n.
  function RoundUp(n: int, c: int): (r: int)
    requires c > 0
    ensures n <= r < n + c
    decreases if n > 0 then n else if n <= -c then -n else 0
  {
    if n > 0 then RoundUp(n - c, c) + c else if n <= -c then RoundUp(n + c, c) - c else 0
  }

  lemma {:induction false} RoundUpMultiple(n: int, c: int)
    requires c > 0
    ensures RoundUp(n, c) % c == 0
    decreases if n > 0 then n else if n <= -c then -n else 0
  {
    OneMultiple(c);
    if n > 0 {
      RoundUpMultiple(n - c, c);
      AddMultiple(RoundUp(n - c, c), c, c);
    } else if n <= -c {
      RoundUpMultiple(n + c, c);
      AddMultiple(RoundUp(n + c, c), -c, c);
    }
  }

  lemma OneMultiple(c: int)
    requires c > 0
    ensures c % c == 0 && (-c) % c == 0
  {
    DivMod(c, 1, 0, c);
    DivMod(-c, -1, 0, c);
  }

  lemma SmallMultiple(d: int, c: int)
    requires c > 0 && -c < d * c < c
    ensures d == 0
  {
  }

  lemma DivMod(x: int, q: int, r: int, c: int)
    requires c > 0 && x == q * c + r && 0 <= r < c
    ensures x / c == q && x % c == r
  {
    assert (q - x / c) * c == x % c - r;
    SmallMultiple(q - x / c, c);
  }

  // Two multiples of c less than c apart are the same.
  lemma MultiplesApart(x: int, y: int, c: int)
    requires c > 0 && x % c == 0 && y % c == 0 && -c < x - y < c
    ensures x == y
  {
    assert x == (x / c) * c && y == (y / c) * c;
    assert (x / c - y / c) * c == x - y;
    SmallMultiple(x / c - y / c, c);
  }

  lemma RoundUpUnique(n: int, c: int, r: int)
    requires c > 0 && r % c == 0 && n <= r < n + c
    ensures r == RoundUp(n, c)
  {
    RoundUpMultiple(n, c);
    MultiplesApart(r, RoundUp(n, c), c);
  }

  lemma AddMultiple(n: int, m: int, c: int)
    requires c > 0 && m % c == 0
    ensures (n + m) % c == n % c
  {
    DivMod(n + m, n / c + m / c, n % c, c);
  }

  lemma RoundUpShift(n: int, m: int, c: int)
    requires c > 0 && m % c == 0
    ensures RoundUp(n + m, c) == RoundUp(n, c) + m
  {
    RoundUpMultiple(n, c);
    AddMultiple(RoundUp(n, c), m, c);
    RoundUpUnique(n + m, c, RoundUp(n, c) + m);
  }

  // Rounding in two steps, the finer one first.
  lemma RoundUpTwice(n: int, u: int, c: int)
    requires u > 0 && c > 0 && c % u == 0
    ensures RoundUp(RoundUp(n, u), c) == RoundUp(n, c)
  {
    var r := RoundUp(n, c);
    RoundUpMultiple(n, c);
    MultipleOfMultiple(r, u, c);
    NotBelow(n, r, u);
    RoundUpUnique(RoundUp(n, u), c, r);
  }

  lemma NotBelow(n: int, r: int, u: int)
    requires u > 0 && r % u == 0 && n <= r
    ensures RoundUp(n, u) <= r
  {
    var m := RoundUp(n, u);
    RoundUpMultiple(n, u);
    if r < m {
      MultiplesApart(m, r, u);
    }
  }

  lemma MultipleOfMultiple(x: int, u: int, c: int)
    requires u > 0 && c > 0 && c % u == 0 && x % c == 0
    ensures x % u == 0
  {
    assert x == (x / c) * ((c / u) * u);
    assert x == ((x / c) * (c / u)) * u;
    DivMod(x, (x / c) * (c / u), 0, u);
  }

  // The align macro.
  function Align32(a: int, c: int): (r: int)
    requires c > 0
  {
    var x := (a + c - 1) % TWO32;
    x - x % c
  }

  lemma {:induction false} PowersDivide(c: int, n: int)
    requires PowerOfTwo(c) && PowerOfTwo(n) && c <= n
    ensures n % c == 0
    decreases n
  {
    if c > 1 {
      PowersDivide(c / 2, n / 2);
      var q := n / 2 / (c / 2);
      assert n == q * (c / 2) * 2;
      assert n == q * c;
      DivMod(n, q, 0, c);
    }
  }

  lemma ClickDivides(c: int)
    requires LegalClick(c)
    ensures TWO32 % c == 0 && (if c <= SECTOR then SECTOR % c == 0 else c % SECTOR == 0)
  {
    SomePowers();
    PowersDivide(c, TWO32);
    if c <= SECTOR {
      PowersDivide(c, SECTOR);
    } else {
      PowersDivide(SECTOR, c);
    }
  }

  lemma SomePowers()
    ensures PowerOfTwo(SECTOR) && PowerOfTwo(TWO32)
  {
    assert PowerOfTwo(2) && PowerOfTwo(16);
    PowerProduct(16, 16);
    PowerProduct(2, 256);
    PowerProduct(256, 256);
    PowerProduct(0x1_0000, 0x1_0000);
  }

  lemma {:induction false} PowerProduct(a: int, b: int)
    requires PowerOfTwo(a) && PowerOfTwo(b)
    ensures PowerOfTwo(a * b)
    decreases a
  {
    if a > 1 {
      PowerProduct(a / 2, b);
      assert a * b == 2 * (a / 2 * b);
    }
  }

  lemma RoundDown(a: int, c: int)
    requires c > 0
    ensures var x := a + c - 1; x - x % c == RoundUp(a, c)
  {
    var x := a + c - 1;
    DivMod(x - x % c, x / c, 0, c);
    RoundUpUnique(a, c, x - x % c);
  }

  lemma Wrapped(x: int)
    requires -TWO32 <= x < TWO32
    ensures x % TWO32 == if x >= 0 then x else x + TWO32
  {
  }

  // align computes RoundUp for everything above -c; what is lower comes out 2^32 too high.
  lemma AlignIsRoundUp(a: int, c: int)
    requires LegalClick(c) && -TWO32 < a <= TWO32 - c
    ensures Align32(a, c) == if a > -c then RoundUp(a, c) else RoundUp(a, c) + TWO32
  {
    ClickDivides(c);
    RoundDown(a, c);
    Wrapped(a + c - 1);
    AddMultiple(a + c - 1, TWO32, c);
  }

  lemma ModSame(y: int, c: int)
    requires LegalClick(c)
    ensures (y % TWO32) % c == y % c
  {
    ClickDivides(c);
    var m := y - y % TWO32;
    DivMod(m, y / TWO32, 0, TWO32);
    MultipleOfMultiple(m, c, TWO32);
    AddMultiple(y % TWO32, m, c);
  }

  lemma DownMod(y: int, d: int)
    requires 0 <= d <= y % TWO32
    ensures (y - d) % TWO32 == y % TWO32 - d
  {
    DivMod(y - d, y / TWO32, y % TWO32 - d, TWO32);
  }

  lemma ModBelow(x: nat, c: int)
    requires c > 0
    ensures 0 <= x % c <= x && (x - x % c) % c == 0
  {
    DivMod(x - x % c, x / c, 0, c);
    assert x == (x / c) * c + x % c;
    QuotientNotNegative(x, c);
  }

  lemma QuotientNotNegative(x: nat, c: int)
    requires c > 0
    ensures (x / c) * c >= 0
  {
  }

  // align is RoundUp modulo 2^32, for every argument.
  lemma AlignMod(a: int, c: int)
    requires LegalClick(c)
    ensures Align32(a, c) == RoundUp(a, c) % TWO32 && Align32(a, c) % c == 0 && 0 <= Align32(a, c) < TWO32
  {
    ModBelow((a + c - 1) % TWO32, c);
    AlignLow(a, c);
  }

  lemma AlignLow(a: int, c: int)
    requires LegalClick(c)
    ensures Align32(a, c) == RoundUp(a, c) % TWO32
  {
    var y := a + c - 1;
    ModSame(y, c);
    ModBelow(y % TWO32, c);
    DownMod(y, y % c);
    RoundDown(a, c);
  }

  // A long: signed 32-bit arithmetic wraps around.
  function Long32(x: int): (r: int)
    ensures -0x8000_0000 <= r < 0x8000_0000
    ensures -0x8000_0000 <= x < 0x8000_0000 ==> r == x
  {
    (x + 0x8000_0000) % TWO32 - 0x8000_0000
  }

  lemma LongMod(x: int) returns (q: int)
    ensures Long32(x) == x + q * TWO32
  {
    q := -((x + 0x8000_0000) / TWO32);
  }

  // Unsigned 32-bit addition.
  function Add32(a: int, b: int): (r: int)
    ensures 0 <= r < TWO32
    ensures 0 <= a + b < TWO32 ==> r == a + b
    ensures TWO32 <= a + b < 2 * TWO32 ==> r == a + b - TWO32
  {
    (a + b) % TWO32
  }

  // What get_segment copies at a time.
  function Unit(c: int): (u: int) {
    if c < SECTOR then c else SECTOR
  }

  lemma UnitDivides(c: int)
    requires LegalClick(c)
    ensures Unit(c) > 0 && c % Unit(c) == 0 && SECTOR % Unit(c) == 0
  {
    ClickDivides(c);
    DivMod(c, 1, 0, c);
  }
}
