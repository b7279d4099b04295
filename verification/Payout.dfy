/** What is paid out for an amount: how many coins of which worth, with the counters there are. */
module Payout {
  import opened Basics
  import opened Coins

  const UINT8 := 0x100
  const UINT16 := 0x1_0000
  const UINT32 := 0x1_0000_0000

  /** The pieces in a new stack: none asked for means one, and the counter has 8 bits. */
  function Pieces(count: nat): nat {
    (if count == 0 then 1 else count) % UINT8
  }

  /** The crystal coins paid out for an amount, and what their product leaves of it, both with 32 bits. */
  function Crystals(money: nat): nat {
    money / 10000 % UINT32
  }

  function AfterCrystals(money: nat): nat {
    money - Crystals(money) * 10000 % UINT32
  }

  /** The worth of the platinum and gold coins paid out for the rest. */
  function Small(rest: nat): nat {
    var platinum := rest / 100 % UINT16;
    var gold := rest - platinum * 100;
    (if platinum == 0 then 0 else 100 * Pieces(platinum)) + if gold == 0 then 0 else Pieces(gold % UINT16)
  }

  /** The worth of all coins paid out for an amount. */
  function Paid(money: nat): nat {
    10000 * Crystals(money) + Small(AfterCrystals(money))
  }

  /** How often the product for the crystal coins runs over its 32 bits. */
  function Overruns(money: nat): nat {
    money / 10000 * 10000 / UINT32
  }

  /** An amount is paid out exactly, unless it is so large that a counter runs over;
      every 25th overrun happens to leave the right platinum coins, and the right gold coins but for none. */
  lemma PaidIsExact(money: nat)
    ensures Paid(money) == money <==>
      money / 10000 < UINT32 && Overruns(money) % 25 == 0 && (Overruns(money) == 0 || money % 100 != 0)
  {
    var r, j := money % 10000, Overruns(money);
    CrystalsLeave(money);
    SmallIsExact(r, j);
    assert Paid(money) - money == Small(r + j * UINT32) - r - 10000 * UINT32 * (money / 10000 / UINT32);
    assert money / 10000 / UINT32 == 0 <==> money / 10000 < UINT32;
  }

  lemma ChangeIsPaid(change: nat)
    requires change <= CRYSTAL
    ensures Paid(change) == change
  {
    PaidIsExact(change);
  }

  lemma CrystalsLeave(money: nat)
    ensures AfterCrystals(money) == money % 10000 + Overruns(money) * UINT32
    ensures money == 10000 * Crystals(money) + 10000 * UINT32 * (money / 10000 / UINT32) + money % 10000
    ensures money % 100 == money % 10000 % 100
  {
    var q := money / 10000;
    assert q == UINT32 * (q / UINT32) + Crystals(money);
    WrappedProduct(q % UINT32, q / UINT32);
    HundredsOf(money / 10000, money % 10000);
  }

  lemma WrappedProduct(c: nat, t: nat)
    ensures (c + UINT32 * t) * 10000 / UINT32 == c * 10000 / UINT32 + 10000 * t
  {
  }

  lemma HundredsOf(q: nat, r: nat)
    ensures (10000 * q + r) % 100 == r % 100
  {
    Remainder(10000 * q + r, 100 * q + r / 100, r % 100);
  }

  lemma Remainder(x: nat, k: nat, m: nat)
    requires x == 100 * k + m && m < 100
    ensures x % 100 == m
  {
  }

  lemma SmallIsExact(r: nat, j: nat)
    requires r < 10000
    ensures Small(r + j * UINT32) == r <==> j % 25 == 0 && (j == 0 || r % 100 != 0)
    ensures Small(r + j * UINT32) < 26000
  {
    var i, b := j / 25, j % 25;
    var s := r + b * UINT32;
    assert r + j * UINT32 == 100 * (UINT16 * (16384 * i)) + s;
    SmallValue(16384 * i, s);
    if b > 0 {
      OffByOverruns(r, b);
      HundredsLeft(s / 100 % UINT16 % UINT8, Pieces(s % 100), r);
    } else {
      FitsCounters(s);
    }
  }

  lemma FitsCounters(r: nat)
    requires r < 10000
    ensures r / 100 % UINT16 % UINT8 == r / 100 && r < 100 * UINT16
  {
  }

  lemma HundredsLeft(platinum: nat, gold: nat, r: nat)
    requires gold % 100 != r % 100
    ensures 100 * platinum + gold != r
  {
  }

  lemma SmallValue(k: nat, s: nat)
    ensures Small(100 * (UINT16 * k) + s) == 100 * (s / 100 % UINT16 % UINT8)
      + if k == 0 && s < 100 * UINT16 && s % 100 == 0 then 0 else Pieces(s % 100)
  {
    CountersKeep(k, s);
  }

  /** What the 16-bit counters see of the rest. */
  lemma CountersKeep(k: nat, s: nat)
    ensures var rest := 100 * (UINT16 * k) + s;
      var platinum := rest / 100 % UINT16;
      var gold := rest - platinum * 100;
      platinum == s / 100 % UINT16 && gold % UINT16 == s % 100
      && (gold == 0 <==> k == 0 && s < 100 * UINT16 && s % 100 == 0)
  {
    var q, r := s / 100, s % 100;
    var m, p := q / UINT16, q % UINT16;
    Hundreds(UINT16 * k + q, r);
    LowBits(k + m, p);
    LowBits(100 * (k + m), r);
  }

  lemma Hundreds(x: nat, r: nat)
    requires r < 100
    ensures (100 * x + r) / 100 == x
  {
  }

  lemma LowBits(x: nat, p: nat)
    requires p < UINT16
    ensures (UINT16 * x + p) % UINT16 == p
  {
  }

  lemma OffByOverruns(r: nat, b: nat)
    requires 0 < b < 25
    ensures Pieces((r + b * UINT32) % 100) % 100 != r % 100
  {
    var m := r % 100;
    var t, p := (m + 96 * b) / 100, (m + 96 * b) % 100;
    Overrun(r, r / 100, m, b, t, p);
    OffByFours(m, b, t, p);
    PiecesDiffer(p, m);
  }

  lemma Overrun(r: nat, j: nat, m: nat, b: nat, t: nat, p: nat)
    requires r == 100 * j + m && m + 96 * b == 100 * t + p && p < 100
    ensures (r + b * UINT32) % 100 == p
  {
    Remainder(r + b * UINT32, j + 42949672 * b + t, p);
  }

  lemma PiecesDiffer(p: nat, m: nat)
    requires p < 100 && p != m && (p == 0 ==> m != 1)
    ensures Pieces(p) % 100 != m
  {
    Remainder(Pieces(p), 0, if p == 0 then 1 else p);
  }

  /** 2^32 leaves 96 beyond hundreds. */
  lemma OffByFours(m: nat, b: nat, t: nat, p: nat)
    requires m < 100 && 0 < b < 25 && m + 96 * b == 100 * t + p && p < 100
    ensures p != m && (p == 0 ==> m != 1)
  {
  }

  // ---- breaking a stack

  /** What one piece of a stack is worth, by division. */
  function UnitOf(s: Stack): (unit: nat)
    requires s.Worth() > 0
    ensures unit == s.unit && IsCoin(unit)
  {
    ProductByFactor(s.unit, s.count);
    s.Worth() / s.count
  }

  lemma ProductByFactor(a: nat, n: nat)
    requires n > 0
    ensures a * n / n == a
  {
    var q := a * n / n;
    QuotientAround(a * n, n);
    assert n * (q + 1) == q * n + n && n * q == q * n;
    if q < a {
      OneMoreIsMore(q, a, n);
    } else if a < q {
      OneMoreIsMore(a, q, n);
    }
  }

  lemma {:induction false} OneMoreIsMore(x: nat, y: nat, n: nat)
    requires x < y
    ensures x * n + n <= y * n
    decreases y
  {
    assert y * n == (y - 1) * n + n;
    if x < y - 1 {
      OneMoreIsMore(x, y - 1, n);
    }
  }

  /** The pieces to be taken from a stack that is worth more than the money. */
  function RemoveCount(s: Stack, money: nat): (n: nat)
    requires 0 < money < s.Worth()
    ensures 0 < n <= s.count
  {
    QuotientBelow(money, s.unit, s.count);
    money / UnitOf(s) + 1
  }

  lemma QuotientBelow(money: nat, unit: nat, count: nat)
    requires unit > 0 && money < unit * count
    ensures money / unit < count
  {
    var q := money / unit;
    assert money == unit * q + money % unit;
    assert unit * (count - q) == unit * count - unit * q > 0;
  }

  lemma QuotientAround(money: nat, unit: nat)
    requires unit > 0
    ensures unit * (money / unit) <= money < unit * (money / unit + 1) <= money + unit
  {
    var q := money / unit;
    assert money == unit * q + money % unit;
    assert unit * (q + 1) == unit * q + unit;
  }

  /** What they are worth beyond the money: something, and not more than one piece. */
  function Change(s: Stack, money: nat): (change: nat)
    requires 0 < money < s.Worth()
    ensures 0 < change <= s.unit
    ensures ValueOf(s.unit, RemoveCount(s, money)) == money + change
  {
    QuotientAround(money, s.unit);
    UnitOf(s) * RemoveCount(s, money) - money
  }
}
