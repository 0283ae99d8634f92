/** Powers of two, remainders and the bitwise AND of natural numbers. */
module Words {

  function Pow2(k: nat): (p: nat)
    ensures p >= 1
  {
    if k == 0 then 1 else 2 * Pow2(k - 1)
  }

  /** Bitwise AND, least significant bit last. */
  function And(a: nat, b: nat): nat
    decreases a
  {
    if a == 0 || b == 0 then 0
    else 2 * And(a / 2, b / 2) + (if a % 2 == 1 && b % 2 == 1 then 1 else 0)
  }

  /** Testing a value against the mask of its k low bits is taking it modulo 2^k. */
  lemma {:induction false} AndLowBits(a: nat, k: nat)
    ensures And(a, Pow2(k) - 1) == a % Pow2(k)
  {
    if k == 0 {
      assert Pow2(0) == 1;
    } else {
      AndLowBits(a / 2, k - 1);
      AndOfOdd(a, Pow2(k - 1) - 1);
      OneBitMore(a, Pow2(k - 1), And(a / 2, Pow2(k - 1) - 1), And(a, 2 * (Pow2(k - 1) - 1) + 1));
    }
  }

  lemma OneBitMore(a: nat, h: nat, x: nat, y: nat)
    requires h >= 1 && x == (a / 2) % h && y == 2 * x + a % 2
    ensures y == a % (2 * h)
  {
    HalfRemainder(a, h);
  }

  lemma AndOfOdd(a: nat, b: nat)
    ensures And(a, 2 * b + 1) == 2 * And(a / 2, b) + a % 2
  {
    assert (2 * b + 1) / 2 == b && (2 * b + 1) % 2 == 1;
  }

  lemma HalfRemainder(a: nat, h: nat)
    requires h >= 1
    ensures a % (2 * h) == 2 * ((a / 2) % h) + a % 2
  {
    var q, r := (a / 2) / h, (a / 2) % h;
    assert a == 2 * (q * h + r) + a % 2;
    assert 2 * (q * h + r) == q * (2 * h) + 2 * r;
    RemainderIs(a, 2 * h, q, 2 * r + a % 2);
  }

  /** The remainder of a division is the only one in range. */
  lemma RemainderIs(x: int, m: int, q: int, r: int)
    requires m > 0 && 0 <= r < m && x == q * m + r
    ensures x % m == r && x / m == q
  {
    var d := x / m - q;
    assert d >= 1 ==> d * m >= m;
    assert d <= -1 ==> d * m <= -m;
    assert x == (x / m) * m + x % m;
    assert d * m == (x / m) * m - q * m;
  }

  lemma AddMultiple(x: int, m: int, k: int)
    requires m > 0
    ensures (x + k * m) % m == x % m
  {
    assert (x / m + k) * m == (x / m) * m + k * m;
    RemainderIs(x + k * m, m, x / m + k, x % m);
  }

  /** Doubling a value and adding to it only sees one bit less of it. */
  lemma DoubleRemainder(a: int, a': int, b: int, m: int)
    requires m > 0 && a % m == a' % m
    ensures (2 * a + b) % (2 * m) == (2 * a' + b) % (2 * m)
  {
    var k := a / m - a' / m;
    assert a == a' + k * m by {
      assert k * m == (a / m) * m - (a' / m) * m;
    }
    assert 2 * a + b == (2 * a' + b) + k * (2 * m) by {
      assert k * (2 * m) == 2 * (k * m);
    }
    AddMultiple(2 * a' + b, 2 * m, k);
  }

  lemma {:induction false} Pow2Add(i: nat, j: nat)
    ensures Pow2(i + j) == Pow2(i) * Pow2(j)
  {
    if i > 0 {
      Pow2Add(i - 1, j);
      assert Pow2(i + j) == 2 * (Pow2(i - 1) * Pow2(j)) == (2 * Pow2(i - 1)) * Pow2(j);
    }
  }

  lemma {:induction false} Pow2Mono(i: nat, j: nat)
    requires i <= j
    ensures Pow2(i) <= Pow2(j)
  {
    if i < j {
      Pow2Mono(i, j - 1);
    }
  }

  lemma Pow2Of32()
    ensures Pow2(32) == 0x1_0000_0000
  {
    assert Pow2(8) == 256;
    Pow2Add(8, 8);
    Pow2Add(16, 16);
  }

  lemma NestedRemainder(x: int, c: int, p: int)
    requires c > 0 && p > 0
    ensures c * p > 0 && (x % (c * p)) % p == x % p
  {
    assert c * p > 0;
    var q := x / (c * p);
    assert x == q * (c * p) + x % (c * p);
    assert q * (c * p) == (q * c) * p;
    AddMultiple(x % (c * p), p, q * c);
  }

  /** Wrapping at 32 bits does not disturb the low k bits. */
  lemma WrapKeepsLowBits(x: int, k: nat)
    requires k <= 32
    ensures (x % 0x1_0000_0000) % Pow2(k) == x % Pow2(k)
  {
    Pow2Of32();
    Pow2Add(32 - k, k);
    NestedRemainder(x, Pow2(32 - k), Pow2(k));
  }
}
