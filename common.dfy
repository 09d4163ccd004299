/** Integer widths and the arithmetic helpers that the on-chain program gets
    from Rust's primitive types: truncating signed division, saturating and
    checked u64 arithmetic, and the silent `as u64` cast. */
module Common {

  datatype Option<T> = None | Some(value: T)

  const U8_MAX: int := 0xFF
  const U16_MAX: int := 0xFFFF
  const U32_MAX: int := 0xFFFF_FFFF
  const U64_MAX: int := 0xFFFF_FFFF_FFFF_FFFF
  const I64_MAX: int := 0x7FFF_FFFF_FFFF_FFFF
  const I64_MIN: int := -0x8000_0000_0000_0000
  const U128_MAX: int := 0xFFFF_FFFF_FFFF_FFFF_FFFF_FFFF_FFFF_FFFF

  predicate IsU8(x: int) { 0 <= x <= U8_MAX }
  predicate IsU16(x: int) { 0 <= x <= U16_MAX }
  predicate IsU32(x: int) { 0 <= x <= U32_MAX }
  predicate IsU64(x: int) { 0 <= x <= U64_MAX }
  predicate IsI64(x: int) { I64_MIN <= x <= I64_MAX }
  predicate IsU128(x: int) { 0 <= x <= U128_MAX }

  function Abs(x: int): nat { if x < 0 then -x else x }
  function Min(a: int, b: int): int { if a <= b then a else b }
  function Max(a: int, b: int): int { if a <= b then b else a }

  /** Rust's `/` on signed integers: the quotient is rounded toward zero
      (Dafny's own `/` is Euclidean). */
  function TruncDiv(x: int, d: int): (q: int)
    requires d > 0
    ensures Abs(q) * d <= Abs(x) < (Abs(q) + 1) * d
    ensures x >= 0 ==> q >= 0
    ensures x <= 0 ==> q <= 0
  {
    var n: nat := Abs(x);
    FloorDivBounds(n, d);
    var m: nat := n / d;
    var q: int := if x >= 0 then m as int else -(m as int);
    assert Abs(q) == m;
    q
  }

  /** Rounding down brackets the exact quotient. */
  lemma FloorDivBounds(x: nat, d: nat)
    requires d > 0
    ensures 0 <= x / d
    ensures (x / d) * d <= x < (x / d + 1) * d
  {
    var q := x / d;
    assert x == d * q + x % d;
    if q < 0 {
      MulMono(q, -1, d);
      assert false;
    }
    assert (q + 1) * d == q * d + d;
  }

  /** `u64::saturating_sub`. */
  function SaturatingSub(a: nat, b: nat): (r: nat)
    ensures r <= a
    ensures r == Max(0, a - b)
  {
    if a >= b then a - b else 0
  }

  /** `u64::saturating_add`. */
  function SaturatingAddU64(a: nat, b: nat): (r: nat)
    requires IsU64(a)
    ensures IsU64(r) && a <= r
    ensures r == Min(a + b, U64_MAX)
  {
    if a + b <= U64_MAX then a + b else U64_MAX
  }

  /** The `as u64` cast of a non-negative wider integer keeps the low 64 bits. */
  function AsU64(x: nat): (r: nat)
    ensures IsU64(r)
    ensures x <= U64_MAX ==> r == x
  {
    x % (U64_MAX + 1)
  }

  /** The `as u32` cast keeps the low 32 bits. */
  function AsU32(x: nat): (r: nat)
    ensures IsU32(r)
    ensures x <= U32_MAX ==> r == x
  {
    x % (U32_MAX + 1)
  }

  lemma DivByAtLeastOne(x: nat, d: nat)
    requires d >= 1
    ensures x / d <= x
  {
    DivAtMost(x, d, x);
    MulMono(1, d, x + 1);
  }

  // ---- arithmetic facts used by the accounting proofs ----

  lemma DivMono(a: int, b: int, d: int)
    requires 0 <= a <= b && d > 0
    ensures a / d <= b / d
  {
    if a / d > b / d {
      assert d * (a / d) >= d * (b / d + 1) by {
        MulMono(b / d + 1, a / d, d);
      }
    }
  }

  lemma MulMono(a: int, b: int, c: int)
    requires a <= b && c >= 0
    ensures a * c <= b * c
  {
  }

  lemma TruncDivNeg(x: int, d: int)
    requires d > 0
    ensures TruncDiv(-x, d) == -TruncDiv(x, d)
  {
    if x == 0 {
    } else if x > 0 {
    } else {
    }
  }

  lemma TruncDivMono(x: int, y: int, d: int)
    requires x <= y && d > 0
    ensures TruncDiv(x, d) <= TruncDiv(y, d)
  {
    if 0 <= x {
      DivMono(x, y, d);
    } else if y <= 0 {
      DivMono(-y, -x, d);
    }
  }

  /** Dividing twice by positive integers is dividing once by their product:
      `(a / b) / c == a / (b * c)` for non-negative `a`. */
  lemma NestedDiv(a: nat, b: nat, c: nat)
    requires b > 0 && c > 0
    ensures (a / b) / c == a / (b * c)
  {
    var q := a / b;
    var r := a % b;
    var q2 := q / c;
    var r2 := q % c;
    assert a == b * q + r;
    assert q == c * q2 + r2;
    assert a == (b * c) * q2 + (b * r2 + r) by {
      assert b * q == b * (c * q2) + b * r2;
    }
    assert 0 <= b * r2 + r < b * c by {
      assert r2 <= c - 1;
      MulMono(r2, c - 1, b);
    }
    DivUnique(a, b * c, q2, b * r2 + r);
  }

  /** Scaling numerator and divisor by the same positive factor leaves the
      quotient unchanged: `(a * c) / (b * c) == a / b`. */
  lemma ScaledDiv(a: nat, b: nat, c: nat)
    requires b > 0 && c > 0
    ensures (a * c) / (b * c) == a / b
  {
    var q := a / b;
    var r := a % b;
    assert a * c == (b * c) * q + r * c;
    MulMono(r, b - 1, c);
    DivUnique(a * c, b * c, q, r * c);
  }

  lemma DivUnique(a: int, d: int, q: int, r: int)
    requires d > 0 && 0 <= r < d && a == d * q + r
    ensures a / d == q
  {
    var q' := a / d;
    var r' := a % d;
    assert a == d * q' + r';
    if q' < q {
      MulMono(q' + 1, q, d);
    } else if q' > q {
      MulMono(q + 1, q', d);
    }
  }

  /** Quotients compare as their cross products do: `a / b <= c / d` when
      `a * d <= c * b`. */
  lemma CrossDivMono(a: nat, b: nat, c: nat, d: nat)
    requires b > 0 && d > 0
    requires a * d <= c * b
    ensures a / b <= c / d
  {
    var k := c / d;
    DivAtMost(c, d, k);
    assert c * b < (k + 1) * d * b by {
      MulMono(c + 1, (k + 1) * d, b);
    }
    if a >= (k + 1) * b {
      MulMono((k + 1) * b, a, d);
    }
    DivAtMost(a, b, k);
  }

  /** `floor(x / d) <= k` exactly when `x < (k + 1) * d`. */
  lemma DivAtMost(x: nat, d: nat, k: nat)
    requires d > 0
    ensures x / d <= k <==> x < (k + 1) * d
  {
    var q := x / d;
    assert x == d * q + x % d;
    if q <= k {
      MulMono(q + 1, k + 1, d);
    } else {
      MulMono(k + 1, q, d);
    }
  }

  /** A total between `count * lo` and `count * hi` has its rounded-down
      average between `lo` and `hi`. */
  lemma QuotientBetween(total: nat, count: nat, lo: nat, hi: nat)
    requires count > 0
    requires count * lo <= total <= count * hi
    ensures lo <= total / count <= hi
  {
    DivUnique(count * lo, count, lo, 0);
    DivUnique(count * hi, count, hi, 0);
    DivMono(count * lo, total, count);
    DivMono(total, count * hi, count);
  }

}
