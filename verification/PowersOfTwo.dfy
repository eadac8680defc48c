/** Powers of two and the geometry of aligned power-of-two blocks. */
module PowersOfTwo {

  function Pow2(k: nat): (r: nat)
    ensures r > 0
  {
    if k == 0 then 1 else 2 * Pow2(k - 1)
  }

  /** `2^k` divides `a`, by k halvings. */
  predicate Aligned(a: nat, k: nat)
  {
    k == 0 || (a % 2 == 0 && Aligned(a / 2, k - 1))
  }

  lemma {:induction false} PowUp(j: nat, k: nat)
    requires j <= k
    ensures Pow2(j) <= Pow2(k)
  {
    if j < k {
      PowUp(j, k - 1);
    }
  }

  /** Doubling both sides of a division keeps the remainder zero or nonzero. */
  lemma EvenDivisible(h: nat, d: nat)
    requires d > 0
    ensures (2 * h) % (2 * d) == 0 <==> h % d == 0
  {
    var q := h / d;
    var r := h % d;
    assert h == q * d + r;
    assert 2 * h == q * (2 * d) + 2 * r by { assert 2 * (q * d) == q * (2 * d); }
    DivUnique(2 * h, 2 * d, q, 2 * r);
  }

  lemma OddNotDivisible(a: nat, d: nat)
    requires d > 0 && a % 2 == 1
    ensures a % (2 * d) != 0
  {
    var q := a / (2 * d);
    assert a == q * (2 * d) + a % (2 * d);
    assert q * (2 * d) == 2 * (q * d);
  }

  /** Alignment is divisibility by the power of two. */
  lemma {:induction false} AlignedIsDivisible(a: nat, k: nat)
    ensures Aligned(a, k) <==> a % Pow2(k) == 0
    decreases k
  {
    if k > 0 {
      AlignedIsDivisible(a / 2, k - 1);
      if a % 2 == 0 {
        EvenDivisible(a / 2, Pow2(k - 1));
      } else {
        OddNotDivisible(a, Pow2(k - 1));
      }
    }
  }

  /** Writes a number that `d` divides as a multiple of `d`. */
  lemma AsMultiple(a: nat, d: nat) returns (q: nat)
    requires d > 0 && a % d == 0
    ensures a == q * d
  {
    q := a / d;
  }

  /** The only multiple of `d` in `[0, d)` is zero. */
  lemma ScaledRange(z: int, d: nat)
    requires d > 0 && 0 <= z * d < d
    ensures z == 0
  {
  }

  /** An address aligned to a large power is aligned to every smaller one. */
  lemma {:induction false} AlignedDown(a: nat, j: nat, k: nat)
    requires j <= k && Aligned(a, k)
    ensures Aligned(a, j)
    decreases k
  {
    if j > 0 {
      AlignedDown(a / 2, j - 1, k - 1);
    }
  }

  lemma MulMono(x: nat, y: nat, d: nat)
    requires x <= y
    ensures x * d <= y * d
  {
  }

  /** Ordering multiples orders their factors. */
  lemma FactorLess(x: nat, y: nat, d: nat)
    requires d > 0 && x * d < y * d
    ensures x + 1 <= y && x * d + d <= y * d
  {
    assert x < y by {
      if x >= y {
        MulMono(y, x, d);
      }
    }
    MulMono(x + 1, y, d);
    assert (x + 1) * d == x * d + d;
  }

  /** Addresses aligned to `2^k` are at least `2^k` apart. */
  lemma AlignedApart(a: nat, b: nat, k: nat)
    requires Aligned(a, k) && Aligned(b, k) && a < b
    ensures a + Pow2(k) <= b
  {
    AlignedIsDivisible(a, k);
    AlignedIsDivisible(b, k);
    var x := AsMultiple(a, Pow2(k));
    var y := AsMultiple(b, Pow2(k));
    FactorLess(x, y, Pow2(k));
  }

  /** The end of an aligned block is aligned to every order up to the block's. */
  lemma {:induction false} AlignedStep(a: nat, j: nat, k: nat)
    requires j <= k && Aligned(a, j)
    ensures Aligned(a + Pow2(k), j)
    decreases k
  {
    if j > 0 {
      AlignedStep(a / 2, j - 1, k - 1);
      assert (a + Pow2(k)) / 2 == a / 2 + Pow2(k - 1);
    }
  }

  /**
   * Aligned blocks never straddle: if the smaller block `[a, a + 2^j)` starts
   * inside the larger block `[b, b + 2^k)`, it lies inside it.
   */
  lemma Nested(a: nat, j: nat, b: nat, k: nat)
    requires j <= k && Aligned(a, j) && Aligned(b, k)
    requires b <= a < b + Pow2(k)
    ensures a + Pow2(j) <= b + Pow2(k)
  {
    AlignedDown(b, j, k);
    AlignedStep(b, j, k);
    AlignedApart(a, b + Pow2(k), j);
  }

  /**
   * If the larger block `[b, b + 2^k)` contains some page of the smaller one,
   * it contains the start of the smaller one.
   */
  lemma StartInside(a: nat, j: nat, b: nat, k: nat, p: nat)
    requires j <= k && Aligned(a, j) && Aligned(b, k)
    requires a <= p < a + Pow2(j) && b <= p < b + Pow2(k)
    ensures b <= a < b + Pow2(k)
  {
    if a < b {
      AlignedDown(b, j, k);
      AlignedApart(a, b, j);
    }
  }

  /** An aligned address is an even or an odd multiple of its power of two. */
  lemma {:induction false} HalfAligned(a: nat, k: nat)
    requires Aligned(a, k)
    ensures (a / Pow2(k)) % 2 == 0 <==> Aligned(a, k + 1)
    ensures (a / Pow2(k)) % 2 == 1 ==> a >= Pow2(k) && Aligned(a - Pow2(k), k + 1)
    decreases k
  {
    if k == 0 {
      assert Pow2(0) == 1;
      assert a / 1 == a;
      assert Aligned(a, 1) <==> a % 2 == 0;
      if a % 2 == 1 {
        assert Aligned((a - 1) / 2, 0);
        assert Aligned(a - 1, 1);
      }
    } else {
      HalfAligned(a / 2, k - 1);
      DivHalf(a, Pow2(k - 1));
      if (a / Pow2(k)) % 2 == 1 {
        assert (a - Pow2(k)) / 2 == a / 2 - Pow2(k - 1);
      }
    }
  }

  lemma DivHalf(a: nat, d: nat)
    requires d > 0 && a % 2 == 0
    ensures a / (2 * d) == (a / 2) / d
  {
    var q := (a / 2) / d;
    var r := (a / 2) % d;
    assert a / 2 == q * d + r;
    assert a == q * (2 * d) + 2 * r by { assert 2 * (q * d) == q * (2 * d); }
    DivUnique(a, 2 * d, q, 2 * r);
  }

  lemma DivUnique(a: nat, d: nat, q: nat, r: nat)
    requires d > 0 && a == q * d + r && r < d
    ensures a / d == q && a % d == r
  {
    var q' := a / d;
    var r' := a % d;
    assert (q - q') * d == r' - r;
    assert (q' - q) * d == r - r';
    if q > q' {
      MulMono(1, q - q', d);
    } else if q < q' {
      MulMono(1, q' - q, d);
    }
  }

  lemma {:induction false} Pow2Monotone(j: nat, k: nat)
    requires j <= k
    ensures Pow2(j) <= Pow2(k)
    decreases k
  {
    if j < k {
      Pow2Monotone(j, k - 1);
    }
  }
}
