/** Arithmetic of alignments: remainders, powers of two, and the padding up to an aligned address. */
module Alignment {

  predicate PowerOfTwo(n: nat)
  {
    n == 1 || (n > 1 && n % 2 == 0 && PowerOfTwo(n / 2))
  }

  /** The distance from address `a` to the next multiple of `align`. */
  function Padding(a: nat, align: nat): (p: nat)
    requires align > 0
    ensures p < align
  {
    (align - a % align) % align
  }

  predicate Aligned(a: nat, align: nat)
    requires align > 0
  {
    a % align == 0
  }

  lemma MultiplesApart(x: int, y: int, m: int)
    requires m > 0 && x < y
    ensures x * m + m <= y * m
  {
    assert (y - x - 1) * m >= 0;
    assert (y - x - 1) * m == y * m - x * m - m;
  }

  lemma RemainderIs(x: int, m: int, q: int, r: int)
    requires m > 0 && x == q * m + r && 0 <= r < m
    ensures x % m == r && x / m == q
  {
    var q' := x / m;
    assert x == q' * m + x % m;
    if q < q' {
      MultiplesApart(q, q', m);
    } else if q' < q {
      MultiplesApart(q', q, m);
    }
  }

  lemma ShiftRemainder(x: int, m: int, k: int)
    requires m > 0
    ensures (x + k * m) % m == x % m
  {
    RemainderIs(x + k * m, m, x / m + k, x % m);
  }

  lemma {:induction false} PowersDivide(a: nat, b: nat)
    requires PowerOfTwo(a) && PowerOfTwo(b) && a <= b
    ensures b % a == 0
    decreases a
  {
    if a > 1 {
      PowersDivide(a / 2, b / 2);
      var h, k := a / 2, (b / 2) / (a / 2);
      assert b / 2 == k * h;
      RemainderIs(b, a, k, 0) by {
        assert b == 2 * (k * h) == k * (2 * h);
      }
    }
  }

  /** The padding is right: it reaches a multiple, and no smaller step does. */
  lemma PaddingAligns(a: nat, align: nat)
    requires align > 0
    ensures Aligned(a + Padding(a, align), align)
  {
    var r, q := a % align, a / align;
    assert a == q * align + r;
    if r == 0 {
      RemainderIs(align, align, 1, 0);
    } else {
      RemainderIs(align - r, align, 0, align - r);
      assert (q + 1) * align == q * align + align;
      RemainderIs(a + (align - r), align, q + 1, 0);
    }
  }

  lemma PaddingIsLeast(a: nat, align: nat, p: nat)
    requires align > 0 && Aligned(a + p, align)
    ensures Padding(a, align) <= p
  {
    var r, q := a % align, a / align;
    assert a == q * align + r;
    if r == 0 {
      RemainderIs(align, align, 1, 0);
    } else {
      RemainderIs(align - r, align, 0, align - r);
      if p < align - r {
        RemainderIs(a + p, align, q, r + p);
      }
    }
  }

  /** A remainder modulo a multiple determines the remainder. */
  lemma RemainderOfRemainder(x: nat, m: nat, d: nat)
    requires m > 0 && d > 0 && m % d == 0
    ensures (x % m) % d == x % d
  {
    var k := m / d;
    assert m == k * d;
    assert x == (x / m) * m + x % m;
    assert (x / m) * m == ((x / m) * k) * d;
    ShiftRemainder(x % m, d, (x / m) * k);
  }

  lemma PaddingOfRemainder(x: nat, m: nat, d: nat)
    requires m > 0 && d > 0 && m % d == 0
    ensures Padding(x % m, d) == Padding(x, d)
  {
    RemainderOfRemainder(x, m, d);
  }

  lemma PaddingShift(x: nat, k: nat, d: nat)
    requires d > 0 && k % d == 0
    ensures Padding(x + k, d) == Padding(x, d)
  {
    assert k == (k / d) * d;
    ShiftRemainder(x, d, k / d);
  }

  /** The padding as the code computes it from an offset. */
  lemma PaddingFormula(c: nat, align: nat)
    requires align > 0
    ensures align - ((c + align - 1) % align) - 1 == Padding(c, align)
  {
    var q, r := c / align, c % align;
    assert c == q * align + r;
    if r == 0 {
      RemainderIs(c + align - 1, align, q, align - 1);
      RemainderIs(align, align, 1, 0);
    } else {
      RemainderIs(c + align - 1, align, q + 1, r - 1) by {
        assert (q + 1) * align == q * align + align;
      }
      RemainderIs(align - r, align, 0, align - r);
    }
  }

  /** From a multiple of the finer alignment, at most a coarse lap less one fine unit remains. */
  lemma PaddingOfMultiple(m: nat, fine: nat, coarse: nat)
    requires 0 < fine < coarse && coarse % fine == 0 && Aligned(m, fine)
    ensures Padding(m, coarse) <= coarse - fine
    ensures m % coarse == fine ==> Padding(m, coarse) == coarse - fine
  {
    var j, r := coarse / fine, m % coarse;
    assert coarse == j * fine;
    RemainderOfRemainder(m, coarse, fine);
    assert r == (r / fine) * fine;
    if r == 0 {
      RemainderIs(coarse, coarse, 1, 0);
    } else {
      if r < fine {
        RemainderIs(r, fine, 0, r);
      }
      RemainderIs(coarse - r, coarse, 0, coarse - r);
    }
  }

  lemma CoarseIsFine(a: nat, fine: nat, coarse: nat)
    requires 0 < fine && 0 < coarse && coarse % fine == 0 && Aligned(a, coarse)
    ensures Aligned(a, fine)
  {
    RemainderOfRemainder(a, coarse, fine);
    RemainderIs(0, fine, 0, 0);
  }

  /** Padding up to a coarser alignment goes through the finer one. */
  lemma PaddingInTwoSteps(e: nat, fine: nat, coarse: nat)
    requires 0 < fine <= coarse && coarse % fine == 0
    ensures Padding(e, coarse) == Padding(e, fine) + Padding(e + Padding(e, fine), coarse)
  {
    var near, whole := Padding(e, fine), Padding(e, coarse);
    var far := Padding(e + near, coarse);
    PaddingAligns(e + near, coarse);
    assert (e + near) + far == e + (near + far);
    PaddingIsLeast(e, coarse, near + far);
    PaddingAligns(e, coarse);
    CoarseIsFine(e + whole, fine, coarse);
    PaddingIsLeast(e, fine, whole);
    assert (e + near) + (whole - near) == e + whole;
    PaddingIsLeast(e + near, coarse, whole - near);
  }

  /** The most that padding up to a coarser alignment can take, and when it takes that. */
  lemma WorstPadding(e: nat, fine: nat, coarse: nat)
    requires 0 < fine < coarse && coarse % fine == 0
    ensures Padding(e, coarse) <= coarse - fine + Padding(e, fine)
    ensures (e + Padding(e, fine)) % coarse == fine ==> Padding(e, coarse) == coarse - fine + Padding(e, fine)
  {
    PaddingInTwoSteps(e, fine, coarse);
    PaddingAligns(e, fine);
    PaddingOfMultiple(e + Padding(e, fine), fine, coarse);
  }

  /** Some number of fine units takes a multiple of `fine` one unit past a multiple of `coarse`. */
  lemma WorstShift(m: nat, fine: nat, coarse: nat) returns (t: nat)
    requires 0 < fine < coarse && coarse % fine == 0 && Aligned(m, fine)
    ensures (m + t * fine) % coarse == fine
  {
    var q, j := m / fine, coarse / fine;
    assert m == q * fine && coarse == j * fine;
    t := j - q % j + 1;
    var laps := q / j + 1;
    assert q + t == laps * j + 1;
    assert m + t * fine == (q + t) * fine == laps * (j * fine) + fine;
    RemainderIs(m + t * fine, coarse, laps, fine);
  }
}
