/** The pointer helpers of slkc/include/slkc/memory.h on machine words of `w` bits: the
    alignment mask worked out bit by bit, and the arithmetic it is meant to be. */
module Alignment {

  function Pow2(k: nat): (r: nat)
    ensures r >= 1
  {
    if k == 0 then 1 else 2 * Pow2(k - 1)
  }

  /** Bitwise and. */
  function And(x: nat, y: nat): (r: nat)
    ensures r <= x && r <= y
  {
    if x == 0 || y == 0 then 0 else 2 * And(x / 2, y / 2) + (if x % 2 == 1 && y % 2 == 1 then 1 else 0)
  }

  /** Arithmetic of a `w`-bit word. */
  function Word(w: nat, x: int): (r: nat)
    ensures r < Pow2(w)
  {
    x % Pow2(w)
  }

  function Complement(w: nat, x: nat): nat
    requires x < Pow2(w)
  {
    Pow2(w) - 1 - x
  }

  /** `sk_align_forward`. */
  function AlignForward(w: nat, p: nat, a: nat): nat {
    And(Word(w, p + Word(w, a - 1)), Complement(w, Word(w, a - 1)))
  }

  /** `sk_is_aligned`, which divides. */
  predicate IsAligned(p: nat, a: nat)
    requires a != 0
  {
    p % a == 0
  }

  /** `sk_in_range`: the end is outside. */
  predicate InRange(p: nat, start: nat, end: nat) {
    start <= p < end
  }

  // ----- what the mask computes

  /** The smallest multiple of `a` that is not below `p`. */
  ghost predicate LeastMultiple(r: nat, p: nat, a: nat)
    requires a != 0
  {
    IsAligned(r, a) && p <= r && forall m: nat :: IsAligned(m, a) && p <= m ==> r <= m
  }

  /** Masking with a complement takes away what masking with the word itself leaves. */
  lemma {:induction false} AndComplement(w: nat, x: nat, m: nat)
    requires x < Pow2(w) && m < Pow2(w)
    ensures And(x, Complement(w, m)) == x - And(x, m)
  {
    if w != 0 {
      AndComplement(w - 1, x / 2, m / 2);
      assert Complement(w, m) == 2 * Complement(w - 1, m / 2) + (1 - m % 2);
      AndHalves(x, m);
      AndHalves(x, Complement(w, m));
    }
  }

  lemma {:induction false} AndHalves(x: nat, y: nat)
    ensures And(x, y) == 2 * And(x / 2, y / 2) + (if x % 2 == 1 && y % 2 == 1 then 1 else 0)
  {
  }

  /** Without a wrap-around the result is never below the address, and less than one
      alignment above it, whatever the alignment. */
  lemma {:induction false} AlignForwardBounds(w: nat, p: nat, a: nat)
    requires 0 < a && p + (a - 1) < Pow2(w)
    ensures p <= AlignForward(w, p, a) < p + a
  {
    WordFits(w, a - 1);
    WordFits(w, p + (a - 1));
    AndComplement(w, p + (a - 1), a - 1);
  }

  lemma {:induction false} WordFits(w: nat, x: nat)
    requires x < Pow2(w)
    ensures Word(w, x) == x
  {
    hide Pow2;
    Divides(x, 0, x, Pow2(w));
  }

  /** Quotient and remainder are unique. */
  lemma {:induction false} Divides(x: nat, q: nat, r: nat, a: nat)
    requires r < a && x == q * a + r
    ensures x / a == q && x % a == r
  {
    var i, j := x / a, x % a;
    assert x == i * a + j;
    assert (i - q) * a == r - j;
    if i > q {
      AtLeast(i - q, a);
    } else if i < q {
      AtLeast(q - i, a);
      assert false;
    }
  }

  lemma {:induction false} AtLeast(n: int, a: nat)
    requires n >= 1
    ensures n * a >= a
  {
    assert n * a == (n - 1) * a + a;
  }

  /** Clearing the low `k` bits. */
  lemma {:induction false} LowBits(k: nat, x: nat) returns (q: nat)
    ensures And(x, Pow2(k) - 1) < Pow2(k) && x - And(x, Pow2(k) - 1) == q * Pow2(k)
  {
    if k == 0 {
      q := x;
    } else {
      hide And, Pow2;
      q := LowBits(k - 1, x / 2);
      AndHalves(x, Pow2(k) - 1);
      Pow2Step(k);
      Doubled(q, Pow2(k - 1));
    }
  }

  lemma {:induction false} Doubled(q: nat, a: nat)
    ensures q * (2 * a) == 2 * (q * a)
  {
  }

  lemma {:induction false} Pow2Step(k: nat)
    requires k > 0
    ensures Pow2(k) == 2 * Pow2(k - 1) && (Pow2(k) - 1) / 2 == Pow2(k - 1) - 1 && (Pow2(k) - 1) % 2 == 1
  {
  }

  lemma {:induction false} MultipleIsAligned(q: nat, a: nat)
    requires a != 0
    ensures IsAligned(q * a, a)
  {
    Divides(q * a, q, 0, a);
  }

  /** An aligned address less than one alignment above `p` is the least one. */
  lemma {:induction false} LeastIsNear(r: nat, p: nat, a: nat)
    requires a != 0 && IsAligned(r, a) && p <= r
    ensures LeastMultiple(r, p, a) <==> r < p + a
  {
    if r < p + a {
      forall m: nat | IsAligned(m, a) && p <= m ensures r <= m {
        if m < r {
          MultiplesApart(r, m, a);
        }
      }
    } else {
      var q := r / a;
      assert r == q * a;
      assert q >= 1 && r - a == (q - 1) * a;
      MultipleIsAligned(q - 1, a);
      assert IsAligned(r - a, a);
    }
  }

  lemma {:induction false} MultiplesApart(r: nat, m: nat, a: nat)
    requires a != 0 && IsAligned(r, a) && IsAligned(m, a) && m < r
    ensures m + a <= r
  {
    var i, j := r / a, m / a;
    assert r == i * a && m == j * a;
    assert (i - j) * a == r - m && (j - i) * a == m - r;
    if i > j {
      AtLeast(i - j, a);
    } else if i < j {
      AtLeast(j - i, a);
    }
  }

  ghost predicate PowerOfTwo(a: nat) {
    exists k: nat :: a == Pow2(k)
  }

  /** For a power of two the mask gives a multiple, wrap-around or not. */
  lemma {:induction false} MaskIsMultiple(w: nat, p: nat, a: nat)
    requires PowerOfTwo(a) && a < Pow2(w)
    ensures IsAligned(AlignForward(w, p, a), a)
  {
    hide Pow2, And;
    var k: nat :| a == Pow2(k);
    var x := Word(w, p + (a - 1));
    WordFits(w, a - 1);
    AndComplement(w, x, a - 1);
    var q := LowBits(k, x);
    MultipleIsAligned(q, a);
  }

  lemma {:induction false} Pow2Divides(w: nat, k: nat)
    requires k <= w
    ensures IsAligned(Pow2(w), Pow2(k)) && Pow2(k) <= Pow2(w)
  {
    var q := Pow2Quotient(w, k);
    hide Pow2;
    MultipleIsAligned(q, Pow2(k));
    AtLeast(q, Pow2(k));
  }

  lemma {:induction false} Pow2Quotient(w: nat, k: nat) returns (q: nat)
    requires k <= w
    ensures q >= 1 && Pow2(w) == q * Pow2(k)
  {
    if w == k {
      q := 1;
    } else {
      var q' := Pow2Quotient(w - 1, k);
      q := 2 * q';
      assert q * Pow2(k) == 2 * (q' * Pow2(k));
    }
  }

  lemma {:induction false} Pow2Order(w: nat, k: nat)
    ensures Pow2(k) < Pow2(w) <==> k < w
  {
    if k < w {
      Pow2Divides(w - 1, k);
    } else {
      Pow2Divides(k, w);
    }
  }

  /** An aligned word has room for its alignment. */
  lemma {:induction false} AlignedHasRoom(w: nat, r: nat, a: nat)
    requires PowerOfTwo(a) && a < Pow2(w) && r < Pow2(w) && IsAligned(r, a)
    ensures r + a <= Pow2(w)
  {
    var k: nat :| a == Pow2(k);
    Pow2Order(w, k);
    Pow2Divides(w, k);
    hide Pow2;
    MultiplesApart(Pow2(w), r, a);
  }

  /** The mask is the arithmetic: for a power of two, and as long as nothing wraps, it is
      the least multiple that is not below the address, and applying it again changes
      nothing. */
  lemma {:induction false} MaskIsArithmetic(w: nat, p: nat, a: nat)
    requires PowerOfTwo(a) && a < Pow2(w) && p + (a - 1) < Pow2(w)
    ensures LeastMultiple(AlignForward(w, p, a), p, a) && AlignForward(w, p, a) < p + a
    ensures AlignForward(w, AlignForward(w, p, a), a) == AlignForward(w, p, a)
  {
    AlignForwardBounds(w, p, a);
    MaskIsMultiple(w, p, a);
    var r := AlignForward(w, p, a);
    MaskIsWord(w, p, a);
    hide *;
    LeastIsNear(r, p, a);
    AlignedHasRoom(w, r, a);
    AlignForwardBounds(w, r, a);
    MaskIsMultiple(w, r, a);
    if r < AlignForward(w, r, a) {
      MultiplesApart(AlignForward(w, r, a), r, a);
    }
  }

  lemma {:induction false} MaskIsWord(w: nat, p: nat, a: nat)
    ensures AlignForward(w, p, a) < Pow2(w)
  {
  }

  /** When the addition wraps, the result is the address zero. */
  lemma {:induction false} MaskWraps(w: nat, p: nat, a: nat)
    requires PowerOfTwo(a) && a < Pow2(w) && p < Pow2(w) <= p + (a - 1)
    ensures AlignForward(w, p, a) == 0
  {
    MaskIsMultiple(w, p, a);
    WordFits(w, a - 1);
    var x := p + (a - 1) - Pow2(w);
    WordWraps(w, x);
    AndComplement(w, x, a - 1);
    if AlignForward(w, p, a) != 0 {
      MultiplesApart(AlignForward(w, p, a), 0, a);
      assert false;
    }
  }

  lemma {:induction false} WordWraps(w: nat, x: nat)
    requires x < Pow2(w)
    ensures Word(w, Pow2(w) + x) == x
  {
    hide Pow2;
    Divides(Pow2(w) + x, 1, x, Pow2(w));
  }

  /** The helper's promise for one address. */
  ghost predicate AlignsRight(w: nat, p: nat, a: nat)
    requires a != 0
  {
    LeastMultiple(AlignForward(w, p, a), p, a)
  }

  /** For a power of two the helper keeps its promise exactly when nothing wraps. */
  lemma {:induction false} AlignsUnlessWrapped(w: nat, p: nat, a: nat)
    requires PowerOfTwo(a) && a < Pow2(w) && 0 < p < Pow2(w)
    ensures AlignsRight(w, p, a) <==> p + (a - 1) < Pow2(w)
  {
    if p + (a - 1) < Pow2(w) {
      MaskIsArithmetic(w, p, a);
    } else {
      MaskWraps(w, p, a);
    }
  }

  /** The masked word of an alignment itself: its lowest one bit. */
  lemma {:induction false} LowestBit(w: nat, a: nat) returns (k: nat)
    requires 0 < a < Pow2(w)
    ensures And(a, Complement(w, a - 1)) == Pow2(k)
  {
    AndHalves(a, Complement(w, a - 1));
    if a % 2 == 0 {
      k := LowestBit(w - 1, a / 2);
      assert Complement(w, a - 1) == 2 * Complement(w - 1, a / 2 - 1);
      k := k + 1;
    } else {
      k := 0;
      assert Complement(w, a - 1) == 2 * Complement(w - 1, a / 2) + 1;
      AndComplement(w - 1, a / 2, a / 2);
      AndSelf(a / 2);
    }
  }

  lemma {:induction false} AndSelf(x: nat)
    ensures And(x, x) == x
  {
    if x != 0 {
      AndSelf(x / 2);
    }
  }

  /** An alignment works for every address that does not wrap exactly when it is a power of
      two: otherwise address 1 already goes wrong. */
  lemma {:induction false} PowersOfTwoExactly(w: nat, a: nat)
    requires 0 < a < Pow2(w)
    ensures (forall p: nat :: p + (a - 1) < Pow2(w) ==> AlignsRight(w, p, a)) <==> PowerOfTwo(a)
    ensures AlignsRight(w, 1, a) <==> PowerOfTwo(a)
  {
    if PowerOfTwo(a) {
      forall p: nat | p + (a - 1) < Pow2(w) ensures AlignsRight(w, p, a) {
        MaskIsArithmetic(w, p, a);
      }
      assert AlignsRight(w, 1, a);
    } else {
      WordFits(w, a - 1);
      WordFits(w, a);
      var k := LowestBit(w, a);
      MultipleIsAligned(1, a);
      assert IsAligned(a, a);
      if AlignsRight(w, 1, a) {
        assert Pow2(k) <= a;
        LeastIsNear(Pow2(k), 1, a);
        MultiplesApart(Pow2(k), 0, a);
        assert false;
      }
    }
  }
}
