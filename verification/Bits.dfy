/** Binary positions: the shifts, low-bit flips and bit lengths that index a binary tree,
    and single bits of a natural number. */
module Bits {

  /** `n >> h`. */
  function Shr(n: nat, h: nat): nat {
    if h == 0 then n else Shr(n / 2, h - 1)
  }

  /** `n` with its low bit cleared. */
  function Even(n: nat): nat {
    n - n % 2
  }

  /** `n ^ 1`. */
  function Sibling(n: nat): nat {
    if n % 2 == 0 then n + 1 else n - 1
  }

  /** The number of binary digits of `n`, zero for zero. */
  function BitLength(n: nat): nat {
    if n == 0 then 0 else 1 + BitLength(n / 2)
  }

  function Pow2(k: nat): (p: nat)
    ensures p >= 1
  {
    if k == 0 then 1 else 2 * Pow2(k - 1)
  }

  lemma {:induction false} ShrSucc(n: nat, h: nat)
    ensures Shr(n, h + 1) == Shr(n, h) / 2
  {
    if h > 0 {
      ShrSucc(n / 2, h - 1);
    }
  }

  lemma {:induction false} ShrZero(n: nat, h: nat)
    ensures Shr(n, h) == 0 <==> BitLength(n) <= h
  {
    if h > 0 && n > 0 {
      ShrZero(n / 2, h - 1);
    } else if h > 0 {
      ShrZero(0, h - 1);
    }
  }

  lemma {:induction false} ShrMonotone(a: nat, b: nat, h: nat)
    requires a <= b
    ensures Shr(a, h) <= Shr(b, h)
  {
    if h > 0 {
      ShrMonotone(a / 2, b / 2, h - 1);
    }
  }

  /** Going back one leaf moves at most one node to the left on every level. */
  lemma {:induction false} ShrPredecessor(n: nat, h: nat)
    requires n > 0
    ensures Shr(n, h) - 1 <= Shr(n - 1, h) <= Shr(n, h)
    ensures Shr(n, h) % 2 == 1 ==> Even(Shr(n - 1, h)) == Shr(n, h) - 1
  {
    if h > 0 {
      if n % 2 == 1 {
        assert (n - 1) / 2 == n / 2;
      } else {
        assert (n - 1) / 2 == n / 2 - 1;
        ShrPredecessor(n / 2, h - 1);
      }
    }
  }

  lemma {:induction false} BitLengthMonotone(a: nat, b: nat)
    requires a <= b
    ensures BitLength(a) <= BitLength(b)
  {
    if a > 0 {
      BitLengthMonotone(a / 2, b / 2);
    }
  }

  lemma {:induction false} BitLengthBound(n: nat, k: nat)
    ensures n < Pow2(k) <==> BitLength(n) <= k
  {
    if k > 0 && n > 0 {
      BitLengthBound(n / 2, k - 1);
    }
  }

  /** Bit `i` of `w`: the lowest bit of `w >> i`. */
  predicate Bit(w: nat, i: nat) {
    Shr(w, i) % 2 == 1
  }

  /** `w` with bit `i` set. */
  function SetBit(w: nat, i: nat): nat {
    if i == 0 then Even(w) + 1 else 2 * SetBit(w / 2, i - 1) + w % 2
  }

  lemma {:induction false} SetBitBits(w: nat, i: nat, j: nat)
    ensures Bit(SetBit(w, i), j) <==> (Bit(w, j) || i == j)
  {
    if i > 0 && j > 0 {
      SetBitBits(w / 2, i - 1, j - 1);
      assert SetBit(w, i) / 2 == SetBit(w / 2, i - 1);
    } else if i == 0 && j > 0 {
      assert SetBit(w, 0) / 2 == w / 2;
    }
  }

  lemma {:induction false} SetBitBound(w: nat, i: nat, k: nat)
    requires w < Pow2(k) && i < k
    ensures SetBit(w, i) < Pow2(k)
  {
    var half := Pow2(k - 1);
    assert Pow2(k) == 2 * half;
    if i > 0 {
      assert w / 2 < half;
      SetBitBound(w / 2, i - 1, k - 1);
      assert SetBit(w, i) == 2 * SetBit(w / 2, i - 1) + w % 2;
    }
  }

  lemma {:induction false} ZeroHasNoBits(i: nat)
    ensures !Bit(0, i)
  {
    ShrZero(0, i);
  }
}
