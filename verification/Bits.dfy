/** Bitwise operations on unsigned numbers of any width, and what masks of low or high ones do to a number. */
module Bits {

  import opened Encoding

  // 2 to the power of k.
  function Pow2(k: nat): (r: nat)
    ensures r > 0
  {
    if k == 0 then 1 else 2 * Pow2(k - 1)
  }

  function And(a: nat, b: nat): (r: nat)
    ensures r <= a && r <= b
  {
    if a == 0 || b == 0 then 0 else 2 * And(a / 2, b / 2) + a % 2 * (b % 2)
  }

  function Or(a: nat, b: nat): (r: nat)
    ensures r >= a && r >= b
  {
    if a == 0 then b
    else if b == 0 then a
    else 2 * Or(a / 2, b / 2) + if a % 2 == 1 || b % 2 == 1 then 1 else 0
  }

  // How many bits are set.
  function BitCount(v: nat): nat {
    if v == 0 then 0 else v % 2 + BitCount(v / 2)
  }

  lemma PowStep(k: nat)
    ensures Pow2(0) == 1 && (k > 0 ==> Pow2(k) == 2 * Pow2(k - 1))
  {
  }

  lemma {:induction false} PowSum(j: nat, k: nat)
    ensures Pow2(j + k) == Pow2(j) * Pow2(k)
  {
    if j > 0 {
      PowSum(j - 1, k);
      Product(0, 0, Pow2(j - 1), Pow2(k));
      Spread(2, Pow2(j - 1), Pow2(k));
    }
  }

  lemma {:induction false} PowMonotone(j: nat, k: nat)
    requires j <= k
    ensures Pow2(j) <= Pow2(k)
  {
    if j < k {
      PowMonotone(j, k - 1);
    }
  }

  lemma AndStep(a: nat, b: nat)
    ensures And(a, b) == 2 * And(a / 2, b / 2) + a % 2 * (b % 2)
  {
  }

  lemma OrStep(a: nat, b: nat)
    ensures Or(a, b) == 2 * Or(a / 2, b / 2) + if a % 2 == 1 || b % 2 == 1 then 1 else 0
  {
  }

  lemma CountStep(v: nat)
    ensures BitCount(v) == v % 2 + BitCount(v / 2)
  {
  }

  // Bit k of a number.
  function Bit(v: nat, k: nat): nat {
    v / Pow2(k) % 2
  }

  lemma BitStep(v: nat, k: nat)
    ensures Bit(v, k) == if k == 0 then v % 2 else Bit(v / 2, k - 1)
  {
    if k > 0 {
      SplitRemainder(v, 2, Pow2(k - 1));
    }
  }

  // Bit by bit: set in both, and set in either.
  lemma {:induction false} BitsOfAndOr(a: nat, b: nat, k: nat)
    ensures Bit(And(a, b), k) == if Bit(a, k) == 1 && Bit(b, k) == 1 then 1 else 0
    ensures Bit(Or(a, b), k) == if Bit(a, k) == 1 || Bit(b, k) == 1 then 1 else 0
    decreases k
  {
    hide Bit, And, Or;
    BitStep(a, k);
    BitStep(b, k);
    BitStep(And(a, b), k);
    BitStep(Or(a, b), k);
    AndStep(a, b);
    OrStep(a, b);
    if k > 0 {
      BitsOfAndOr(a / 2, b / 2, k - 1);
    } else {
      TwoBits(a, b);
    }
  }

  lemma TwoBits(a: nat, b: nat)
    ensures a % 2 * (b % 2) == if a % 2 == 1 && b % 2 == 1 then 1 else 0
  {
    assert a % 2 == 0 || a % 2 == 1;
  }

  lemma OrNothing(a: nat)
    ensures Or(a, 0) == a
  {
  }

  lemma {:induction false} AndSelf(a: nat)
    ensures And(a, a) == a
  {
    if a > 0 {
      AndSelf(a / 2);
    }
  }

  // Clearing the lowest set bit takes one away from the count.
  lemma {:induction false} ClearLowest(v: nat)
    requires v > 0
    ensures And(v, v - 1) < v && BitCount(And(v, v - 1)) == BitCount(v) - 1
  {
    hide And, BitCount;
    var k := v / 2;
    AndStep(v, v - 1);
    CountStep(v);
    if v % 2 == 1 {
      assert (v - 1) / 2 == k && (v - 1) % 2 == 0;
      AndSelf(k);
      CountStep(2 * k);
    } else {
      assert (v - 1) / 2 == k - 1 && (v - 1) % 2 == 1;
      ClearLowest(k);
      CountStep(2 * And(k, k - 1));
    }
  }

  // The k low bits.
  function Low(a: nat, k: nat): (r: nat)
    ensures r < Pow2(k)
  {
    a % Pow2(k)
  }

  // What stands above them.
  function High(a: nat, k: nat): nat {
    Quotient(a, Pow2(k))
  }

  function Quotient(a: nat, size: nat): nat
    requires size > 0
  {
    a / size
  }

  lemma LowStep(a: nat, k: nat)
    ensures Low(a, 0) == 0 && (k > 0 ==> Low(a, k) == 2 * Low(a / 2, k - 1) + a % 2)
  {
    if k > 0 {
      SplitRemainder(a, 2, Pow2(k - 1));
    }
  }

  // Masking with n - j high ones clears the j low bits.
  lemma {:induction false} AndHigh(a: nat, j: nat, n: nat)
    requires j <= n && a < Pow2(n)
    ensures Pow2(j) <= Pow2(n)
    ensures And(a, Pow2(n) - Pow2(j)) == a - Low(a, j)
  {
    hide And, Pow2, Low;
    PowStep(j);
    PowStep(n);
    PowMonotone(j, n);
    LowStep(a, j);
    var mask := Pow2(n) - Pow2(j);
    AndStep(a, mask);
    if n > 0 {
      AndHigh(a / 2, if j == 0 then 0 else j - 1, n - 1);
      if j == 0 {
        LowStep(a / 2, 0);
        assert mask / 2 == Pow2(n - 1) - 1 && mask % 2 == 1;
      } else {
        assert mask / 2 == Pow2(n - 1) - Pow2(j - 1) && mask % 2 == 0;
      }
    }
  }

  lemma HalfMask(j: nat)
    ensures if j == 0 then Pow2(j) == 1 else (Pow2(j) - 1) / 2 == Pow2(j - 1) - 1 && (Pow2(j) - 1) % 2 == 1
  {
    hide Pow2;
    PowStep(j);
  }

  // Masking with j low ones keeps the j low bits.
  lemma {:induction false} AndLow(a: nat, j: nat)
    ensures And(a, Pow2(j) - 1) == Low(a, j)
  {
    hide And, Pow2, Low;
    LowStep(a, j);
    AndStep(a, Pow2(j) - 1);
    HalfMask(j);
    if j > 0 {
      AndLow(a / 2, j - 1);
    }
  }

  // Joining j low ones sets the j low bits.
  lemma {:induction false} OrLow(a: nat, j: nat)
    ensures Or(a, Pow2(j) - 1) == a - Low(a, j) + Pow2(j) - 1
  {
    hide Or, Pow2, Low;
    PowStep(j);
    LowStep(a, j);
    var mask := Pow2(j) - 1;
    if j > 0 {
      OrLow(a / 2, j - 1);
      assert mask / 2 == Pow2(j - 1) - 1 && mask % 2 == 1;
      OrStep(a, mask);
    } else {
      OrNothing(a);
    }
  }

  lemma {:induction false} OnesCounted(j: nat, n: nat)
    requires j <= n
    ensures Pow2(j) <= Pow2(n) && BitCount(Pow2(n) - Pow2(j)) == n - j
  {
    PowMonotone(j, n);
    if j > 0 {
      OnesCounted(j - 1, n - 1);
      var mask := Pow2(n) - Pow2(j);
      assert mask / 2 == Pow2(n - 1) - Pow2(j - 1) && mask % 2 == 0;
    } else if n > 0 {
      OnesCounted(0, n - 1);
      var mask := Pow2(n) - 1;
      assert mask / 2 == Pow2(n - 1) - 1 && mask % 2 == 1;
    }
  }

  // --- numbers joined from high and low bits -----------------------------------------------------------------

  // q in front of the k bits of r.
  function Joined(q: nat, r: nat, k: nat): nat {
    q * Pow2(k) + r
  }

  lemma JoinedStep(q: nat, r: nat, k: nat)
    ensures Joined(q, r, 0) == q + r
    ensures k > 0 ==> Joined(q, r, k) == 2 * Joined(q, r / 2, k - 1) + r % 2
    ensures k > 0 ==> Joined(q, r, k) / 2 == Joined(q, r / 2, k - 1) && Joined(q, r, k) % 2 == r % 2
    ensures k > 0 && r < Pow2(k) ==> r / 2 < Pow2(k - 1)
  {
    if k > 0 {
      Spread(q, 2, Pow2(k - 1));
    }
  }

  lemma {:induction false} AndJoined(q: nat, r: nat, q': nat, r': nat, k: nat)
    requires r < Pow2(k) && r' < Pow2(k)
    ensures And(Joined(q, r, k), Joined(q', r', k)) == Joined(And(q, q'), And(r, r'), k)
  {
    hide And, Joined, Pow2;
    PowStep(0);
    JoinedStep(q, r, k);
    JoinedStep(q', r', k);
    JoinedStep(And(q, q'), And(r, r'), k);
    AndStep(r, r');
    if k > 0 {
      AndJoined(q, r / 2, q', r' / 2, k - 1);
      AndStep(Joined(q, r, k), Joined(q', r', k));
    }
  }

  lemma {:induction false} OrJoined(q: nat, r: nat, q': nat, r': nat, k: nat)
    requires r < Pow2(k) && r' < Pow2(k)
    ensures Or(Joined(q, r, k), Joined(q', r', k)) == Joined(Or(q, q'), Or(r, r'), k)
  {
    hide Or, Joined, Pow2;
    PowStep(0);
    OrNothing(0);
    JoinedStep(q, r, k);
    JoinedStep(q', r', k);
    JoinedStep(Or(q, q'), Or(r, r'), k);
    OrStep(r, r');
    if k > 0 {
      OrJoined(q, r / 2, q', r' / 2, k - 1);
      OrStep(Joined(q, r, k), Joined(q', r', k));
    }
  }

  // Bits above those set so far are added.
  lemma OrAbove(low: nat, high: nat, k: nat)
    requires low < Pow2(k)
    ensures Or(low, Joined(high, 0, k)) == low + Joined(high, 0, k)
  {
    OrJoined(0, low, high, 0, k);
  }

  lemma {:induction false} CountJoined(q: nat, r: nat, k: nat)
    requires r < Pow2(k)
    ensures BitCount(Joined(q, r, k)) == BitCount(q) + BitCount(r)
  {
    hide Joined, Pow2;
    PowStep(0);
    JoinedStep(q, r, k);
    CountStep(r);
    if k > 0 {
      CountJoined(q, r / 2, k - 1);
      CountStep(Joined(q, r, k));
    }
  }

  lemma {:induction false} OrBound(a: nat, b: nat, k: nat)
    requires a < Pow2(k) && b < Pow2(k)
    ensures Or(a, b) < Pow2(k)
  {
    if k > 0 {
      OrBound(a / 2, b / 2, k - 1);
    }
  }
}
