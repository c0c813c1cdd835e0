/// The `bitflags!` set `SampleType` of the decoder, seen as the list of its
/// flags in bit order: flag k is `bit(k)`.
/// `from_bits_truncate` keeps the bits that name a flag and drops the others;
/// `bits` gives the mask back.
module Flags {

  function Pow2(n: nat): (r: nat)
    ensures r >= 1
  {
    if n == 0 then 1 else 2 * Pow2(n - 1)
  }

  /** Bit k of `bits` is set. */
  predicate BitSet(bits: nat, k: nat)
  {
    (bits / Pow2(k)) % 2 == 1
  }

  /** The first `n` bits of `bits`, lowest first. */
  function FlagsOf(bits: nat, n: nat): (flags: seq<bool>)
    ensures |flags| == n
  {
    if n == 0 then [] else [bits % 2 == 1] + FlagsOf(bits / 2, n - 1)
  }

  /** The mask whose bit k is set exactly when `flags[k]` is. */
  function BitsOf(flags: seq<bool>): (bits: nat)
    ensures bits < Pow2(|flags|)
  {
    if flags == [] then 0 else (if flags[0] then 1 else 0) + 2 * BitsOf(flags[1..])
  }

  lemma MulLe(a: int, b: int, d: nat)
    requires a <= b
    ensures a * d <= b * d
  {
    assert b * d == a * d + (b - a) * d;
  }

  /** Quotient and remainder are the only pair that rebuilds `a`. */
  lemma DivModUnique(a: int, d: nat, q: int, r: int)
    requires d > 0 && 0 <= r < d && a == q * d + r
    ensures a / d == q && a % d == r
  {
    var q0, r0 := a / d, a % d;
    assert a == q0 * d + r0;
    if q0 < q {
      assert (q0 + 1) * d == q0 * d + d;
      MulLe(q0 + 1, q, d);
    } else if q < q0 {
      assert (q + 1) * d == q * d + d;
      MulLe(q + 1, q0, d);
    }
  }

  /** Halving `a`, then splitting by `m`, is splitting `a` by `2 * m`. */
  lemma Halve(a: nat, m: nat)
    requires m > 0
    ensures a / 2 / m == a / (2 * m)
    ensures a % (2 * m) == a % 2 + 2 * (a / 2 % m)
  {
    var q, s := a / 2 / m, a / 2 % m;
    assert a / 2 == q * m + s;
    assert a == 2 * (a / 2) + a % 2;
    assert q * (2 * m) == 2 * (q * m);
    DivModUnique(a, 2 * m, q, 2 * s + a % 2);
  }

  /** Flag k of `FlagsOf(bits, n)` is bit k of `bits`. */
  lemma {:induction false} FlagsOfBitSet(bits: nat, n: nat, k: nat)
    requires k < n
    ensures FlagsOf(bits, n)[k] <==> BitSet(bits, k)
  {
    if k > 0 {
      assert FlagsOf(bits, n)[k] == FlagsOf(bits / 2, n - 1)[k - 1];
      FlagsOfBitSet(bits / 2, n - 1, k - 1);
      Halve(bits, Pow2(k - 1));
    }
  }

  lemma FlagsOfBitSets(bits: nat, n: nat)
    ensures forall k :: 0 <= k < n ==> (FlagsOf(bits, n)[k] <==> BitSet(bits, k))
  {
    forall k | 0 <= k < n
      ensures FlagsOf(bits, n)[k] <==> BitSet(bits, k)
    {
      FlagsOfBitSet(bits, n, k);
    }
  }

  /** `from_bits_truncate` followed by `bits`: the mask keeps its low `n` bits. */
  lemma {:induction false} BitsOfFlagsOf(bits: nat, n: nat)
    ensures BitsOf(FlagsOf(bits, n)) == bits % Pow2(n)
  {
    if n > 0 {
      var flags := FlagsOf(bits, n);
      assert flags[1..] == FlagsOf(bits / 2, n - 1);
      BitsOfFlagsOf(bits / 2, n - 1);
      Halve(bits, Pow2(n - 1));
    }
  }

  /** `bits` followed by `from_bits_truncate`: the flags come back unchanged. */
  lemma {:induction false} FlagsOfBitsOf(flags: seq<bool>)
    ensures FlagsOf(BitsOf(flags), |flags|) == flags
  {
    if flags != [] {
      var rest, low := BitsOf(flags[1..]), if flags[0] then 1 else 0;
      DivModUnique(BitsOf(flags), 2, rest, low);
      FlagsOfBitsOf(flags[1..]);
      assert FlagsOf(BitsOf(flags), |flags|) == [low == 1] + FlagsOf(rest, |flags| - 1);
    }
  }

  /** `1 << n` has exactly one bit set, bit n. */
  lemma {:induction false} Pow2Bit(n: nat, k: nat)
    ensures BitSet(Pow2(n), k) <==> k == n
  {
    if k == 0 {
      if n > 0 {
        assert Pow2(n) == 2 * Pow2(n - 1);
      }
    } else {
      var m := Pow2(k - 1);
      assert Pow2(k) == 2 * m;
      Halve(Pow2(n), m);
      assert BitSet(Pow2(n), k) <==> Pow2(n) / 2 / m % 2 == 1;
      if n == 0 {
        assert Pow2(n) / 2 == 0;
      } else {
        assert Pow2(n) / 2 == Pow2(n - 1);
        Pow2Bit(n - 1, k - 1);
      }
    }
  }
}
