/**
 * Scalars of the BLS12-381 scalar field, as the pairing library encodes
 * them: integers modulo the prime group order r, serialised as 32
 * big-endian bytes.
 */
module Scalars {
  import opened Wrappers

  /** The order r of the prime-order subgroups G1 and G2 of BLS12-381. */
  const R: nat := 0x73eda753299d7d483339d80809a1d80553bda402fffe5bfeffffffff00000001

  /** Length of a serialised scalar. */
  const ScalarSize: nat := 32

  newtype Byte = x: int | 0 <= x < 256

  /** A reduced field element. */
  type Scalar = x: int | 0 <= x < R

  /** Field multiplication (the library's `Scalar.Mul`). */
  function Mul(a: Scalar, b: Scalar): Scalar
  {
    (a * b) % R
  }

  /** `s` raised to the `k`-th power in the field. */
  function Pow(s: Scalar, k: nat): Scalar
  {
    if k == 0 then 1 else Mul(Pow(s, k - 1), s)
  }

  /** The unsigned integer that `b` denotes, most significant byte first. */
  function BigEndian(b: seq<Byte>): nat
  {
    if b == [] then 0 else BigEndian(b[..|b| - 1]) * 256 + b[|b| - 1] as int
  }

  /**
   * The library's `Scalar.Deserialize`: exactly 32 bytes whose big-endian
   * value v satisfies 0 < v < r; anything else yields nil (None).
   */
  function Deserialize(b: seq<Byte>): (s: Option<Scalar>)
    ensures s.Some? ==> |b| == ScalarSize && s.value != 0
  {
    if |b| == ScalarSize && 0 < BigEndian(b) < R then Some(BigEndian(b)) else None
  }

  /** The 32-byte encoding of the scalar one built at contribution.go:167-168. */
  function OneBytes(): (b: seq<Byte>)
    ensures |b| == ScalarSize
  {
    seq(ScalarSize, i => if i == ScalarSize - 1 then 1 else 0)
  }

  lemma {:induction false} ZerosDenoteZero(b: seq<Byte>)
    requires forall i :: 0 <= i < |b| ==> b[i] == 0
    ensures BigEndian(b) == 0
  {
    if b != [] {
      ZerosDenoteZero(b[..|b| - 1]);
    }
  }

  /** Deserialising the encoding of one always succeeds, with value one. */
  lemma OneDeserializes()
    ensures Deserialize(OneBytes()) == Some(1)
  {
    var b := OneBytes();
    ZerosDenoteZero(b[..|b| - 1]);
  }

  /** Multiplying by one leaves a scalar unchanged; `Pow(s, 1) == s`. */
  lemma PowOne(s: Scalar)
    ensures Pow(s, 1) == s
  {
  }

  // Field laws used to show that an honest contribution keeps the powers
  // a geometric progression.

  lemma ModAddMultiple(y: int, k: nat)
    ensures (y + k * R) % R == y % R
  {
  }

  lemma {:induction false} ModMulLeft(x: nat, c: nat)
    ensures ((x % R) * c) % R == (x * c) % R
  {
    var q, m := x / R, x % R;
    assert x == q * R + m;
    assert x * c == (q * c) * R + m * c;
    ModAddMultiple(m * c, q * c);
  }

  lemma MulComm(a: Scalar, b: Scalar)
    ensures Mul(a, b) == Mul(b, a)
  {
  }

  lemma {:induction false} MulAssoc(a: Scalar, b: Scalar, c: Scalar)
    ensures Mul(Mul(a, b), c) == Mul(a, Mul(b, c))
  {
    ModMulLeft(a * b, c);
    ModMulLeft(b * c, a);
    assert (a * b) * c == (b * c) * a;
  }

  /** Regrouping a product of four factors. */
  lemma {:induction false} MulSwapMiddle(a: Scalar, b: Scalar, c: Scalar, d: Scalar)
    ensures Mul(Mul(a, b), Mul(c, d)) == Mul(Mul(a, c), Mul(b, d))
  {
    calc {
      Mul(Mul(a, b), Mul(c, d));
      { MulAssoc(a, b, Mul(c, d)); }
      Mul(a, Mul(b, Mul(c, d)));
      { MulAssoc(b, c, d); MulComm(b, c); MulAssoc(c, b, d); }
      Mul(a, Mul(c, Mul(b, d)));
      { MulAssoc(a, c, Mul(b, d)); }
      Mul(Mul(a, c), Mul(b, d));
    }
  }

  lemma MulOne(x: Scalar)
    ensures Mul(x, 1) == x
  {
  }

  /** t^a * t^b == t^(a+b). */
  lemma {:induction false} PowAdd(t: Scalar, a: nat, b: nat)
    ensures Mul(Pow(t, a), Pow(t, b)) == Pow(t, a + b)
  {
    if b == 0 {
      MulOne(Pow(t, a));
    } else {
      calc {
        Mul(Pow(t, a), Pow(t, b));
        Mul(Pow(t, a), Mul(Pow(t, b - 1), t));
        { MulAssoc(Pow(t, a), Pow(t, b - 1), t); }
        Mul(Mul(Pow(t, a), Pow(t, b - 1)), t);
        { PowAdd(t, a, b - 1); }
        Mul(Pow(t, a + b - 1), t);
        Pow(t, a + b);
      }
    }
  }

  /** (t*s)^k == t^k * s^k. */
  lemma {:induction false} PowMul(t: Scalar, s: Scalar, k: nat)
    ensures Pow(Mul(t, s), k) == Mul(Pow(t, k), Pow(s, k))
  {
    if k > 0 {
      calc {
        Pow(Mul(t, s), k);
        Mul(Pow(Mul(t, s), k - 1), Mul(t, s));
        { PowMul(t, s, k - 1); }
        Mul(Mul(Pow(t, k - 1), Pow(s, k - 1)), Mul(t, s));
        { MulSwapMiddle(Pow(t, k - 1), Pow(s, k - 1), t, s); }
        Mul(Pow(t, k), Pow(s, k));
      }
    }
  }
}
