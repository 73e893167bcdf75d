/**
 The scalar field the circuit computes in, as residues modulo `p`, and when an
 equation between residues is an equation between integers.
 */
module Fields {
  import opened Arith

  type Modulus = p: nat | p > 0 witness 1

  // What the protocol needs of the BN254 scalar modulus.
  ghost predicate WideField(p: Modulus) {
    Prime(p) && p > 4 * TWO_64
  }

  predicate IsU64(v: int) {
    0 <= v < TWO_64
  }

  predicate IsI64(v: int) {
    -(TWO_63 as int) <= v < TWO_63
  }

  function Add(p: Modulus, a: nat, b: nat): nat {
    (a + b) % p
  }

  function Sub(p: Modulus, a: nat, b: nat): nat {
    (a - b) % p
  }

  function Mul(p: Modulus, a: nat, b: nat): nat {
    a * b % p
  }

  function Neg(p: Modulus, a: nat): (r: nat)
    requires a < p
  {
    if a == 0 then 0 else p - a
  }

  // An integer read into the field; most are below the modulus already.
  function Residue(p: Modulus, v: nat): (r: nat)
    ensures r < p
  {
    if v < p then v else v % p
  }

  lemma ResidueIsMod(p: Modulus, v: nat)
    ensures Residue(p, v) == v % p
  {
    if v < p {
      SmallMod(v, p);
    }
  }

  function UnsignedAbs(amount: int): nat {
    if amount < 0 then -amount else amount
  }

  // Signed public flow as a field element: the magnitude, negated for a debit.
  function FromSigned(p: Modulus, amount: int): nat {
    var magnitude := Residue(p, UnsignedAbs(amount));
    if amount >= 0 then magnitude else Neg(p, magnitude)
  }

  lemma SignedIsResidue(p: Modulus, amount: int)
    ensures FromSigned(p, amount) == amount % p
  {
    var m := UnsignedAbs(amount);
    ResidueIsMod(p, m);
    if amount < 0 {
      var q, r := m / p, m % p;
      assert m == q * p + r;
      if r == 0 {
        assert amount == (-q) * p + 0;
        DivUnique(amount, p, -q, 0);
      } else {
        assert amount == (-q - 1) * p + (p - r) by {
          assert (-q - 1) * p == -(q * p) - p;
        }
        DivUnique(amount, p, -q - 1, p - r);
      }
    }
  }

  /** Two residues agree exactly when the integers do, if those are closer than `p`. */
  lemma ResidueExact(p: Modulus, a: int, b: int)
    requires -(p as int) < a - b < p
    ensures a % p == b % p <==> a == b
  {
    if a % p == b % p {
      var k := a / p - b / p;
      assert a == a / p * p + a % p && b == b / p * p + b % p;
      assert k * p == a / p * p - b / p * p == a - b;
      MultipleOutside(k, p);
    }
  }

  /** The signed encoding loses nothing on the whole i64 range, its minimum included. */
  lemma FromSignedInjective(p: Modulus, a: int, b: int)
    requires p > TWO_64 && IsI64(a) && IsI64(b)
    ensures FromSigned(p, a) == FromSigned(p, b) <==> a == b
  {
    SignedIsResidue(p, a);
    SignedIsResidue(p, b);
    ResidueExact(p, a, b);
  }

  /** `sum_in + public_amount == sum_out` in the field is conservation of integers. */
  lemma ConservationExact(p: Modulus, in0: nat, in1: nat, amount: int, out0: nat, out1: nat)
    requires p > 4 * TWO_64
    requires IsU64(in0) && IsU64(in1) && IsU64(out0) && IsU64(out1) && IsI64(amount)
    ensures Add(p, Add(p, in0, in1), FromSigned(p, amount)) == Add(p, out0, out1)
       <==> in0 + in1 + amount == out0 + out1
  {
    SignedIsResidue(p, amount);
    ModAdd(in0 + in1, FromSigned(p, amount), p);
    ModAdd(in0 + in1, amount, p);
    ResidueExact(p, in0 + in1 + amount, out0 + out1);
  }

  /** `sum_in != 0` in the field says some input is real. */
  lemma SumNonZeroExact(p: Modulus, in0: nat, in1: nat)
    requires p > 4 * TWO_64 && IsU64(in0) && IsU64(in1)
    ensures Add(p, in0, in1) != 0 <==> in0 > 0 || in1 > 0
  {
    ResidueExact(p, in0 + in1, 0);
  }

  /** `value * (computed - root) == 0` bypasses membership for a zero value and only then. */
  lemma GatedEqualityExact(p: Modulus, value: nat, computed: nat, root: nat)
    requires Prime(p) && value < p && computed < p && root < p
    ensures Mul(p, value, Sub(p, computed, root)) == 0 <==> value == 0 || computed == root
  {
    var difference := Sub(p, computed, root);
    assert difference == 0 <==> computed == root by {
      ResidueExact(p, computed - root, 0);
    }
    if value == 0 || difference == 0 {
      assert value * difference == 0;
    } else {
      assert !Divides(p, value) && !Divides(p, difference) by {
        ResidueExact(p, value, 0);
        ResidueExact(p, difference, 0);
      }
      if Divides(p, value * difference) {
        PrimeDividesFactor(p, value, difference);
      }
    }
  }
}
