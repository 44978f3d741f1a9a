/** The scalar field of bn256 and the constraint gates the circuits are built from. */
module Field {
  import opened Words

  const P: int := 21888242871839275222246405745257275088548364400416034343698204186575808495617

  newtype F = x: int | 0 <= x < P

  /** Subtraction in the field wraps below zero. */
  function Sub(a: F, b: F): (r: F)
    ensures r as int == if b <= a then a as int - b as int else a as int - b as int + P
  {
    ((a as int - b as int) % P) as F
  }

  function Mul(a: F, b: F): F {
    ((a as int * b as int) % P) as F
  }

  lemma MulByBit(a: F, bit: F)
    requires bit == 0 || bit == 1
    ensures Mul(a, bit) == if bit == 1 then a else 0
  {
    if bit == 1 {
      assert a as int * 1 == a as int;
    }
  }

  function Bit(b: bool): F {
    if b then 1 else 0
  }

  predicate IsBit(a: F) {
    a == 0 || a == 1
  }

  function IsEqual(a: F, b: F): F {
    Bit(a == b)
  }

  /** Disjunction of two bits: a + b - ab. */
  function Or(a: F, b: F): (r: F)
    requires IsBit(a) && IsBit(b)
    ensures r == Bit(a == 1 || b == 1)
  {
    if a == 0 then b else if b == 0 then a else 1
  }

  function Select(a: F, b: F, selector: F): F
    requires IsBit(selector)
  {
    if selector == 1 then a else b
  }

  function ToUint(a: F): Uint256 {
    a as Uint256
  }

  function ToUints(xs: seq<F>): (us: seq<Uint256>)
    ensures |us| == |xs| && forall i :: 0 <= i < |xs| ==> us[i] == ToUint(xs[i])
  {
    seq(|xs|, i requires 0 <= i < |xs| => ToUint(xs[i]))
  }

  lemma ToUintsConcat(xs: seq<F>, ys: seq<F>)
    ensures ToUints(xs + ys) == ToUints(xs) + ToUints(ys)
  {
  }

  lemma ToUintsInjective(xs: seq<F>, ys: seq<F>)
    requires ToUints(xs) == ToUints(ys)
    ensures xs == ys
  {
    forall i | 0 <= i < |xs|
      ensures xs[i] == ys[i]
    {
      assert ToUints(xs)[i] == ToUints(ys)[i];
    }
  }

  /** A constraint system under one witness assignment: constraints are only ever added, and
      `satisfied` says whether the assignment meets all of them so far. */
  class Context {
    var satisfied: bool

    constructor ()
      ensures satisfied
    {
      satisfied := true;
    }

    method Require(holds: bool)
      modifies this
      ensures satisfied == (old(satisfied) && holds)
    {
      satisfied := satisfied && holds;
    }

    method RangeCheck(a: F, bits: nat)
      modifies this
      ensures satisfied == (old(satisfied) && a as int < Pow2(bits))
    {
      Require(a as int < Pow2(bits));
    }

    method CheckLessThan(a: F, b: F)
      modifies this
      ensures satisfied == (old(satisfied) && a < b)
    {
      Require(a < b);
    }

    /** `check_less_than_safe`: the bound is a circuit constant. */
    method CheckLessThanSafe(a: F, bound: nat)
      modifies this
      ensures satisfied == (old(satisfied) && a as int < bound)
    {
      Require(a as int < bound);
    }

    method AssertIsConst(a: F, constant: F)
      modifies this
      ensures satisfied == (old(satisfied) && a == constant)
    {
      Require(a == constant);
    }

    method ConstrainEqual(a: F, b: F)
      modifies this
      ensures satisfied == (old(satisfied) && a == b)
    {
      Require(a == b);
    }
  }
}
