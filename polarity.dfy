/**
 The polarity algebra: the two-valued sign that tracks variance while
 structural decomposition crosses contravariant positions.
 */
module Polarities {

  /** A state is either a producer (Pos) or a consumer (Neg) of values. */
  datatype Polarity = Neg | Pos

  /** The enum discriminant the source gives each variant: Neg = -1, Pos = 1. */
  function Discriminant(p: Polarity): (d: int)
    ensures d == -1 || d == 1
  {
    match p
    case Neg => -1
    case Pos => 1
  }

  /** Negation swaps the two variants. */
  function Negate(p: Polarity): (r: Polarity)
    ensures r != p
    ensures Discriminant(r) == -Discriminant(p)
  {
    match p
    case Neg => Pos
    case Pos => Neg
  }

  /** Composition of polarities: Pos keeps the other sign, Neg flips it. */
  function Mul(p: Polarity, q: Polarity): (r: Polarity)
    ensures Discriminant(r) == Discriminant(p) * Discriminant(q)
    ensures r == Pos <==> p == q
  {
    match p
    case Neg => Negate(q)
    case Pos => q
  }

  /** Two polarities are equal exactly when their discriminants are. */
  lemma DiscriminantInjective(p: Polarity, q: Polarity)
    ensures Discriminant(p) == Discriminant(q) <==> p == q
  {
  }

  lemma NegateInvolution(p: Polarity)
    ensures Negate(Negate(p)) == p
  {
  }

  lemma PosLeftIdentity(q: Polarity)
    ensures Mul(Pos, q) == q
  {
  }

  lemma NegLeftNegates(q: Polarity)
    ensures Mul(Neg, q) == Negate(q)
  {
  }

  lemma MulSelf(p: Polarity)
    ensures Mul(p, p) == Pos
  {
  }

  lemma MulCommutative(p: Polarity, q: Polarity)
    ensures Mul(p, q) == Mul(q, p)
  {
  }

  lemma MulAssociative(p: Polarity, q: Polarity, r: Polarity)
    ensures Mul(Mul(p, q), r) == Mul(p, Mul(q, r))
  {
  }

  /** Negation commutes with composition: -(p * q) == (-p) * q == p * (-q). */
  lemma NegateMul(p: Polarity, q: Polarity)
    ensures Negate(Mul(p, q)) == Mul(Negate(p), q)
    ensures Negate(Mul(p, q)) == Mul(p, Negate(q))
  {
  }
}
