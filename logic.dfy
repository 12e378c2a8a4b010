/** The `Bool` extension (Utils.swift lines 233-248): implication and
    exclusive or, each as a method and as an operator. */
module Logic {

  /** `a.implies(b)`, written as `!a || b`. */
  function Implies(a: bool, b: bool): (r: bool)
    ensures r <==> (a ==> b)
    ensures !r <==> a && !b
  {
    !a || b
  }

  /** `a ⇒ b`, defined as `a.implies(b)`. */
  function ImpliesOperator(lhs: bool, rhs: bool): (r: bool)
    ensures r == Implies(lhs, rhs)
  {
    Implies(lhs, rhs)
  }

  /** `a.xOr(b)`, written as `(a && !b) || (!a && b)`. */
  function Xor(a: bool, b: bool): (r: bool)
    ensures r <==> a != b
  {
    (a && !b) || (!a && b)
  }

  /** `a ⊕ b`, defined as `a.xOr(b)`. */
  function XorOperator(lhs: bool, rhs: bool): (r: bool)
    ensures r == Xor(lhs, rhs)
  {
    Xor(lhs, rhs)
  }

  /** Exclusive or is commutative and associative, false on equal inputs,
      and is "one implies the other fails in one direction". */
  lemma XorLaws(a: bool, b: bool, c: bool)
    ensures Xor(a, b) == Xor(b, a)
    ensures Xor(Xor(a, b), c) == Xor(a, Xor(b, c))
    ensures !Xor(a, a)
    ensures Xor(a, b) == !(Implies(a, b) && Implies(b, a))
  {
  }
}
