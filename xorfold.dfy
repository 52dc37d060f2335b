/**
 * XOR folds: the exclusive-or of the keys selected by a set of flags, the
 * form every Zobrist key takes.  The fold is stated for any operation and
 * unit so that the induction proofs see no machine words; the group laws
 * of `^` on 64-bit words are proved once and handed to them.
 */
module XorFold {
  /** `a ^ b` as a function, so that it can be folded. */
  function Xor(a: bv64, b: bv64): bv64 { a ^ b }

  /** The function is the operator; every law below goes through this one step. */
  lemma XorDef(a: bv64, b: bv64)
    ensures Xor(a, b) == a ^ b
  {
  }

  lemma XorAssoc(a: bv64, b: bv64, c: bv64)
    ensures Xor(Xor(a, b), c) == Xor(a, Xor(b, c))
  {
    NestedLeft(a, b, c);
    NestedRight(a, b, c);
    BitsAssoc(a, b, c);
  }

  lemma BitsAssoc(a: bv64, b: bv64, c: bv64)
    ensures (a ^ b) ^ c == a ^ (b ^ c)
  {
  }

  lemma NestedLeft(a: bv64, b: bv64, c: bv64)
    ensures Xor(Xor(a, b), c) == (a ^ b) ^ c
  {
    XorDef(a, b);
    XorDef(Xor(a, b), c);
  }

  lemma NestedRight(a: bv64, b: bv64, c: bv64)
    ensures Xor(a, Xor(b, c)) == a ^ (b ^ c)
  {
    XorDef(b, c);
    XorDef(a, Xor(b, c));
  }

  lemma XorComm(a: bv64, b: bv64)
    ensures Xor(a, b) == Xor(b, a)
  {
    XorDef(a, b);
    XorDef(b, a);
  }

  lemma XorAssocLaw()
    ensures forall a, b, c :: Xor(Xor(a, b), c) == Xor(a, Xor(b, c))
  {
    forall a, b, c ensures Xor(Xor(a, b), c) == Xor(a, Xor(b, c)) {
      XorAssoc(a, b, c);
    }
  }

  lemma XorCommLaw()
    ensures forall a, b :: Xor(a, b) == Xor(b, a)
  {
    forall a, b ensures Xor(a, b) == Xor(b, a) {
      XorComm(a, b);
    }
  }

  /** op is associative and commutative. */
  ghost predicate Group<T(!new)>(op: (T, T) -> T)
  {
    (forall a, b, c :: op(op(a, b), c) == op(a, op(b, c))) &&
    (forall a, b :: op(a, b) == op(b, a))
  }

  lemma XorGroup()
    ensures Group(Xor)
  {
    XorAssocLaw();
    XorCommLaw();
  }

  lemma XorZero(a: bv64)
    ensures Xor(a, 0) == a
  {
  }

  /** XOR-ing the same key twice changes nothing. */
  lemma XorTwice(a: bv64, b: bv64)
    ensures Xor(Xor(a, b), b) == a
  {
    NestedLeft(a, b, b);
    BitsCancel(a, b);
  }

  lemma BitsCancel(a: bv64, b: bv64)
    ensures (a ^ b) ^ b == a
  {
  }

  /** Moving a key from one operand of op to the other. */
  lemma MoveKey<T(!new)>(op: (T, T) -> T, x: T, k: T, y: T)
    requires Group(op)
    ensures op(op(x, k), y) == op(x, op(y, k))
  {
    assert op(op(x, k), y) == op(x, op(k, y));
  }

  /**
   * op folded, from unit, over keys[base + t] for the t below n that m
   * marks, lowest first.
   */
  function Fold<T>(m: seq<bool>, keys: seq<T>, base: int, n: int, op: (T, T) -> T, unit: T): T
    requires 0 <= n <= |m| && 0 <= base && base + |m| <= |keys|
    decreases n
  {
    if n == 0 then unit
    else if m[n - 1] then op(Fold(m, keys, base, n - 1, op, unit), keys[base + n - 1])
    else Fold(m, keys, base, n - 1, op, unit)
  }

  /** Nothing marked, nothing folded. */
  lemma {:induction false} FoldNone<T>(m: seq<bool>, keys: seq<T>, base: int, n: int, op: (T, T) -> T, unit: T)
    requires 0 <= n <= |m| && 0 <= base && base + |m| <= |keys|
    requires forall t :: 0 <= t < |m| ==> !m[t]
    ensures Fold(m, keys, base, n, op, unit) == unit
    decreases n
  {
    if n > 0 {
      FoldNone(m, keys, base, n - 1, op, unit);
    }
  }

  /**
   * For an associative and commutative op, unmarking position i takes
   * exactly its key out of the fold.
   */
  lemma {:induction false} FoldClear<T(!new)>(m: seq<bool>, keys: seq<T>, base: int, n: int, i: int,
                                        op: (T, T) -> T, unit: T)
    requires 0 <= n <= |m| && 0 <= base && base + |m| <= |keys| && 0 <= i < |m| && m[i]
    requires Group(op)
    ensures i < n ==> op(Fold(m[i := false], keys, base, n, op, unit), keys[base + i]) == Fold(m, keys, base, n, op, unit)
    ensures n <= i ==> Fold(m[i := false], keys, base, n, op, unit) == Fold(m, keys, base, n, op, unit)
    decreases n
  {
    if n > 0 {
      FoldClear(m, keys, base, n - 1, i, op, unit);
    }
  }

  lemma XorSelf(a: bv64)
    ensures Xor(a, a) == 0
  {
  }

  lemma ZeroXor(a: bv64)
    ensures Xor(0, a) == a
  {
  }

  /** op folded, from unit, over xs[0 .. n), first element first. */
  function Combine<T>(xs: seq<T>, n: int, op: (T, T) -> T, unit: T): T
    requires 0 <= n <= |xs|
    decreases n
  {
    if n == 0 then unit else op(Combine(xs, n - 1, op, unit), xs[n - 1])
  }

  /**
   * For an associative and commutative op, combining d into one element
   * combines d into the whole fold, once that element is among the first n.
   */
  lemma {:induction false} CombineDelta<T(!new)>(xs: seq<T>, i: int, d: T, n: int, op: (T, T) -> T, unit: T)
    requires 0 <= i < |xs| && 0 <= n <= |xs|
    requires Group(op)
    ensures Combine(xs[i := op(xs[i], d)], n, op, unit) ==
            if i < n then op(Combine(xs, n, op, unit), d) else Combine(xs, n, op, unit)
    decreases n
  {
    if n > 0 {
      CombineDelta(xs, i, d, n - 1, op, unit);
      if i < n - 1 {
        MoveKey(op, Combine(xs, n - 1, op, unit), d, xs[n - 1]);
      }
    }
  }

  lemma Assoc<T(!new)>(op: (T, T) -> T, x: T, y: T, z: T)
    requires Group(op)
    ensures op(op(x, y), z) == op(x, op(y, z))
  {
  }

  /** Combining k before or after y gives the same. */
  lemma Swap<T(!new)>(op: (T, T) -> T, x: T, k: T, y: T)
    requires Group(op)
    ensures op(op(x, k), y) == op(op(x, y), k)
  {
    assert op(op(x, k), y) == op(x, op(k, y));
    assert op(k, y) == op(y, k);
  }

  /**
   * A key of the shape op(op(op(a, b), c), e): combining d into any one of
   * the four parts combines d into the whole.
   */
  lemma Quad<T(!new)>(op: (T, T) -> T, a: T, b: T, c: T, e: T, d: T)
    requires Group(op)
    ensures op(op(op(op(a, d), b), c), e) == op(op(op(op(a, b), c), e), d)
    ensures op(op(op(a, op(b, d)), c), e) == op(op(op(op(a, b), c), e), d)
    ensures op(op(op(a, b), op(c, d)), e) == op(op(op(op(a, b), c), e), d)
    ensures op(op(op(a, b), c), op(e, d)) == op(op(op(op(a, b), c), e), d)
  {
    Swap(op, a, d, b);
    Swap(op, op(a, b), d, c);
    Swap(op, op(op(a, b), c), d, e);
    Assoc(op, a, b, d);
    Assoc(op, op(a, b), c, d);
    Assoc(op, op(op(a, b), c), e, d);
  }
}
