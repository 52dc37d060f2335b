/**
 * Magic bitboards: the per-square check that a magic number maps no two
 * occupancy variants with different attacks to one slot, the filling of
 * the attack table, and the lookup.
 */
module Magic {
  import opened Bits
  import opened Squares
  import opened Sliders
  import opened Occupancy
  import opened MaskCount

  /** The attacks of the slider kind chosen by bishop. */
  predicate SliderAttack(bishop: bool, s: Square, block: Bitboard, t: Square)
  {
    if bishop then BishopAttack(s, block, t) else RookAttack(s, block, t)
  }

  /** The relevant-occupancy mask of the slider kind chosen by bishop. */
  predicate SliderMask(bishop: bool, s: Square, t: Square)
  {
    if bishop then BishopMask(s, t) else RookMask(s, t)
  }

  /** `bishop ? mask_bishop_attacks_occupancy(square) : mask_rook_attacks_occupancy(square)`. */
  method MaskFor(bishop: bool, s: Square) returns (mask: Bitboard)
    ensures forall t: Square :: Bit(mask, t) <==> SliderMask(bishop, s, t)
  {
    if bishop {
      mask := MaskBishopOccupancy(s);
    } else {
      mask := MaskRookOccupancy(s);
    }
  }

  /** `bishop ? get_bishop_attacks(square, block) : get_rook_attacks(square, block)`. */
  method AttacksFor(bishop: bool, s: Square, block: Bitboard) returns (attacks: Bitboard)
    ensures forall t: Square :: Bit(attacks, t) <==> SliderAttack(bishop, s, block, t)
  {
    if bishop {
      attacks := GetBishopAttacks(s, block);
    } else {
      attacks := GetRookAttacks(s, block);
    }
  }

  /** occ is occupancy variant number i of the mask. */
  ghost predicate IsVariant(i: nat, mask: Bitboard, bits: nat, occ: Bitboard)
  {
    forall t: Square :: Bit(occ, t) <==> Picked(i, mask, bits, t)
  }

  /** att is the attack set of the slider on s through the blockers occ. */
  ghost predicate IsAttackSet(bishop: bool, s: Square, occ: Bitboard, att: Bitboard)
  {
    forall t: Square :: Bit(att, t) <==> SliderAttack(bishop, s, occ, t)
  }

  lemma {:induction false} Pow2Mono(b: nat, c: nat)
    requires b <= c
    ensures Pow2(b) <= Pow2(c)
    decreases c - b
  {
    if b < c {
      Pow2Mono(b, c - 1);
    }
  }

  lemma Pow2Table(bits: nat)
    requires bits <= 12
    ensures Pow2(bits) <= 4096
  {
    Pow2Mono(bits, 12);
    assert Pow2(3) == 8;
    assert Pow2(12) == 4096 by { Pow2Split(3, 9); }
  }

  /** Entries below n of occs and atts are the variants and their attacks. */
  ghost predicate VariantsUpTo(s: Square, bishop: bool, mask: Bitboard, bits: nat,
                               occs: array<Bitboard>, atts: array<Bitboard>, n: int)
    reads occs, atts
  {
    n <= occs.Length && n <= atts.Length &&
    forall i :: 0 <= i < n ==>
      IsVariant(i, mask, bits, occs[i]) && IsAttackSet(bishop, s, occs[i], atts[i])
  }

  /** One round of the variants loop: store variant index and its attacks. */
  method VariantStep(s: Square, bishop: bool, mask: Bitboard, bits: nat,
                     occs: array<Bitboard>, atts: array<Bitboard>, index: nat)
    requires occs != atts && index < occs.Length && index < atts.Length
    requires bits <= PopCount(mask)
    requires VariantsUpTo(s, bishop, mask, bits, occs, atts, index)
    modifies occs, atts
    ensures VariantsUpTo(s, bishop, mask, bits, occs, atts, index + 1)
  {
    var occ := SetOccupancy(index, bits, mask);
    var att := AttacksFor(bishop, s, occ);
    occs[index] := occ;
    atts[index] := att;
    assert IsVariant(index, mask, bits, occs[index]);
    assert IsAttackSet(bishop, s, occs[index], atts[index]);
  }

  /**
   * The first loop of `find_magic_number`: occupancy variant number index
   * and its attack set, for every index below `1 << relevant_bits`.
   */
  method Variants(s: Square, bishop: bool, mask: Bitboard, bits: nat)
    returns (occs: array<Bitboard>, atts: array<Bitboard>)
    requires bits <= 12 && bits <= PopCount(mask)
    ensures fresh(occs) && fresh(atts) && occs.Length == 4096 && atts.Length == 4096
    ensures Pow2(bits) <= 4096
    ensures VariantsUpTo(s, bishop, mask, bits, occs, atts, Pow2(bits))
  {
    occs := new Bitboard[4096];
    atts := new Bitboard[4096];
    Pow2Table(bits);
    var n := Pow2(bits);
    for index := 0 to n
      invariant VariantsUpTo(s, bishop, mask, bits, occs, atts, index)
    {
      VariantStep(s, bishop, mask, bits, occs, atts, index);
    }
  }

  // ---------------------------------------------------------------------
  // The acceptance test of a candidate magic number
  // ---------------------------------------------------------------------

  /** 2^64: the unsigned 64-bit product wraps modulo this. */
  const Word := 0x1_0000_0000_0000_0000

  /**
   * `magic_index = (int)((occupancy * magic_number) >> (64 - relevant_bits))`:
   * the 64-bit wrapped product, shifted right so that its top
   * relevant_bits bits remain.  The bishop rows have 512 entries, enough
   * for the at most 9 relevant bits of a bishop.
   */
  function Index(occ: Bitboard, magic: Bitboard, bits: nat): (k: int)
    requires 1 <= bits <= 12
    ensures 0 <= k < Pow2(bits)
    ensures k < 4096 && (bits <= 9 ==> k < 512)
  {
    var product := (occ as int * magic as int) % Word;
    IndexBound(product, bits);
    Shift(product, 64 - bits)
  }

  lemma IndexBound(product: nat, bits: nat)
    requires product < Word && 1 <= bits <= 12
    ensures Shift(product, 64 - bits) < Pow2(bits)
    ensures Pow2(bits) <= 4096 && (bits <= 9 ==> Pow2(bits) <= 512)
  {
    WordIsPow2();
    ShiftBelow(product, 64 - bits, bits);
    Pow2Table(bits);
    if bits <= 9 {
      Pow2Mono(bits, 9);
      assert Pow2(9) == 512 by { Pow2Split(3, 6); }
    }
  }

  lemma WordIsPow2()
    ensures Pow2(64) == Word
  {
    assert Pow2(2) == 4;
    assert Pow2(4) == 16 by { Pow2Split(2, 2); }
    assert Pow2(8) == 256 by { Pow2Split(4, 4); }
    assert Pow2(16) == 0x1_0000 by { Pow2Split(8, 8); }
    assert Pow2(24) == 0x100_0000 by { Pow2Split(16, 8); }
    assert Pow2(32) == 0x1_0000_0000 by { Pow2Split(24, 8); }
    assert Pow2(40) == 0x100_0000_0000 by { Pow2Split(32, 8); }
    assert Pow2(48) == 0x1_0000_0000_0000 by { Pow2Split(40, 8); }
    assert Pow2(56) == 0x100_0000_0000_0000 by { Pow2Split(48, 8); }
    Pow2Split(56, 8);
  }

  lemma {:induction false} Pow2Split(a: nat, b: nat)
    ensures Pow2(a + b) == Pow2(a) * Pow2(b)
    decreases b
  {
    if b > 0 {
      Pow2Split(a, b - 1);
      assert Pow2(a + b) == 2 * Pow2(a + b - 1);
    }
  }

  /** Shifting a number below 2^(n + c) right by c leaves a number below 2^n. */
  lemma {:induction false} ShiftBelow(x: nat, c: nat, n: nat)
    requires x < Pow2(n + c)
    ensures Shift(x, c) < Pow2(n)
    decreases c
  {
    if c > 0 {
      assert Pow2(n + c) == 2 * Pow2(n + c - 1);
      ShiftBelow(x / 2, c - 1, n);
    }
  }

  /** No two occupancies with non-empty, different attack sets share a slot. */
  ghost predicate CollisionFree(occs: seq<Bitboard>, atts: seq<Bitboard>, magic: Bitboard, bits: nat)
    requires |occs| == |atts| && 1 <= bits <= 12
  {
    forall i, j ::
      (0 <= i < |occs| && 0 <= j < |occs| && atts[i] != 0 && atts[j] != 0 &&
       Index(occs[i], magic, bits) == Index(occs[j], magic, bits)) ==> atts[i] == atts[j]
  }

  /** Two occupancies with different attack sets share a slot. */
  ghost predicate Collides(occs: seq<Bitboard>, atts: seq<Bitboard>, magic: Bitboard, bits: nat)
    requires |occs| == |atts| && 1 <= bits <= 12
  {
    exists i, j :: 0 <= i < j < |occs| &&
      Index(occs[i], magic, bits) == Index(occs[j], magic, bits) && atts[i] != atts[j]
  }

  /** What the test loop knows after the first index entries. */
  ghost predicate UsedInv(occs: seq<Bitboard>, atts: seq<Bitboard>, magic: Bitboard, bits: nat,
                          used: array<Bitboard>, index: int)
    requires |occs| == |atts| && 1 <= bits <= 12
    reads used
  {
    used.Length == 4096 && 0 <= index <= |occs| &&
    (forall i :: 0 <= i < index && atts[i] != 0 ==> used[Index(occs[i], magic, bits)] == atts[i]) &&
    (forall k :: 0 <= k < 4096 && used[k] != 0 ==>
       exists i :: 0 <= i < index && Index(occs[i], magic, bits) == k && atts[i] == used[k])
  }

  /** `for (i = 0; i < 4096; i++) used_attacks[i] = 0ULL;` */
  method ResetUsed(used: array<Bitboard>)
    modifies used
    ensures forall k :: 0 <= k < used.Length ==> used[k] == 0
  {
    for k := 0 to used.Length
      invariant forall k' :: 0 <= k' < k ==> used[k'] == 0
    {
      used[k] := 0;
    }
  }

  /**
   * One round of the test loop: an empty slot takes the attacks of this
   * occupancy; an occupied slot holding other attacks is a failure.
   */
  method UseSlot(occs: seq<Bitboard>, atts: seq<Bitboard>, magic: Bitboard, bits: nat,
                 used: array<Bitboard>, index: int) returns (fail: bool)
    requires |occs| == |atts| && 1 <= bits <= 12
    requires UsedInv(occs, atts, magic, bits, used, index) && index < |occs|
    modifies used
    ensures !fail ==> UsedInv(occs, atts, magic, bits, used, index + 1)
    ensures fail ==> Collides(occs, atts, magic, bits)
  {
    var k := Index(occs[index], magic, bits);
    fail := false;
    if used[k] == 0 {
      used[k] := atts[index];
      UsedStore(occs, atts, magic, bits, old(used[..]), used, index, k);
    } else if used[k] != atts[index] {
      fail := true;
      var i :| 0 <= i < index && Index(occs[i], magic, bits) == k && atts[i] == used[k];
      assert Index(occs[i], magic, bits) == Index(occs[index], magic, bits) && atts[i] != atts[index];
    } else {
      UsedKeep(occs, atts, magic, bits, used, index, k);
    }
  }

  lemma UsedStore(occs: seq<Bitboard>, atts: seq<Bitboard>, magic: Bitboard, bits: nat,
                  before: seq<Bitboard>, used: array<Bitboard>, index: int, k: int)
    requires |occs| == |atts| && 1 <= bits <= 12 && 0 <= index < |occs|
    requires |before| == used.Length == 4096 && k == Index(occs[index], magic, bits)
    requires before[k] == 0 && used[k] == atts[index]
    requires forall k' :: 0 <= k' < 4096 && k' != k ==> used[k'] == before[k']
    requires forall i :: 0 <= i < index && atts[i] != 0 ==> before[Index(occs[i], magic, bits)] == atts[i]
    requires forall k' :: 0 <= k' < 4096 && before[k'] != 0 ==>
               exists i :: 0 <= i < index && Index(occs[i], magic, bits) == k' && atts[i] == before[k']
    ensures UsedInv(occs, atts, magic, bits, used, index + 1)
  {
    forall k' | 0 <= k' < 4096 && used[k'] != 0
      ensures exists i :: 0 <= i < index + 1 && Index(occs[i], magic, bits) == k' && atts[i] == used[k']
    {
      if k' == k {
        assert Index(occs[index], magic, bits) == k' && atts[index] == used[k'];
      } else {
        var i :| 0 <= i < index && Index(occs[i], magic, bits) == k' && atts[i] == before[k'];
        assert Index(occs[i], magic, bits) == k' && atts[i] == used[k'];
      }
    }
  }

  lemma UsedKeep(occs: seq<Bitboard>, atts: seq<Bitboard>, magic: Bitboard, bits: nat,
                 used: array<Bitboard>, index: int, k: int)
    requires |occs| == |atts| && 1 <= bits <= 12 && 0 <= index < |occs|
    requires UsedInv(occs, atts, magic, bits, used, index)
    requires k == Index(occs[index], magic, bits) && used[k] == atts[index]
    ensures UsedInv(occs, atts, magic, bits, used, index + 1)
  {
    forall k' | 0 <= k' < 4096 && used[k'] != 0
      ensures exists i :: 0 <= i < index + 1 && Index(occs[i], magic, bits) == k' && atts[i] == used[k']
    {
      var i :| 0 <= i < index && Index(occs[i], magic, bits) == k' && atts[i] == used[k'];
      assert 0 <= i < index + 1;
    }
  }

  /** After the whole loop, every slot agrees with the attacks stored in it. */
  lemma UsedDone(occs: seq<Bitboard>, atts: seq<Bitboard>, magic: Bitboard, bits: nat,
                 used: array<Bitboard>)
    requires |occs| == |atts| && 1 <= bits <= 12
    requires UsedInv(occs, atts, magic, bits, used, |occs|)
    ensures CollisionFree(occs, atts, magic, bits)
  {
  }

  /**
   * The test loop of `find_magic_number` for one candidate: it fails only
   * on a real collision, and passes only if there is none between
   * occupancies with non-empty attacks.
   */
  method CheckMagic(occs: seq<Bitboard>, atts: seq<Bitboard>, magic: Bitboard, bits: nat)
    returns (fail: bool)
    requires |occs| == |atts| && 1 <= bits <= 12
    ensures !fail ==> CollisionFree(occs, atts, magic, bits)
    ensures fail ==> Collides(occs, atts, magic, bits)
  {
    var used := new Bitboard[4096];
    ResetUsed(used);
    fail := false;
    var index := 0;
    while index < |occs|
      invariant UsedInv(occs, atts, magic, bits, used, index)
      decreases |occs| - index
    {
      fail := UseSlot(occs, atts, magic, bits, used, index);
      if fail {
        return;
      }
      index := index + 1;
    }
    UsedDone(occs, atts, magic, bits, used);
  }

  /** Among occupancies with non-empty attacks, a collision is exactly a failure of collision-freedom. */
  lemma CollidesIffNotFree(occs: seq<Bitboard>, atts: seq<Bitboard>, magic: Bitboard, bits: nat)
    requires |occs| == |atts| && 1 <= bits <= 12
    requires forall i :: 0 <= i < |atts| ==> atts[i] != 0
    ensures Collides(occs, atts, magic, bits) <==> !CollisionFree(occs, atts, magic, bits)
  {
    if Collides(occs, atts, magic, bits) {
      var i, j :| 0 <= i < j < |occs| &&
        Index(occs[i], magic, bits) == Index(occs[j], magic, bits) && atts[i] != atts[j];
      CollisionBreaks(occs, atts, magic, bits, i, j);
    }
    if !CollisionFree(occs, atts, magic, bits) {
      var i, j :| 0 <= i < |occs| && 0 <= j < |occs| &&
        Index(occs[i], magic, bits) == Index(occs[j], magic, bits) && atts[i] != atts[j];
      if i < j {
        CollisionFound(occs, atts, magic, bits, i, j);
      } else {
        CollisionFound(occs, atts, magic, bits, j, i);
      }
    }
  }

  lemma CollisionBreaks(occs: seq<Bitboard>, atts: seq<Bitboard>, magic: Bitboard, bits: nat, i: int, j: int)
    requires |occs| == |atts| && 1 <= bits <= 12 && 0 <= i < |occs| && 0 <= j < |occs|
    requires atts[i] != 0 && atts[j] != 0 && atts[i] != atts[j]
    requires Index(occs[i], magic, bits) == Index(occs[j], magic, bits)
    ensures !CollisionFree(occs, atts, magic, bits)
  {
  }

  lemma CollisionFound(occs: seq<Bitboard>, atts: seq<Bitboard>, magic: Bitboard, bits: nat, i: int, j: int)
    requires |occs| == |atts| && 1 <= bits <= 12 && 0 <= i < j < |occs|
    requires Index(occs[i], magic, bits) == Index(occs[j], magic, bits) || Index(occs[j], magic, bits) == Index(occs[i], magic, bits)
    requires atts[i] != atts[j]
    ensures Collides(occs, atts, magic, bits)
  {
  }

  /** The number of candidates `find_magic_number` tries before giving up. */
  const Attempts := 100000000

  /** Every one of the first n candidates collides. */
  ghost predicate AllCollide(occs: seq<Bitboard>, atts: seq<Bitboard>, bits: nat, candidates: seq<Bitboard>, n: int)
    requires |occs| == |atts| && 1 <= bits <= 12
  {
    forall c :: 0 <= c < n && c < |candidates| ==> Collides(occs, atts, candidates[c], bits)
  }

  /**
   * magic is the first of the first Attempts candidates that is
   * collision-free, or 0 when every one of them collides.
   */
  ghost predicate FirstPassing(occs: seq<Bitboard>, atts: seq<Bitboard>, bits: nat, candidates: seq<Bitboard>,
                               magic: Bitboard)
    requires |occs| == |atts| && 1 <= bits <= 12
  {
    (exists c :: 0 <= c < |candidates| && c < Attempts && magic == candidates[c] &&
       CollisionFree(occs, atts, magic, bits) && AllCollide(occs, atts, bits, candidates, c)) ||
    (magic == 0 && AllCollide(occs, atts, bits, candidates, Attempts))
  }

  /** The candidate loop of `find_magic_number`. */
  method SearchCandidates(occs: seq<Bitboard>, atts: seq<Bitboard>, bits: nat, candidates: seq<Bitboard>)
    returns (magic: Bitboard)
    requires |occs| == |atts| && 1 <= bits <= 12
    ensures FirstPassing(occs, atts, bits, candidates, magic)
  {
    var rc := 0;
    while rc < |candidates| && rc < Attempts
      invariant 0 <= rc <= Attempts && AllCollide(occs, atts, bits, candidates, rc)
      decreases Attempts - rc
    {
      var fail := CheckMagic(occs, atts, candidates[rc], bits);
      if !fail {
        magic := candidates[rc];
        FirstPassingAt(occs, atts, bits, candidates, magic, rc);
        return;
      }
      AllCollideNext(occs, atts, bits, candidates, rc);
      rc := rc + 1;
    }
    magic := 0;
    NonePassing(occs, atts, bits, candidates, rc);
  }

  lemma FirstPassingAt(occs: seq<Bitboard>, atts: seq<Bitboard>, bits: nat, candidates: seq<Bitboard>,
                       magic: Bitboard, c: int)
    requires |occs| == |atts| && 1 <= bits <= 12
    requires 0 <= c < |candidates| && c < Attempts && magic == candidates[c]
    requires CollisionFree(occs, atts, magic, bits) && AllCollide(occs, atts, bits, candidates, c)
    ensures FirstPassing(occs, atts, bits, candidates, magic)
  {
  }

  lemma AllCollideNext(occs: seq<Bitboard>, atts: seq<Bitboard>, bits: nat, candidates: seq<Bitboard>, n: int)
    requires |occs| == |atts| && 1 <= bits <= 12 && 0 <= n < |candidates|
    requires AllCollide(occs, atts, bits, candidates, n) && Collides(occs, atts, candidates[n], bits)
    ensures AllCollide(occs, atts, bits, candidates, n + 1)
  {
  }

  lemma NonePassing(occs: seq<Bitboard>, atts: seq<Bitboard>, bits: nat, candidates: seq<Bitboard>, n: int)
    requires |occs| == |atts| && 1 <= bits <= 12
    requires n == Attempts || n >= |candidates|
    requires AllCollide(occs, atts, bits, candidates, n)
    ensures FirstPassing(occs, atts, bits, candidates, 0)
  {
  }

  /** occs and atts list the occupancy variants of mask and their attack sets. */
  ghost predicate VariantSeqs(s: Square, bishop: bool, mask: Bitboard, bits: nat,
                              occs: seq<Bitboard>, atts: seq<Bitboard>)
  {
    |occs| == |atts| == Pow2(bits) &&
    forall i :: 0 <= i < Pow2(bits) ==>
      IsVariant(i, mask, bits, occs[i]) && IsAttackSet(bishop, s, occs[i], atts[i])
  }

  /** The filled prefixes of the variant arrays, taken as sequences. */
  lemma VariantsAsSeqs(s: Square, bishop: bool, mask: Bitboard, bits: nat,
                       occArr: array<Bitboard>, attArr: array<Bitboard>,
                       occs: seq<Bitboard>, atts: seq<Bitboard>)
    requires VariantsUpTo(s, bishop, mask, bits, occArr, attArr, Pow2(bits))
    requires occs == occArr[..Pow2(bits)] && atts == attArr[..Pow2(bits)]
    ensures VariantSeqs(s, bishop, mask, bits, occs, atts)
  {
    forall i | 0 <= i < Pow2(bits)
      ensures IsVariant(i, mask, bits, occs[i]) && IsAttackSet(bishop, s, occs[i], atts[i])
    {
      assert occs[i] == occArr[i] && atts[i] == attArr[i];
    }
  }

  /**
   * `find_magic_number`.  The random candidates are a parameter: the
   * result is the first of them that passes the test, or 0 when none of
   * the first Attempts does.
   */
  method FindMagicNumber(s: Square, bits: nat, bishop: bool, candidates: seq<Bitboard>)
    returns (magic: Bitboard, ghost mask: Bitboard, ghost occs: seq<Bitboard>, ghost atts: seq<Bitboard>)
    requires RelevantBits(bishop, s, bits) && 1 <= bits <= 12
    ensures forall t: Square :: Bit(mask, t) <==> SliderMask(bishop, s, t)
    ensures VariantSeqs(s, bishop, mask, bits, occs, atts)
    ensures FirstPassing(occs, atts, bits, candidates, magic)
  {
    var attackMask := MaskFor(bishop, s);
    mask := attackMask;
    RelevantBitsOf(bishop, s, bits, attackMask);
    var occArr, attArr := Variants(s, bishop, attackMask, bits);
    var occupancies, attacks := occArr[..Pow2(bits)], attArr[..Pow2(bits)];
    occs, atts := occupancies, attacks;
    VariantsAsSeqs(s, bishop, attackMask, bits, occArr, attArr, occs, atts);
    magic := SearchCandidates(occupancies, attacks, bits, candidates);
  }

  /** bits is the number of relevant squares of the slider on s. */
  ghost predicate RelevantBits(bishop: bool, s: Square, bits: nat)
  {
    exists m: Bitboard :: (forall t: Square :: Bit(m, t) <==> SliderMask(bishop, s, t)) && PopCount(m) == bits
  }

  lemma RelevantBitsOf(bishop: bool, s: Square, bits: nat, mask: Bitboard)
    requires RelevantBits(bishop, s, bits)
    requires forall t: Square :: Bit(mask, t) <==> SliderMask(bishop, s, t)
    ensures PopCount(mask) == bits
  {
    var m: Bitboard :| (forall t: Square :: Bit(m, t) <==> SliderMask(bishop, s, t)) && PopCount(m) == bits;
    Extensionality(m, mask);
  }

  /** The top byte of a product `attack_mask * magic_number`. */
  function TopByte(product: Bitboard): (r: Bitboard)
    ensures forall t: Square :: t < 8 ==> !Bit(r, t)
  {
    product & 0xFF00000000000000
  }

  /**
   * The candidate test of `find_magic_number` in the modular version:
   * a candidate whose product with the mask has fewer than 6 bits in the
   * top byte is skipped, and the test loop stops at the first failure.
   */
  method CheckMagicModular(mask: Bitboard, occs: seq<Bitboard>, atts: seq<Bitboard>, magic: Bitboard, bits: nat)
    returns (accepted: bool)
    requires |occs| == |atts| && 1 <= bits <= 12
    ensures accepted ==> PopCount(TopByte(mask * magic)) >= 6 && CollisionFree(occs, atts, magic, bits)
    ensures !accepted ==> PopCount(TopByte(mask * magic)) < 6 || Collides(occs, atts, magic, bits)
  {
    var top := CountBits(TopByte(mask * magic));
    if top < 6 {
      return false;
    }
    var used := new Bitboard[4096];
    ResetUsed(used);
    var fail := false;
    var index := 0;
    while !fail && index < |occs|
      invariant 0 <= index <= |occs|
      invariant !fail ==> UsedInv(occs, atts, magic, bits, used, index)
      invariant fail ==> Collides(occs, atts, magic, bits)
      decreases |occs| - index
    {
      fail := UseSlot(occs, atts, magic, bits, used, index);
      index := index + 1;
    }
    if !fail {
      UsedDone(occs, atts, magic, bits, used);
    }
    accepted := !fail;
  }

  // ---------------------------------------------------------------------
  // Why a lookup through the mask is enough
  // ---------------------------------------------------------------------

  /** A ray depends on the blockers only through the squares of its mask walk. */
  lemma RayRelevant(s: Square, dr: bv8, df: bv8, occ: Bitboard, mask: Bitboard, masked: Bitboard, t: Square)
    requires ValidDir(dr, df) && masked == occ & mask
    requires forall u: Square :: MaskRayReaches(s, dr, df, u) ==> Bit(mask, u)
    ensures RayReaches(s, dr, df, occ, t) <==> RayReaches(s, dr, df, masked, t)
  {
    EnteredFirst(s, dr, df);
    AgreeMasked(Rank(s) + dr, File(s) + df, dr, df, occ, mask, masked);
    WalkRelevant(Rank(s) + dr, File(s) + df, dr, df, occ, masked, t);
  }

  lemma EnteredFirst(s: Square, dr: bv8, df: bv8)
    requires ValidDir(dr, df)
    ensures Entered(Rank(s) + dr, dr) && Entered(File(s) + df, df)
  {
    EnteredStart(Rank(s));
    EnteredStart(File(s));
  }

  lemma AgreeMasked(r: bv8, f: bv8, dr: bv8, df: bv8, occ: Bitboard, mask: Bitboard, masked: Bitboard)
    requires ValidDir(dr, df) && masked == occ & mask
    requires forall u: Square :: MaskReaches(r, f, dr, df, u) ==> Bit(mask, u)
    ensures AgreeOnMask(r, f, dr, df, occ, masked)
  {
    forall u: Square | MaskReaches(r, f, dr, df, u) ensures Bit(occ, u) <==> Bit(masked, u) {
      AndBit(occ, mask, u);
    }
  }

  /**
   * The attacks through occ equal those through `occ & mask`: the lookup
   * `(occupancy & bishop_masks[square])` loses nothing.
   */
  lemma SliderRelevant(bishop: bool, s: Square, occ: Bitboard, mask: Bitboard, t: Square)
    requires forall u: Square :: Bit(mask, u) <==> SliderMask(bishop, s, u)
    ensures SliderAttack(bishop, s, occ, t) <==> SliderAttack(bishop, s, occ & mask, t)
  {
    if bishop {
      RayRelevant(s, 1, 1, occ, mask, occ & mask, t);
      RayRelevant(s, 0xFF, 1, occ, mask, occ & mask, t);
      RayRelevant(s, 1, 0xFF, occ, mask, occ & mask, t);
      RayRelevant(s, 0xFF, 0xFF, occ, mask, occ & mask, t);
    } else {
      RayRelevant(s, 1, 0, occ, mask, occ & mask, t);
      RayRelevant(s, 0xFF, 0, occ, mask, occ & mask, t);
      RayRelevant(s, 0, 1, occ, mask, occ & mask, t);
      RayRelevant(s, 0, 0xFF, occ, mask, occ & mask, t);
    }
  }

  /** The first square of a ray that has one is always attacked. */
  lemma FirstSquare(s: Square, dr: bv8, df: bv8, block: Bitboard)
    requires ValidDir(dr, df) && Rank(s) + dr < 8 && File(s) + df < 8
    ensures RayReaches(s, dr, df, block, At(Rank(s) + dr, File(s) + df))
  {
    ReachesAt(Rank(s) + dr, File(s) + df, dr, df, block, At(Rank(s) + dr, File(s) + df));
  }

  /** A slider always attacks some square, whatever the blockers. */
  lemma SliderAttacksSome(bishop: bool, s: Square, block: Bitboard) returns (t: Square)
    ensures SliderAttack(bishop, s, block, t)
  {
    var dr: bv8 := if Rank(s) < 7 then 1 else 0xFF;
    var df: bv8 := if File(s) < 7 then 1 else 0xFF;
    if bishop {
      FirstSquare(s, dr, df, block);
      t := At(Rank(s) + dr, File(s) + df);
    } else {
      FirstSquare(s, dr, 0, block);
      t := At(Rank(s) + dr, File(s));
    }
  }

  /** So no attack set of a variant is empty, and the test loop's `== 0ULL` means "slot unused". */
  lemma AttackSetNonEmpty(bishop: bool, s: Square, occ: Bitboard, att: Bitboard)
    requires IsAttackSet(bishop, s, occ, att)
    ensures att != 0
  {
    var t := SliderAttacksSome(bishop, s, occ);
    assert Bit(att, t);
  }

  // ---------------------------------------------------------------------
  // Filling the attack table
  // ---------------------------------------------------------------------

  /** A table row wide enough for indices of `bits` bits. */
  ghost predicate RowFits(row: seq<Bitboard>, bits: nat)
  {
    |row| == 4096 || (|row| == 512 && bits <= 9)
  }

  /** The row maps the first n variants to their attack sets. */
  ghost predicate RowMaps(row: seq<Bitboard>, occs: seq<Bitboard>, atts: seq<Bitboard>,
                          magic: Bitboard, bits: nat, n: int)
    requires |occs| == |atts| && 1 <= bits <= 12 && n <= |occs|
  {
    RowFits(row, bits) &&
    forall i :: 0 <= i < n ==> row[Index(occs[i], magic, bits)] == atts[i]
  }

  /** Two words that are the same variant, or the same attack set, are equal. */
  lemma VariantUnique(i: nat, mask: Bitboard, bits: nat, o1: Bitboard, o2: Bitboard)
    requires IsVariant(i, mask, bits, o1) && IsVariant(i, mask, bits, o2)
    ensures o1 == o2
  {
    Extensionality(o1, o2);
  }

  lemma AttackSetUnique(bishop: bool, s: Square, occ: Bitboard, a1: Bitboard, a2: Bitboard)
    requires IsAttackSet(bishop, s, occ, a1) && IsAttackSet(bishop, s, occ, a2)
    ensures a1 == a2
  {
    Extensionality(a1, a2);
  }

  /** No attack set of a variant is empty. */
  lemma VariantsNonEmpty(s: Square, bishop: bool, mask: Bitboard, bits: nat, occs: seq<Bitboard>, atts: seq<Bitboard>)
    requires VariantSeqs(s, bishop, mask, bits, occs, atts)
    ensures forall i :: 0 <= i < |atts| ==> atts[i] != 0
  {
    forall i | 0 <= i < |atts| ensures atts[i] != 0 {
      AttackSetNonEmpty(bishop, s, occs[i], atts[i]);
    }
  }

  /** In a collision-free list without empty attack sets, a shared slot means shared attacks. */
  lemma SameSlotSameAttacks(occs: seq<Bitboard>, atts: seq<Bitboard>, magic: Bitboard, bits: nat, index: int)
    requires |occs| == |atts| && 1 <= bits <= 12 && 0 <= index < |occs|
    requires CollisionFree(occs, atts, magic, bits)
    requires forall i :: 0 <= i < |atts| ==> atts[i] != 0
    ensures forall i :: 0 <= i < index && Index(occs[i], magic, bits) == Index(occs[index], magic, bits) ==>
      atts[i] == atts[index]
  {
  }

  lemma RowExtend(row: seq<Bitboard>, occs: seq<Bitboard>, atts: seq<Bitboard>,
                  magic: Bitboard, bits: nat, index: int, k: int)
    requires |occs| == |atts| && 1 <= bits <= 12 && 0 <= index < |occs| && RowFits(row, bits)
    requires k == Index(occs[index], magic, bits) && row[k] == atts[index]
    requires forall i :: 0 <= i < index && Index(occs[i], magic, bits) == k ==> atts[i] == atts[index]
    requires forall i :: 0 <= i < index && Index(occs[i], magic, bits) != k ==>
      row[Index(occs[i], magic, bits)] == atts[i]
    ensures RowMaps(row, occs, atts, magic, bits, index + 1)
  {
  }

  /**
   * One round of the fill loop of `init_sliders_attacks`: recompute variant
   * index and its attacks and store them at its slot.
   */
  method FillStep(table: array<seq<Bitboard>>, s: Square, bishop: bool, mask: Bitboard, bits: nat, magic: Bitboard,
                  index: nat, ghost occs: seq<Bitboard>, ghost atts: seq<Bitboard>)
    requires 1 <= bits <= 12 && bits <= PopCount(mask)
    requires VariantSeqs(s, bishop, mask, bits, occs, atts) && index < |occs|
    requires table.Length == 64 && RowFits(table[s], bits)
    requires CollisionFree(occs, atts, magic, bits) ==> RowMaps(table[s], occs, atts, magic, bits, index)
    modifies table
    ensures |table[s]| == old(|table[s]|)
    ensures CollisionFree(occs, atts, magic, bits) ==> RowMaps(table[s], occs, atts, magic, bits, index + 1)
    ensures forall r :: 0 <= r < 64 && r != s as int ==> table[r] == old(table[r])
  {
    var occupancy := SetOccupancy(index, bits, mask);
    var attacks := AttacksFor(bishop, s, occupancy);
    VariantUnique(index, mask, bits, occupancy, occs[index]);
    AttackSetUnique(bishop, s, occupancy, attacks, atts[index]);
    var magicIndex := Index(occupancy, magic, bits);
    ghost var free := CollisionFree(occs, atts, magic, bits);
    if free {
      VariantsNonEmpty(s, bishop, mask, bits, occs, atts);
      SameSlotSameAttacks(occs, atts, magic, bits, index);
    }
    table[s] := table[s][magicIndex := attacks];
    if free {
      RowExtend(table[s], occs, atts, magic, bits, index, magicIndex);
    }
  }

  /** The most relevant bits a row of the table has room for. */
  function MaxBits(bishop: bool): nat
  {
    if bishop then 9 else 12
  }

  /** Every count of relevant squares of the slider on s fits its table row. */
  ghost predicate BitsFit(bishop: bool, s: Square)
  {
    forall b: nat :: RelevantBits(bishop, s, b) ==> 1 <= b <= MaxBits(bishop)
  }

  /**
   * The table sizes suffice: a bishop mask has at most 9 squares and a rook
   * mask at most 12, on every square.
   */
  lemma AllBitsFit(bishop: bool, s: Square)
    ensures BitsFit(bishop, s)
  {
    forall b: nat | RelevantBits(bishop, s, b)
      ensures 1 <= b <= MaxBits(bishop)
    {
      var m: Bitboard :| (forall t: Square :: Bit(m, t) <==> SliderMask(bishop, s, t)) && PopCount(m) == b;
      MaskPopCount(bishop, s, m);
    }
  }

  /**
   * A table row that answers every occupancy variant of mask with its
   * attack set, at the slot the magic number sends it to.
   */
  ghost predicate RowReady(row: seq<Bitboard>, s: Square, bishop: bool, mask: Bitboard, magic: Bitboard)
  {
    var bits := PopCount(mask);
    |row| == (if bishop then 512 else 4096) &&
    (forall t: Square :: Bit(mask, t) <==> SliderMask(bishop, s, t)) &&
    1 <= bits <= MaxBits(bishop) &&
    forall i: nat, occ: Bitboard :: i < Pow2(bits) && IsVariant(i, mask, bits, occ) ==>
      IsAttackSet(bishop, s, occ, row[Index(occ, magic, bits)])
  }

  lemma RowMapsReady(row: seq<Bitboard>, s: Square, bishop: bool, mask: Bitboard, bits: nat,
                     magic: Bitboard, occs: seq<Bitboard>, atts: seq<Bitboard>)
    requires bits == PopCount(mask) && 1 <= bits <= MaxBits(bishop)
    requires |row| == (if bishop then 512 else 4096)
    requires forall t: Square :: Bit(mask, t) <==> SliderMask(bishop, s, t)
    requires VariantSeqs(s, bishop, mask, bits, occs, atts)
    requires RowMaps(row, occs, atts, magic, bits, |occs|)
    ensures RowReady(row, s, bishop, mask, magic)
  {
    forall i: nat, occ: Bitboard | i < Pow2(bits) && IsVariant(i, mask, bits, occ)
      ensures IsAttackSet(bishop, s, occ, row[Index(occ, magic, bits)])
    {
      VariantUnique(i, mask, bits, occ, occs[i]);
    }
  }

  /** What a ready row answers for an occupancy inside the mask. */
  lemma RowLookup(row: seq<Bitboard>, s: Square, bishop: bool, mask: Bitboard, magic: Bitboard, occ: Bitboard)
    requires RowReady(row, s, bishop, mask, magic)
    ensures IsAttackSet(bishop, s, occ & mask, row[Index(occ & mask, magic, PopCount(mask))])
  {
    var bits := PopCount(mask);
    IndexOfBound(occ, mask, bits);
    MaskedIsVariant(occ, mask, bits);
  }

  /** The mask of s has as many bits as its table row allows. */
  lemma MaskBits(bishop: bool, s: Square, mask: Bitboard)
    requires forall t: Square :: Bit(mask, t) <==> SliderMask(bishop, s, t)
    ensures RelevantBits(bishop, s, PopCount(mask)) && 1 <= PopCount(mask) <= MaxBits(bishop)
  {
    MaskPopCount(bishop, s, mask);
    assert RelevantBits(bishop, s, PopCount(mask));
  }

  /** A search that found no collision-free candidate returns 0. */
  lemma FailedSearch(occs: seq<Bitboard>, atts: seq<Bitboard>, bits: nat, candidates: seq<Bitboard>, magic: Bitboard)
    requires |occs| == |atts| && 1 <= bits <= 12
    requires FirstPassing(occs, atts, bits, candidates, magic) && !CollisionFree(occs, atts, magic, bits)
    ensures magic == 0
  {
  }

  /**
   * With entries ms, gs, ts for masks, magic numbers and rows: the squares
   * below n are initialised, ready where found says a magic was found and
   * with magic number 0 elsewhere.
   */
  ghost predicate DoneUpTo(bishop: bool, n: int, found: set<Square>,
                           ms: seq<Bitboard>, gs: seq<Bitboard>, ts: seq<seq<Bitboard>>)
    requires |ms| == |gs| == |ts| == 64
  {
    (forall r :: r in found ==> r as int < n) &&
    forall r: Square :: r as int < n ==>
      (r in found ==> RowReady(ts[r], r, bishop, ms[r], gs[r])) && (r !in found ==> gs[r] == 0)
  }

  /** Initialising square s, leaving the other squares alone, extends what is done by s. */
  lemma DoneExtend(bishop: bool, s: Square, found: set<Square>, f: bool,
                   ms: seq<Bitboard>, gs: seq<Bitboard>, ts: seq<seq<Bitboard>>,
                   ms': seq<Bitboard>, gs': seq<Bitboard>, ts': seq<seq<Bitboard>>)
    requires |ms| == |gs| == |ts| == |ms'| == |gs'| == |ts'| == 64
    requires DoneUpTo(bishop, s as int, found, ms, gs, ts)
    requires forall r :: 0 <= r < 64 && r != s as int ==> ms'[r] == ms[r] && gs'[r] == gs[r] && ts'[r] == ts[r]
    requires f ==> RowReady(ts'[s], s, bishop, ms'[s], gs'[s])
    requires !f ==> gs'[s] == 0
    ensures DoneUpTo(bishop, s as int + 1, if f then found + {s} else found, ms', gs', ts')
  {
    var found' := if f then found + {s} else found;
    forall r: Square | r as int < s as int + 1
      ensures r in found' ==> RowReady(ts'[r], r, bishop, ms'[r], gs'[r])
      ensures r !in found' ==> gs'[r] == 0
    {
      if r as int < s as int {
        assert ts'[r] == ts[r] && ms'[r] == ms[r] && gs'[r] == gs[r];
      } else {
        SameIndex(r, s);
      }
    }
  }

  /** A square is determined by its array index. */
  lemma SameIndex(r: Square, s: Square)
    requires r as int == s as int
    ensures r == s
  {
  }

  /**
   * The attack tables of one slider kind and what `init_sliders_attacks`
   * stores beside them: `bishop_masks`, `bishop_magic_numbers` and
   * `bishop_attacks_table[64][512]`, or the rook ones with rows of 4096.
   */
  class SliderTables {
    const bishop: bool
    const masks: array<Bitboard>
    const magics: array<Bitboard>
    const table: array<seq<Bitboard>>

    ghost predicate Valid()
      reads this, table
    {
      masks.Length == 64 && magics.Length == 64 && table.Length == 64 &&
      masks != magics && masks as object != table && magics as object != table &&
      forall r :: 0 <= r < 64 ==> |table[r]| == (if bishop then 512 else 4096)
    }

    constructor (bishop: bool)
      ensures Valid() && this.bishop == bishop
      ensures fresh(masks) && fresh(magics) && fresh(table)
    {
      this.bishop := bishop;
      masks := new Bitboard[64];
      magics := new Bitboard[64];
      table := new seq<Bitboard>[64](_ => seq(if bishop then 512 else 4096, _ => 0));
    }

    /** Square s has its mask, its magic number and a correct table row. */
    ghost predicate Ready(s: Square)
      requires Valid()
      reads this, masks, magics, table
    {
      RowReady(table[s], s, bishop, masks[s], magics[s])
    }

    /** The fill loop of `init_sliders_attacks` for square s. */
    method FillRow(s: Square, mask: Bitboard, bits: nat, magic: Bitboard,
                   ghost occs: seq<Bitboard>, ghost atts: seq<Bitboard>)
      requires Valid() && 1 <= bits <= MaxBits(bishop) && bits <= PopCount(mask)
      requires VariantSeqs(s, bishop, mask, bits, occs, atts)
      modifies table
      ensures Valid()
      ensures CollisionFree(occs, atts, magic, bits) ==> RowMaps(table[s], occs, atts, magic, bits, |occs|)
      ensures forall r :: 0 <= r < 64 && r != s as int ==> table[r] == old(table[r])
    {
      var n := Pow2(bits);
      for index := 0 to n
        invariant Valid()
        invariant CollisionFree(occs, atts, magic, bits) ==> RowMaps(table[s], occs, atts, magic, bits, index)
        invariant forall r :: 0 <= r < 64 && r != s as int ==> table[r] == old(table[r])
      {
        FillStep(table, s, bishop, mask, bits, magic, index, occs, atts);
      }
    }

    /**
     * The stores of the square loop of `init_sliders_attacks`: the mask,
     * the magic number, and row s filled through the fill loop.  When the
     * magic number is collision-free the square ends up ready.
     */
    method StoreSquare(s: Square, mask: Bitboard, bits: nat, magic: Bitboard,
                       ghost occs: seq<Bitboard>, ghost atts: seq<Bitboard>)
      requires Valid() && bits == PopCount(mask) && 1 <= bits <= MaxBits(bishop)
      requires forall t: Square :: Bit(mask, t) <==> SliderMask(bishop, s, t)
      requires VariantSeqs(s, bishop, mask, bits, occs, atts)
      modifies masks, magics, table
      ensures Valid() && masks[s] == mask && magics[s] == magic
      ensures CollisionFree(occs, atts, magic, bits) ==> RowMaps(table[s], occs, atts, magic, bits, |occs|)
      ensures forall r :: 0 <= r < 64 && r != s as int ==>
        masks[r] == old(masks[r]) && magics[r] == old(magics[r]) && table[r] == old(table[r])
    {
      masks[s] := mask;
      magics[s] := magic;
      FillRow(s, mask, bits, magic, occs, atts);
    }

    /**
     * The body of the square loop of `init_sliders_attacks`: compute the
     * mask, search a magic number among the candidates, and store both with
     * the filled row.  found says whether the search succeeded; when it did
     * not, the magic number stored is 0.
     */
    method InitSquare(s: Square, candidates: seq<Bitboard>) returns (ghost found: bool)
      requires Valid()
      modifies masks, magics, table
      ensures Valid()
      ensures found ==> Ready(s)
      ensures !found ==> magics[s] == 0
      ensures forall r :: 0 <= r < 64 && r != s as int ==>
        masks[r] == old(masks[r]) && magics[r] == old(magics[r]) && table[r] == old(table[r])
    {
      var mask := MaskFor(bishop, s);
      var bits := CountBits(mask);
      MaskBits(bishop, s, mask);
      var magic;
      ghost var m, occs, atts;
      magic, m, occs, atts := FindMagicNumber(s, bits, bishop, candidates);
      Extensionality(m, mask);
      found := CollisionFree(occs, atts, magic, bits);
      if !found {
        FailedSearch(occs, atts, bits, candidates, magic);
      }
      StoreSquare(s, mask, bits, magic, occs, atts);
      if found {
        RowMapsReady(table[s], s, bishop, masks[s], bits, magics[s], occs, atts);
      }
    }

    /** Squares below n are initialised: ready where found holds them, zero magic elsewhere. */
    ghost predicate DoneBelow(n: int, found: set<Square>)
      requires Valid()
      reads this, masks, magics, table
    {
      DoneUpTo(bishop, n, found, masks[..], magics[..], table[..])
    }

    /** One pass of the loop in `init_sliders_attacks`: initialise square `s`, keeping the squares before it. */
    method InitStep(s: Square, candidates: seq<Bitboard>, ghost found: set<Square>) returns (ghost found': set<Square>)
      requires Valid() && DoneBelow(s as int, found)
      modifies masks, magics, table
      ensures Valid() && DoneBelow(s as int + 1, found')
    {
      ghost var ms, gs, ts := masks[..], magics[..], table[..];
      var f := InitSquare(s, candidates);
      DoneExtend(bishop, s, found, f, ms, gs, ts, masks[..], magics[..], table[..]);
      found' := if f then found + {s} else found;
    }

    /**
     * `init_sliders_attacks`: every square whose magic search succeeded
     * answers each occupancy variant with its attack set; a square whose
     * search failed keeps the magic number 0.  candidates[s] are the
     * random numbers the search for s draws.
     */
    method Init(candidates: seq<seq<Bitboard>>) returns (ghost found: set<Square>)
      requires Valid() && |candidates| == 64
      modifies masks, magics, table
      ensures Valid()
      ensures forall s: Square :: s in found ==> Ready(s)
      ensures forall s: Square :: s !in found ==> magics[s] == 0
    {
      found := {};
      var s: bv8 := 0;
      while s < 64
        invariant s <= 64 && Valid() && DoneBelow(s as int, found)
      {
        found := InitStep(s, candidates[s], found);
        s := s + 1;
      }
    }

    /** `get_bishop_attacks_magic` or `get_rook_attacks_magic`. */
    function LookupAttacks(s: Square, occ: Bitboard): Bitboard
      requires Valid() && 1 <= PopCount(masks[s]) <= MaxBits(bishop)
      reads this, masks, magics, table
    {
      table[s][Index(occ & masks[s], magics[s], PopCount(masks[s]))]
    }

    /** On a ready square the table lookup equals the ray walk, for every occupancy. */
    lemma LookupCorrect(s: Square, occ: Bitboard)
      requires Valid() && Ready(s)
      ensures forall t: Square :: Bit(LookupAttacks(s, occ), t) <==> SliderAttack(bishop, s, occ, t)
    {
      RowAnswers(table[s], s, bishop, masks[s], magics[s], occ, LookupAttacks(s, occ));
    }
  }

  /** A ready row answers any occupancy with the attacks of the ray walk. */
  lemma RowAnswers(row: seq<Bitboard>, s: Square, bishop: bool, mask: Bitboard, magic: Bitboard,
                   occ: Bitboard, a: Bitboard)
    requires RowReady(row, s, bishop, mask, magic)
    requires a == row[Index(occ & mask, magic, PopCount(mask))]
    ensures forall t: Square :: Bit(a, t) <==> SliderAttack(bishop, s, occ, t)
  {
    RowLookup(row, s, bishop, mask, magic, occ);
    forall t: Square ensures SliderAttack(bishop, s, occ, t) <==> SliderAttack(bishop, s, occ & mask, t) {
      SliderRelevant(bishop, s, occ, mask, t);
    }
  }

  /** The part of occ inside the mask is the variant IndexOf names. */
  lemma MaskedIsVariant(occ: Bitboard, mask: Bitboard, bits: nat)
    requires bits == PopCount(mask)
    ensures IsVariant(IndexOf(occ, mask, bits), mask, bits, occ & mask)
  {
    forall t: Square ensures Bit(occ & mask, t) <==> Picked(IndexOf(occ, mask, bits), mask, bits, t) {
      IndexOfPicks(occ, mask, bits, t);
      AndBit(occ, mask, t);
    }
  }
}
