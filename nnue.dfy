/**
 * The engine's NNUE support: the active-feature indices of a position,
 * the clipped ReLU, the binary weight file (load and save), the seeded
 * initialisation, the final scaling and sign of `evaluate_nnue`, and the
 * choice between the network and the hand-written evaluation.
 * Weights are 32-bit floats; the model treats each one as a real value it
 * only copies, so the float layers of the forward pass are a parameter.
 */
module Nnue {
  import opened Bits
  import opened Occupancy
  import opened Options

  const InputSize := 768
  const Hidden1Size := 256
  const Hidden2Size := 32
  const NnueScale := 400
  const MaxActive := 32

  /** The sizes the backup build's header declares. */
  const ModularHidden1Size := 512
  const ModularHidden2Size := 64

  // ---------------------------------------------------------------------
  // Active features
  // ---------------------------------------------------------------------

  /** A square as the number `get_ls1b_index` returns for it. */
  function Index(s: Square): (i: int)
    ensures 0 <= i < 64
  {
    s as int
  }

  /** Numbering keeps the order of squares and tells them apart. */
  lemma IndexOrder(s: Square, t: Square)
    ensures s < t <==> Index(s) < Index(t)
    ensures s == t <==> Index(s) == Index(t)
  {
  }

  /** No value occurs twice. */
  predicate Distinct(xs: seq<int>)
  {
    forall i, j :: 0 <= i < j < |xs| ==> xs[i] != xs[j]
  }

  lemma DistinctJoin(a: seq<int>, b: seq<int>, bound: int)
    requires Distinct(a) && Distinct(b)
    requires forall i :: 0 <= i < |a| ==> a[i] < bound
    requires forall j :: 0 <= j < |b| ==> bound <= b[j]
    ensures Distinct(a + b)
  {
    forall i, j | 0 <= i < j < |a + b|
      ensures (a + b)[i] != (a + b)[j]
    {
      if i >= |a| {
        assert (a + b)[i] == b[i - |a|] && (a + b)[j] == b[j - |a|];
      } else if j >= |a| {
        assert (a + b)[i] == a[i] && (a + b)[j] == b[j - |a|];
      }
    }
  }

  /** The squares of b in the order the ls1b loop visits them: lowest first, each popped before the next. */
  function SquaresOf(b: Bitboard): (r: seq<Square>)
    ensures |r| == PopCount(b)
    ensures forall i :: 0 <= i < |r| ==> Bit(b, r[i])
    decreases PopCount(b)
  {
    if b == 0 then
      PopCountZero(b);
      []
    else
      var s := LowSq(b);
      PopCountClear(b, s);
      [s] + SquaresOf(PopBitClear(b, s))
  }

  lemma SquaresOfCons(b: Bitboard)
    requires b != 0
    ensures SquaresOf(b) == [LowSq(b)] + SquaresOf(PopBitClear(b, LowSq(b)))
  {
  }

  /** A square is visited exactly when it is in b. */
  lemma {:induction false} SquaresOfMember(b: Bitboard, s: Square)
    ensures s in SquaresOf(b) <==> Bit(b, s)
    decreases PopCount(b)
  {
    if b == 0 {
      PopCountZero(b);
    } else {
      var l := LowSq(b);
      PopCountClear(b, l);
      SquaresOfCons(b);
      SquaresOfMember(PopBitClear(b, l), s);
    }
  }

  predicate SquaresDistinct(r: seq<Square>)
  {
    forall i, j :: 0 <= i < j < |r| ==> r[i] != r[j]
  }

  lemma DistinctCons(l: Square, tail: seq<Square>)
    requires SquaresDistinct(tail) && l !in tail
    ensures SquaresDistinct([l] + tail)
  {
    var r := [l] + tail;
    forall i, j | 0 <= i < j < |r|
      ensures r[i] != r[j]
    {
      assert r[j] == tail[j - 1];
      if i > 0 {
        assert r[i] == tail[i - 1];
      }
    }
  }

  /** No square is visited twice: each one is popped once it has been seen. */
  lemma {:induction false} SquaresOfDistinct(b: Bitboard)
    ensures SquaresDistinct(SquaresOf(b))
    decreases PopCount(b)
  {
    if b != 0 {
      var l := LowSq(b);
      var rest := PopBitClear(b, l);
      PopCountClear(b, l);
      SquaresOfDistinct(rest);
      SquaresOfMember(rest, l);
      SquaresOfCons(b);
      DistinctCons(l, SquaresOf(rest));
    }
  }

  /** The indices piece * 64 + square of one piece's squares. */
  function PieceFeatures(sqs: seq<Square>, piece: int): (r: seq<int>)
    ensures |r| == |sqs|
    ensures forall i :: 0 <= i < |sqs| ==> r[i] == piece * 64 + Index(sqs[i])
  {
    if sqs == [] then [] else [piece * 64 + Index(sqs[0])] + PieceFeatures(sqs[1..], piece)
  }

  /** Blocks of 64 do not overlap: the index names its piece and its square. */
  lemma PieceFeaturesMember(sqs: seq<Square>, q: int, piece: int, s: Square)
    ensures piece * 64 + Index(s) in PieceFeatures(sqs, q) <==> piece == q && s in sqs
  {
    var r := PieceFeatures(sqs, q);
    if piece * 64 + Index(s) in r {
      var k :| 0 <= k < |r| && r[k] == piece * 64 + Index(s);
      assert Index(sqs[k]) == Index(s);
      IndexOrder(sqs[k], s);
    }
    if piece == q && s in sqs {
      var k :| 0 <= k < |sqs| && sqs[k] == s;
      assert r[k] == piece * 64 + Index(s);
    }
  }

  /** The indices of the first p piece boards, piece after piece. */
  function Features(bitboards: seq<Bitboard>, p: nat): seq<int>
    requires |bitboards| == 12 && p <= 12
  {
    if p == 0 then [] else Features(bitboards, p - 1) + PieceFeatures(SquaresOf(bitboards[p - 1]), p - 1)
  }

  /** The first n of xs, or all of xs when it is shorter. */
  function Take(xs: seq<int>, n: nat): (r: seq<int>)
    ensures |r| <= n && r <= xs
    ensures |xs| <= n ==> r == xs
  {
    if |xs| <= n then xs else xs[..n]
  }

  /** One more element is kept while there is room. */
  lemma TakeSnoc(xs: seq<int>, x: int, n: nat)
    ensures Take(xs + [x], n) == if |Take(xs, n)| < n then Take(xs, n) + [x] else Take(xs, n)
  {
    if |xs| + 1 > n && |xs| >= n {
      assert (xs + [x])[..n] == xs[..n];
    }
  }

  lemma Regroup(a: seq<int>, x: int, b: seq<int>)
    ensures a + ([x] + b) == (a + [x]) + b
  {
  }

  /** One piece's indices lie in its block of 64 and repeat no square. */
  lemma PieceFeaturesDistinct(sqs: seq<Square>, piece: int)
    requires SquaresDistinct(sqs)
    ensures Distinct(PieceFeatures(sqs, piece))
    ensures forall i :: 0 <= i < |sqs| ==> piece * 64 <= PieceFeatures(sqs, piece)[i] < piece * 64 + 64
  {
    var r := PieceFeatures(sqs, piece);
    forall i, j | 0 <= i < j < |r|
      ensures r[i] != r[j]
    {
      IndexOrder(sqs[i], sqs[j]);
    }
  }

  /** The indices of the first p boards lie in [0, 64 p) and none repeats. */
  lemma {:induction false} FeaturesOrdered(bitboards: seq<Bitboard>, p: nat)
    requires |bitboards| == 12 && p <= 12
    ensures forall i :: 0 <= i < |Features(bitboards, p)| ==> 0 <= Features(bitboards, p)[i] < 64 * p
    ensures Distinct(Features(bitboards, p))
  {
    if p > 0 {
      FeaturesOrdered(bitboards, p - 1);
      var sqs := SquaresOf(bitboards[p - 1]);
      SquaresOfDistinct(bitboards[p - 1]);
      PieceFeaturesDistinct(sqs, p - 1);
      DistinctJoin(Features(bitboards, p - 1), PieceFeatures(sqs, p - 1), 64 * (p - 1));
    }
  }

  /** An index is among the features exactly when its piece's board holds its square. */
  lemma {:induction false} FeaturesExact(bitboards: seq<Bitboard>, p: nat, piece: int, s: Square)
    requires |bitboards| == 12 && p <= 12 && 0 <= piece < 12
    ensures piece * 64 + Index(s) in Features(bitboards, p) <==> piece < p && Bit(bitboards[piece], s)
  {
    if p > 0 {
      FeaturesExact(bitboards, p - 1, piece, s);
      var sqs := SquaresOf(bitboards[p - 1]);
      PieceFeaturesMember(sqs, p - 1, piece, s);
      SquaresOfMember(bitboards[p - 1], s);
    }
  }

  /** One step of the inner loop: the lowest square's index, then the rest of the board. */
  lemma FeatureStep(bb: Bitboard, piece: int)
    requires bb != 0
    ensures PopCount(PopBitToggle(bb, LowSq(bb))) < PopCount(bb)
    ensures PieceFeatures(SquaresOf(bb), piece) == [piece * 64 + Index(LowSq(bb))] + PieceFeatures(SquaresOf(PopBitToggle(bb, LowSq(bb))), piece)
  {
    var s := LowSq(bb);
    PopCountClear(bb, s);
    PopBitVariantsAgree(bb, s);
    SquaresOfCons(bb);
    var sqs := SquaresOf(bb);
    assert sqs[1..] == SquaresOf(PopBitToggle(bb, s));
  }

  /**
   * The collection loop of `evaluate_nnue`: pieces P .. k in turn, each
   * board's squares lowest first, index piece * 64 + square; once 32 are
   * kept the rest are dropped without notice.
   */
  method ActiveIndices(bitboards: seq<Bitboard>) returns (active: seq<int>)
    requires |bitboards| == 12
    ensures active == Take(Features(bitboards, 12), MaxActive)
  {
    active := [];
    ghost var seen: seq<int> := [];
    var piece := 0;
    while piece < 12
      invariant 0 <= piece <= 12
      invariant seen == Features(bitboards, piece) && active == Take(seen, MaxActive)
    {
      var bb := bitboards[piece];
      while bb != 0
        invariant seen + PieceFeatures(SquaresOf(bb), piece) == Features(bitboards, piece + 1)
        invariant active == Take(seen, MaxActive)
        decreases PopCount(bb)
      {
        var sq := GetLs1bIndex(bb);
        assert sq == Index(LowSq(bb));
        FeatureStep(bb, piece);
        var idx := piece * 64 + sq;
        TakeSnoc(seen, idx, MaxActive);
        if idx < InputSize && |active| < MaxActive {
          active := active + [idx];
        }
        var rest := PopBitToggle(bb, LowSq(bb));
        ghost var later := PieceFeatures(SquaresOf(rest), piece);
        Regroup(seen, idx, later);
        seen := seen + [idx];
        bb := rest;
      }
      piece := piece + 1;
    }
  }

  /** What the network sees: at most 32 indices below 768, none twice, each an occupied piece-square. */
  lemma ActiveIndicesSound(bitboards: seq<Bitboard>, piece: int, s: Square)
    requires |bitboards| == 12 && 0 <= piece < 12
    ensures piece * 64 + Index(s) in Take(Features(bitboards, 12), MaxActive) ==> Bit(bitboards[piece], s)
    ensures forall i :: 0 <= i < |Take(Features(bitboards, 12), MaxActive)| ==> 0 <= Take(Features(bitboards, 12), MaxActive)[i] < InputSize
    ensures Distinct(Take(Features(bitboards, 12), MaxActive))
  {
    FeaturesOrdered(bitboards, 12);
    FeaturesExact(bitboards, 12, piece, s);
  }

  /** With at most 32 pieces on the board nothing is dropped: every occupied piece-square is seen. */
  lemma ActiveIndicesComplete(bitboards: seq<Bitboard>, piece: int, s: Square)
    requires |bitboards| == 12 && 0 <= piece < 12 && |Features(bitboards, 12)| <= MaxActive
    requires Bit(bitboards[piece], s)
    ensures piece * 64 + Index(s) in Take(Features(bitboards, 12), MaxActive)
  {
    FeaturesExact(bitboards, 12, piece, s);
  }

  // ---------------------------------------------------------------------
  // Activation and output
  // ---------------------------------------------------------------------

  /** `crelu`: the value clipped to [0, 1]. */
  function Crelu(x: real): (r: real)
    ensures 0.0 <= r <= 1.0
    ensures 0.0 <= x <= 1.0 ==> r == x
    ensures x < 0.0 ==> r == 0.0
    ensures x > 1.0 ==> r == 1.0
  {
    if x < 0.0 then 0.0 else if x > 1.0 then 1.0 else x
  }

  /** Clipping twice is clipping once, and clipping keeps the order of its inputs. */
  lemma CreluIdempotentMonotone(x: real, y: real)
    ensures Crelu(Crelu(x)) == Crelu(x)
    ensures x <= y ==> Crelu(x) <= Crelu(y)
  {
  }

  /** C's `(int)` conversion of a real value: the fraction is dropped toward zero. */
  function TruncateTowardZero(x: real): (r: int)
    ensures (r as real) <= x < (r as real) + 1.0 || (r as real) - 1.0 < x <= (r as real)
    ensures x >= 0.0 ==> 0 <= r && (r as real) <= x
    ensures x <= 0.0 ==> r <= 0 && x <= (r as real)
  {
    if x >= 0.0 then x.Floor else -((-x).Floor)
  }

  lemma TruncateOdd(x: real)
    ensures TruncateTowardZero(-x) == -TruncateTowardZero(x)
  {
  }

  /**
   * The last step of `evaluate_nnue`: 0 without weights, else the output
   * times 400 truncated, negated when black is to move.
   */
  function NnueScore(loaded: bool, output: real, whiteToMove: bool): int
  {
    if !loaded then 0
    else
      var score := TruncateTowardZero(output * NnueScale as real);
      if whiteToMove then score else -score
  }

  /** The score is from the side to move's view: the two sides get opposite scores, and none without weights. */
  lemma NnueScoreSides(loaded: bool, output: real)
    ensures NnueScore(loaded, output, true) == -NnueScore(loaded, output, false)
    ensures !loaded ==> NnueScore(loaded, output, true) == 0
    ensures loaded && 0.0 <= output ==> 0 <= NnueScore(loaded, output, true) && (NnueScore(loaded, output, true) as real) <= output * 400.0
  {
  }

  /** `evaluate`: the network when it is switched on and loaded, the hand-written evaluation otherwise. */
  function EvaluateDispatch(useNnue: bool, loaded: bool, network: int, handWritten: int): int
  {
    if useNnue && loaded then network else handWritten
  }

  /** Switching the network on without weights changes nothing: the hand-written evaluation still answers. */
  lemma DispatchFallsBack(loaded: bool, network: int, handWritten: int)
    ensures EvaluateDispatch(true, false, network, handWritten) == EvaluateDispatch(false, loaded, network, handWritten) == handWritten
    ensures network != handWritten ==> (EvaluateDispatch(true, loaded, network, handWritten) == network <==> loaded)
  {
  }

  // ---------------------------------------------------------------------
  // The weight file
  // ---------------------------------------------------------------------

  /** The number of floats in a weight file for hidden sizes h1 and h2. */
  function ParameterCount(h1: nat, h2: nat): nat
  {
    InputSize * h1 + h1 + h1 * h2 + h2 + h2 + 1
  }

  /** The engine's file holds 205121 floats; the sizes of the backup header would need 426625, so neither build reads the other's file. */
  lemma LayoutSizes()
    ensures ParameterCount(Hidden1Size, Hidden2Size) == 205121
    ensures ParameterCount(ModularHidden1Size, ModularHidden2Size) == 426625
    ensures 4 * ParameterCount(Hidden1Size, Hidden2Size) == 820484
  {
  }

  /** Where the read after a `fread` of |dst| values at pos starts: past the values found. */
  function Next<T>(dst: seq<T>, data: seq<T>, pos: nat): (q: nat)
    requires pos <= |data|
    ensures pos <= q <= |data|
  {
    if |dst| <= |data| - pos then pos + |dst| else |data|
  }

  /** `fread` of up to |dst| values at pos: the values found replace the front of dst, the rest of dst stays. */
  function Fread<T>(dst: seq<T>, data: seq<T>, pos: nat): (r: seq<T>)
    requires pos <= |data|
    ensures |r| == |dst|
  {
    var k := Next(dst, data, pos) - pos;
    data[pos..pos + k] + dst[k..]
  }

  /** The data written over the front of the old contents: what a short file leaves behind. */
  function Overlay<T>(data: seq<T>, old_: seq<T>): (r: seq<T>)
    ensures |r| == |old_|
    ensures forall i :: 0 <= i < |r| ==> r[i] == if i < |data| then data[i] else old_[i]
  {
    if |data| >= |old_| then data[..|old_|] else data + old_[|data|..]
  }

  /** One read covers its block of the layout; the rest of the file goes on over the following blocks. */
  lemma FreadPieces<T>(dst: seq<T>, data: seq<T>, pos: nat, rest: seq<T>)
    requires pos <= |data|
    ensures Fread(dst, data, pos) + Overlay(data[Next(dst, data, pos)..], rest) == Overlay(data[pos..], dst + rest)
  {
    var lhs := Fread(dst, data, pos) + Overlay(data[Next(dst, data, pos)..], rest);
    var rhs := Overlay(data[pos..], dst + rest);
    assert |lhs| == |rhs|;
    forall i | 0 <= i < |lhs|
      ensures lhs[i] == rhs[i]
    {
      if i >= |dst| {
        assert lhs[i] == Overlay(data[Next(dst, data, pos)..], rest)[i - |dst|];
      }
    }
  }

  /** The six arrays of the weight structure, in file order. */
  datatype WeightSet<T> = WeightSet(iw: seq<T>, b1: seq<T>, w1: seq<T>, b2: seq<T>, w2: seq<T>, out: T)

  /** The values in the file, in the order `save_nnue` writes them. */
  function Layout<T>(w: WeightSet<T>): seq<T>
  {
    w.iw + (w.b1 + (w.w1 + (w.b2 + (w.w2 + [w.out]))))
  }

  /** The six reads of `load_nnue` in a row, each starting where the last one stopped. */
  function ReadAll<T>(data: seq<T>, w: WeightSet<T>): WeightSet<T>
  {
    var p1 := Next(w.iw, data, 0);
    var p2 := Next(w.b1, data, p1);
    var p3 := Next(w.w1, data, p2);
    var p4 := Next(w.b2, data, p3);
    var p5 := Next(w.w2, data, p4);
    WeightSet(Fread(w.iw, data, 0), Fread(w.b1, data, p1), Fread(w.w1, data, p2), Fread(w.b2, data, p3),
              Fread(w.w2, data, p4), Fread([w.out], data, p5)[0])
  }

  /** Reading a file over old weights leaves the file written over the front of the old layout. */
  lemma ReadAllLayout<T>(data: seq<T>, w: WeightSet<T>)
    ensures Layout(ReadAll(data, w)) == Overlay(data, Layout(w))
  {
    var p1 := Next(w.iw, data, 0);
    var p2 := Next(w.b1, data, p1);
    var p3 := Next(w.w1, data, p2);
    var p4 := Next(w.b2, data, p3);
    var p5 := Next(w.w2, data, p4);
    var p6 := Next([w.out], data, p5);
    var f1, f2, f3 := Fread(w.iw, data, 0), Fread(w.b1, data, p1), Fread(w.w1, data, p2);
    var f4, f5, f6 := Fread(w.b2, data, p3), Fread(w.w2, data, p4), Fread([w.out], data, p5);
    var r5 := [w.out];
    var r4 := w.w2 + r5;
    var r3 := w.b2 + r4;
    var r2 := w.w1 + r3;
    var r1 := w.b1 + r2;
    FreadPieces([w.out], data, p5, []);
    assert Overlay(data[p6..], []) == [];
    assert [w.out] + [] == r5;
    assert Overlay(data[p5..], r5) == f6;
    FreadPieces(w.w2, data, p4, r5);
    assert Overlay(data[p4..], r4) == f5 + f6;
    FreadPieces(w.b2, data, p3, r4);
    assert Overlay(data[p3..], r3) == f4 + (f5 + f6);
    FreadPieces(w.w1, data, p2, r3);
    assert Overlay(data[p2..], r2) == f3 + (f4 + (f5 + f6));
    FreadPieces(w.b1, data, p1, r2);
    assert Overlay(data[p1..], r1) == f2 + (f3 + (f4 + (f5 + f6)));
    FreadPieces(w.iw, data, 0, r1);
    assert data[0..] == data;
    assert Overlay(data, Layout(w)) == f1 + (f2 + (f3 + (f4 + (f5 + f6))));
    assert f6 == [f6[0]];
    assert ReadAll(data, w) == WeightSet(f1, f2, f3, f4, f5, f6[0]);
  }

  /** The weights in memory: `nnue_weights` and its `loaded` flag. */
  class NnueWeights {
    var inputWeights: seq<real>
    var hidden1Bias: seq<real>
    var hidden1Weights: seq<real>
    var hidden2Bias: seq<real>
    var hidden2Weights: seq<real>
    var outputBias: real
    var loaded: bool

    /** Every array has the length its declaration gives it. */
    predicate Valid()
      reads this
    {
      |inputWeights| == InputSize * Hidden1Size && |hidden1Bias| == Hidden1Size &&
      |hidden1Weights| == Hidden1Size * Hidden2Size && |hidden2Bias| == Hidden2Size &&
      |hidden2Weights| == Hidden2Size
    }

    /** The file `save_nnue` writes from the current weights. */
    function Saved(): seq<real>
      reads this
    {
      Layout(Current())
    }

    function Current(): WeightSet<real>
      reads this
    {
      WeightSet(inputWeights, hidden1Bias, hidden1Weights, hidden2Bias, hidden2Weights, outputBias)
    }

    /** The static initialiser `{0}`: every weight zero, nothing loaded. */
    constructor ()
      ensures Valid() && !loaded
      ensures forall i :: 0 <= i < |Saved()| ==> Saved()[i] == 0.0
    {
      inputWeights := seq(InputSize * Hidden1Size, _ => 0.0);
      hidden1Bias := seq(Hidden1Size, _ => 0.0);
      hidden1Weights := seq(Hidden1Size * Hidden2Size, _ => 0.0);
      hidden2Bias := seq(Hidden2Size, _ => 0.0);
      hidden2Weights := seq(Hidden2Size, _ => 0.0);
      outputBias := 0.0;
      loaded := false;
    }

    /**
     * `load_nnue`: fails only when the file cannot be opened (`file` is
     * None).  Otherwise six reads fill the arrays in file order, and the
     * weights count as loaded however few values the file held: a short
     * file leaves the old values behind its end.
     */
    method Load(file: Option<seq<real>>) returns (ok: int)
      requires Valid()
      modifies this
      ensures Valid()
      ensures ok == 1 <==> file.Some?
      ensures ok == 0 || ok == 1
      ensures file.None? ==> Saved() == old(Saved()) && loaded == old(loaded)
      ensures file.Some? ==> loaded && Saved() == Overlay(file.value, old(Saved()))
    {
      if file.None? {
        return 0;
      }
      var before := Current();
      var r := ReadAll(file.value, before);
      ReadAllLayout(file.value, before);
      inputWeights, hidden1Bias, hidden1Weights, hidden2Bias, hidden2Weights, outputBias := r.iw, r.b1, r.w1, r.b2, r.w2, r.out;
      loaded := true;
      assert Current() == r;
      return 1;
    }

    /** `save_nnue`: fails only when the file cannot be created; otherwise the file holds Saved(). */
    method Save(writable: bool) returns (ok: int, file: seq<real>)
      requires Valid()
      ensures ok == 1 <==> writable
      ensures ok == 0 || ok == 1
      ensures writable ==> file == Saved() && |file| == ParameterCount(Hidden1Size, Hidden2Size)
      ensures !writable ==> file == []
    {
      if !writable {
        return 0, [];
      }
      file := inputWeights + hidden1Bias + hidden1Weights + hidden2Bias + hidden2Weights + [outputBias];
      ok := 1;
    }

    /**
     * `init_nnue_random`: the draws `rand() / RAND_MAX - 0.5`, in the order
     * the loops consume them, times each layer's scale; every bias zero.
     */
    method InitRandom(draws: seq<real>, scale1: real, scale2: real, scale3: real)
      requires Valid() && |draws| == InputSize * Hidden1Size + Hidden1Size * Hidden2Size + Hidden2Size
      modifies this
      ensures Valid() && loaded
      ensures forall k :: 0 <= k < InputSize * Hidden1Size ==> inputWeights[k] == draws[k] * scale1
      ensures forall k :: 0 <= k < Hidden1Size * Hidden2Size ==> hidden1Weights[k] == draws[InputSize * Hidden1Size + k] * scale2
      ensures forall k :: 0 <= k < Hidden2Size ==> hidden2Weights[k] == draws[InputSize * Hidden1Size + Hidden1Size * Hidden2Size + k] * scale3
      ensures forall k :: 0 <= k < Hidden1Size ==> hidden1Bias[k] == 0.0
      ensures forall k :: 0 <= k < Hidden2Size ==> hidden2Bias[k] == 0.0
      ensures outputBias == 0.0
    {
      var d := 0;
      var i := 0;
      while i < InputSize
        invariant 0 <= i <= InputSize && d == i * Hidden1Size
        invariant Valid()
        invariant forall k :: 0 <= k < d ==> inputWeights[k] == draws[k] * scale1
      {
        var j := 0;
        while j < Hidden1Size
          invariant 0 <= j <= Hidden1Size && d == i * Hidden1Size + j
          invariant Valid()
          invariant forall k :: 0 <= k < d ==> inputWeights[k] == draws[k] * scale1
        {
          inputWeights := inputWeights[d := draws[d] * scale1];
          d := d + 1;
          j := j + 1;
        }
        i := i + 1;
      }
      i := 0;
      while i < Hidden1Size
        invariant 0 <= i <= Hidden1Size && d == InputSize * Hidden1Size + i * Hidden2Size
        invariant Valid()
        invariant forall k :: 0 <= k < InputSize * Hidden1Size ==> inputWeights[k] == draws[k] * scale1
        invariant forall k :: 0 <= k < i * Hidden2Size ==> hidden1Weights[k] == draws[InputSize * Hidden1Size + k] * scale2
        invariant forall k :: 0 <= k < i ==> hidden1Bias[k] == 0.0
      {
        hidden1Bias := hidden1Bias[i := 0.0];
        var j := 0;
        while j < Hidden2Size
          invariant 0 <= j <= Hidden2Size && d == InputSize * Hidden1Size + i * Hidden2Size + j
          invariant Valid()
          invariant forall k :: 0 <= k < InputSize * Hidden1Size ==> inputWeights[k] == draws[k] * scale1
          invariant forall k :: 0 <= k < i * Hidden2Size + j ==> hidden1Weights[k] == draws[InputSize * Hidden1Size + k] * scale2
          invariant forall k :: 0 <= k <= i ==> hidden1Bias[k] == 0.0
        {
          hidden1Weights := hidden1Weights[i * Hidden2Size + j := draws[d] * scale2];
          d := d + 1;
          j := j + 1;
        }
        i := i + 1;
      }
      i := 0;
      while i < Hidden2Size
        invariant 0 <= i <= Hidden2Size && d == InputSize * Hidden1Size + Hidden1Size * Hidden2Size + i
        invariant Valid()
        invariant forall k :: 0 <= k < InputSize * Hidden1Size ==> inputWeights[k] == draws[k] * scale1
        invariant forall k :: 0 <= k < Hidden1Size * Hidden2Size ==> hidden1Weights[k] == draws[InputSize * Hidden1Size + k] * scale2
        invariant forall k :: 0 <= k < Hidden1Size ==> hidden1Bias[k] == 0.0
        invariant forall k :: 0 <= k < i ==> hidden2Weights[k] == draws[InputSize * Hidden1Size + Hidden1Size * Hidden2Size + k] * scale3
        invariant forall k :: 0 <= k < i ==> hidden2Bias[k] == 0.0
      {
        hidden2Bias := hidden2Bias[i := 0.0];
        hidden2Weights := hidden2Weights[i := draws[d] * scale3];
        d := d + 1;
        i := i + 1;
      }
      outputBias := 0.0;
      loaded := true;
    }

    /**
     * `evaluate_nnue`: 0 without weights; otherwise the active indices go
     * through the float layers (`forward`, not modelled) and the output is
     * scaled and signed for the side to move.
     */
    method Evaluate(bitboards: seq<Bitboard>, whiteToMove: bool, forward: seq<int> -> real) returns (score: int)
      requires |bitboards| == 12
      ensures score == NnueScore(loaded, forward(Take(Features(bitboards, 12), MaxActive)), whiteToMove)
      ensures !loaded ==> score == 0
    {
      if !loaded {
        return 0;
      }
      var active := ActiveIndices(bitboards);
      var output := forward(active);
      score := TruncateTowardZero(output * NnueScale as real);
      if !whiteToMove {
        score := -score;
      }
    }
  }

  /** Loading the file saved from w, over any old weights r, gives back exactly w's weights. */
  lemma SaveLoadRoundTrip(w: NnueWeights, r: NnueWeights, before: seq<real>)
    requires w.Valid() && r.Valid() && |before| == ParameterCount(Hidden1Size, Hidden2Size)
    requires r.Saved() == Overlay(w.Saved(), before)
    ensures r.inputWeights == w.inputWeights && r.hidden1Bias == w.hidden1Bias
    ensures r.hidden1Weights == w.hidden1Weights && r.hidden2Bias == w.hidden2Bias
    ensures r.hidden2Weights == w.hidden2Weights && r.outputBias == w.outputBias
  {
    assert Overlay(w.Saved(), before) == w.Saved();
    SavedInjective(r, w);
  }

  /** Two valid weight sets that save to the same file are the same weights. */
  lemma SavedInjective(a: NnueWeights, b: NnueWeights)
    requires a.Valid() && b.Valid() && a.Saved() == b.Saved()
    ensures a.inputWeights == b.inputWeights && a.hidden1Bias == b.hidden1Bias
    ensures a.hidden1Weights == b.hidden1Weights && a.hidden2Bias == b.hidden2Bias
    ensures a.hidden2Weights == b.hidden2Weights && a.outputBias == b.outputBias
  {
    var s := a.Saved();
    var n1 := InputSize * Hidden1Size;
    var n2 := n1 + Hidden1Size;
    var n3 := n2 + Hidden1Size * Hidden2Size;
    var n4 := n3 + Hidden2Size;
    var n5 := n4 + Hidden2Size;
    assert a.inputWeights == s[..n1] == b.inputWeights;
    assert a.hidden1Bias == s[n1..n2] == b.hidden1Bias;
    assert a.hidden1Weights == s[n2..n3] == b.hidden1Weights;
    assert a.hidden2Bias == s[n3..n4] == b.hidden2Bias;
    assert a.hidden2Weights == s[n4..n5] == b.hidden2Weights;
    assert a.outputBias == s[n5] == b.outputBias;
  }

  /** A file that stops inside the input weights still counts as loaded, yet every later weight keeps its old value. */
  lemma ShortFileKeepsOldWeights<T>(data: seq<T>, old_: seq<T>, i: int)
    requires |data| < |old_| && |data| <= i < |old_|
    ensures Overlay(data, old_)[i] == old_[i]
  {
  }
}
