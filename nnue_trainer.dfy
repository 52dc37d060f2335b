/**
 * The NNUE training script: the network it keeps in memory, its weight
 * file, the feature vector it builds from a python-chess board, the active
 * rows the update touches, the clipped-ReLU mask, the selection of training
 * positions from a game and the epoch schedule.
 */
module NnueTrainer {
  import opened ModularEvaluation
  import opened ScriptBoards
  import opened Nnue
  import opened Options

  // ---------------------------------------------------------------------
  // Features
  // ---------------------------------------------------------------------

  /**
   * The feature vector of a python-chess board: the entry of piece p on
   * engine square e (a8 = 0), FeatureOf(p, e) as in the engine's network, is 1
   * exactly when the board holds p there and 0 otherwise.
   */
  predicate Lights(features: seq<int>, b: Mailbox)
  {
    |features| == InputSize
    && forall p, e :: 0 <= p < 12 && 0 <= e < 64 ==>
      features[FeatureOf(p, e)] == if EngineMailbox(b)[e] == p then 1 else 0
  }

  /** The input of piece p on engine square e. */
  function FeatureOf(p: int, e: int): int
  {
    p * 64 + e
  }

  /** Piece and square are recovered from the feature index. */
  lemma FeatureIndex(p: int, e: int, q: int, f: int)
    requires 0 <= p < 12 && 0 <= e < 64 && 0 <= q < 12 && 0 <= f < 64
    ensures 0 <= FeatureOf(p, e) < InputSize
    ensures FeatureOf(p, e) == FeatureOf(q, f) <==> p == q && e == f
  {
  }

  lemma FlipAgain(sq: int)
    requires 0 <= sq < 64
    ensures FlipSq(FlipSq(sq)) == sq
  {
    FlipInvolution(sq);
  }

  /** One square of `board_to_features`: the entries that change are exactly the lit one. */
  lemma LightStep(a: seq<int>, a': seq<int>, b: Mailbox, square: int)
    requires 0 <= square < 64 && |a| == |a'| == InputSize
    requires forall p, e :: 0 <= p < 12 && 0 <= e < 64 ==>
      a[FeatureOf(p, e)] == if FlipSq(e) < square && b[FlipSq(e)] == p then 1 else 0
    requires b[square] < 0 ==> a' == a
    requires b[square] >= 0 ==> a' == a[FeatureOf(b[square], FlipSq(square)) := 1]
    ensures forall p, e :: 0 <= p < 12 && 0 <= e < 64 ==>
      a'[FeatureOf(p, e)] == if FlipSq(e) < square + 1 && b[FlipSq(e)] == p then 1 else 0
  {
    forall p, e | 0 <= p < 12 && 0 <= e < 64
      ensures a'[FeatureOf(p, e)] == if FlipSq(e) < square + 1 && b[FlipSq(e)] == p then 1 else 0
    {
      FlipAgain(e);
      FlipAgain(square);
      if b[square] >= 0 {
        FeatureIndex(p, e, b[square], FlipSq(square));
      }
    }
  }

  /**
   * `board_to_features`: one pass over the python-chess squares; each
   * piece lights the entry of its code and its square in the engine's
   * numbering.
   */
  method BoardToFeatures(b: Mailbox) returns (features: seq<int>)
    ensures Lights(features, b)
  {
    var a := new int[InputSize](_ => 0);
    forall p, e | 0 <= p < 12 && 0 <= e < 64
      ensures 0 <= FeatureOf(p, e) < InputSize && a[FeatureOf(p, e)] == 0
    {
      FeatureIndex(p, e, 0, 0);
    }
    var square := 0;
    assert forall e: int :: 0 <= e < 64 ==> !(FlipSq(e) < 0);
    while square < 64
      invariant 0 <= square <= 64
      invariant forall p, e :: 0 <= p < 12 && 0 <= e < 64 ==>
        a[FeatureOf(p, e)] == if FlipSq(e) < square && b[FlipSq(e)] == p then 1 else 0
    {
      ghost var before := a[..];
      var piece: int := b[square];
      if piece >= 0 {
        var ourSq: int := (7 - square / 8) * 8 + square % 8;
        assert ourSq == FlipSq(square);
        FeatureIndex(piece, ourSq, 0, 0);
        var featureIdx: int := piece * 64 + ourSq;
        a[featureIdx] := 1;
      }
      LightStep(before, a[..], b, square);
      square := square + 1;
    }
    features := a[..];
    forall p, e | 0 <= p < 12 && 0 <= e < 64
      ensures features[FeatureOf(p, e)] == if EngineMailbox(b)[e] == p then 1 else 0
    {
      FeatureIndex(p, e, 0, 0);
      assert features[FeatureOf(p, e)] == a[FeatureOf(p, e)];
    }
  }

  /** Each square lights at most one entry: one piece per square. */
  lemma FeaturesLightPieces(b: Mailbox, features: seq<int>, piece: int, e: int)
    requires Lights(features, b)
    requires 0 <= piece < 12 && 0 <= e < 64
    ensures features[FeatureOf(piece, e)] == 1 <==> b[FlipSq(e)] == piece
    ensures features[FeatureOf(piece, e)] == 1 ==> forall q :: 0 <= q < 12 && q != piece ==> features[FeatureOf(q, e)] == 0
  {
    assert features[FeatureOf(piece, e)] == if EngineMailbox(b)[e] == piece then 1 else 0;
    forall q | 0 <= q < 12 && q != piece
      ensures features[FeatureOf(piece, e)] == 1 ==> features[FeatureOf(q, e)] == 0
    {
      assert features[FeatureOf(q, e)] == if EngineMailbox(b)[e] == q then 1 else 0;
    }
  }

  /** `np.where(features > 0)`: the lit entries in ascending order. */
  function Active(features: seq<int>): (r: seq<int>)
    ensures forall i :: 0 <= i < |r| ==> 0 <= r[i] < |features|
    decreases |features|
  {
    if features == [] then []
    else
      var rest := Active(features[..|features| - 1]);
      if features[|features| - 1] > 0 then rest + [|features| - 1] else rest
  }

  lemma {:induction false} ActiveExact(features: seq<int>, k: int)
    ensures k in Active(features) <==> 0 <= k < |features| && features[k] > 0
    decreases |features|
  {
    if features != [] {
      var init := features[..|features| - 1];
      ActiveExact(init, k);
      if 0 <= k < |init| {
        assert init[k] == features[k];
      }
    }
  }

  lemma {:induction false} ActiveAscending(features: seq<int>)
    ensures forall i, j :: 0 <= i < j < |Active(features)| ==> Active(features)[i] < Active(features)[j]
    decreases |features|
  {
    if features != [] {
      ActiveAscending(features[..|features| - 1]);
    }
  }

  // ---------------------------------------------------------------------
  // The weight file
  // ---------------------------------------------------------------------

  /** The trainer's arrays: input rows of Hidden1Size, hidden rows of Hidden2Size, then the vectors. */
  datatype PyWeights<T> = PyWeights(
    inputWeights: seq<seq<T>>, hidden1Bias: seq<T>, hidden1Weights: seq<seq<T>>,
    hidden2Bias: seq<T>, hidden2Weights: seq<T>, outputBias: T)

  predicate Shaped<T>(rows: seq<seq<T>>, n: nat, width: nat)
  {
    |rows| == n && forall r :: 0 <= r < n ==> |rows[r]| == width
  }

  predicate WellShaped<T>(w: PyWeights<T>)
  {
    Shaped(w.inputWeights, InputSize, Hidden1Size) && |w.hidden1Bias| == Hidden1Size
    && Shaped(w.hidden1Weights, Hidden1Size, Hidden2Size)
    && |w.hidden2Bias| == Hidden2Size && |w.hidden2Weights| == Hidden2Size
  }

  /** A row-major array's bytes: the rows one after another. */
  function Concat<T>(rows: seq<seq<T>>): seq<T>
  {
    if rows == [] then [] else rows[0] + Concat(rows[1..])
  }

  /** `reshape`: consecutive runs of `width` values. */
  function Reshape<T>(c: seq<T>, width: nat): seq<seq<T>>
    requires width > 0
    decreases |c|
  {
    if |c| < width then [] else [c[..width]] + Reshape(c[width..], width)
  }

  lemma {:induction false} ConcatShaped<T>(rows: seq<seq<T>>, n: nat, width: nat)
    requires Shaped(rows, n, width) && width > 0
    ensures |Concat(rows)| == n * width
    ensures Reshape(Concat(rows), width) == rows
  {
    if n > 0 {
      var tail := rows[1..];
      assert Shaped(tail, n - 1, width) by {
        forall r | 0 <= r < n - 1 ensures |tail[r]| == width {
          assert tail[r] == rows[r + 1];
        }
      }
      ConcatShaped(tail, n - 1, width);
      assert (n - 1) * width + width == n * width;
      var c := Concat(rows);
      assert c == rows[0] + Concat(tail);
      assert c[..width] == rows[0] && c[width..] == Concat(tail);
    }
  }

  lemma {:induction false} ReshapeShaped<T>(c: seq<T>, n: nat, width: nat)
    requires width > 0 && |c| == n * width
    ensures Shaped(Reshape(c, width), n, width)
    ensures Concat(Reshape(c, width)) == c
  {
    if n > 0 {
      assert (n - 1) * width + width == n * width;
      ReshapeShaped(c[width..], n - 1, width);
      var r := Reshape(c, width);
      assert r == [c[..width]] + Reshape(c[width..], width);
      assert r[1..] == Reshape(c[width..], width);
      assert c == c[..width] + c[width..];
    }
  }

  /** Row r of a reshaped array is the r-th run of `width` values. */
  lemma {:induction false} ReshapeRow<T>(c: seq<T>, n: nat, width: nat, r: nat)
    requires width > 0 && |c| == n * width && r < n
    ensures r < |Reshape(c, width)|
    ensures (r + 1) * width <= |c| && Reshape(c, width)[r] == c[r * width..(r + 1) * width]
    decreases n
  {
    assert (n - 1) * width + width == n * width;
    assert r * width + width == (r + 1) * width;
    assert |c| >= width;
    var rest := Reshape(c[width..], width);
    assert Reshape(c, width) == [c[..width]] + rest;
    if r > 0 {
      ReshapeRow(c[width..], n - 1, width, r - 1);
      assert (r - 1) * width + width == r * width;
      assert c[width..][(r - 1) * width..r * width] == c[r * width..(r + 1) * width];
    }
  }

  /** The input rows a complete load gives are the file's first runs of `Hidden1Size` values. */
  lemma LoadedRows<T>(file: seq<T>, rows: seq<seq<T>>)
    requires |file| >= Hidden1BiasAt && rows == Reshape(file[..Hidden1BiasAt], Hidden1Size)
    ensures Shaped(rows, InputSize, Hidden1Size)
    ensures forall r :: 0 <= r < InputSize ==> (r + 1) * Hidden1Size <= |file| && rows[r] == file[r * Hidden1Size..(r + 1) * Hidden1Size]
  {
    ReshapeShaped(file[..Hidden1BiasAt], InputSize, Hidden1Size);
    forall r | 0 <= r < InputSize
      ensures (r + 1) * Hidden1Size <= |file| && rows[r] == file[r * Hidden1Size..(r + 1) * Hidden1Size]
    {
      ReshapeRow(file[..Hidden1BiasAt], InputSize, Hidden1Size, r);
    }
  }

  /** `save`: the six arrays in order, each flattened row by row. */
  function Flat<T>(w: PyWeights<T>): seq<T>
  {
    Concat(w.inputWeights) + (w.hidden1Bias + (Concat(w.hidden1Weights)
      + (w.hidden2Bias + (w.hidden2Weights + [w.outputBias]))))
  }

  /** Where each array starts in the file. */
  const Hidden1BiasAt := InputSize * Hidden1Size
  const Hidden1WeightsAt := Hidden1BiasAt + Hidden1Size
  const Hidden2BiasAt := Hidden1WeightsAt + Hidden1Size * Hidden2Size
  const Hidden2WeightsAt := Hidden2BiasAt + Hidden2Size
  const OutputBiasAt := Hidden2WeightsAt + Hidden2Size
  const TrainerFileSize := OutputBiasAt + 1

  /** `f.read(n)` at offset `off`: up to n values, fewer at the end of the file. */
  function Chunk<T>(file: seq<T>, off: nat, n: nat): (c: seq<T>)
    ensures |c| <= n && (off + n <= |file| ==> |c| == n)
  {
    if off >= |file| then [] else if off + n <= |file| then file[off..off + n] else file[off..]
  }

  /**
   * `load`: each read is assigned as soon as it is made; the two reshapes
   * and the final `[0]` raise on a short read, and every array assigned
   * before the failure keeps its new value. The flag says whether the
   * whole file was read.
   */
  function LoadResult<T>(file: seq<T>, before: PyWeights<T>): (PyWeights<T>, bool)
  {
    if |file| < Hidden1BiasAt then (before, false)
    else
      var iw := Reshape(file[..Hidden1BiasAt], Hidden1Size);
      var b1 := Chunk(file, Hidden1BiasAt, Hidden1Size);
      if |file| < Hidden2BiasAt then (before.(inputWeights := iw, hidden1Bias := b1), false)
      else
        var w1 := Reshape(file[Hidden1WeightsAt..Hidden2BiasAt], Hidden2Size);
        var b2 := Chunk(file, Hidden2BiasAt, Hidden2Size);
        var w2 := Chunk(file, Hidden2WeightsAt, Hidden2Size);
        if |file| < TrainerFileSize then (PyWeights(iw, b1, w1, b2, w2, before.outputBias), false)
        else (PyWeights(iw, b1, w1, b2, w2, file[OutputBiasAt]), true)
  }

  lemma FlatSize<T>(w: PyWeights<T>)
    requires WellShaped(w)
    ensures |Flat(w)| == TrainerFileSize == ParameterCount(Hidden1Size, Hidden2Size)
  {
    ConcatShaped(w.inputWeights, InputSize, Hidden1Size);
    ConcatShaped(w.hidden1Weights, Hidden1Size, Hidden2Size);
  }

  /** Loading what `save` wrote, followed by anything, gives back the saved network and reports success. */
  lemma SaveLoadRoundTrip<T>(w: PyWeights<T>, rest: seq<T>, before: PyWeights<T>)
    requires WellShaped(w)
    ensures LoadResult(Flat(w) + rest, before) == (w, true)
  {
    ConcatShaped(w.inputWeights, InputSize, Hidden1Size);
    ConcatShaped(w.hidden1Weights, Hidden1Size, Hidden2Size);
    var file := Flat(w) + rest;
    var c1 := Concat(w.inputWeights);
    var c3 := Concat(w.hidden1Weights);
    assert file == c1 + (w.hidden1Bias + (c3 + (w.hidden2Bias + (w.hidden2Weights + ([w.outputBias] + rest)))));
    assert file[..Hidden1BiasAt] == c1;
    assert file[Hidden1BiasAt..Hidden1WeightsAt] == w.hidden1Bias;
    assert file[Hidden1WeightsAt..Hidden2BiasAt] == c3;
    assert file[Hidden2BiasAt..Hidden2WeightsAt] == w.hidden2Bias;
    assert file[Hidden2WeightsAt..OutputBiasAt] == w.hidden2Weights;
    assert file[OutputBiasAt] == w.outputBias;
  }

  lemma SplitAt<T>(s: seq<T>, i: nat)
    requires i <= |s|
    ensures s == s[..i] + s[i..]
  {
  }

  /** Success exactly when the file holds every parameter, and then the arrays have their shapes. */
  lemma LoadSucceedsIffComplete<T>(file: seq<T>, before: PyWeights<T>)
    ensures LoadResult(file, before).1 <==> |file| >= TrainerFileSize
    ensures LoadResult(file, before).1 ==> WellShaped(LoadResult(file, before).0)
    ensures LoadResult(file, before).1 ==> Flat(LoadResult(file, before).0) == file[..TrainerFileSize]
  {
    if |file| >= TrainerFileSize {
      var w := LoadResult(file, before).0;
      var f := file[..TrainerFileSize];
      var p1, p2, p3 := f[..Hidden1BiasAt], f[Hidden1BiasAt..Hidden1WeightsAt], f[Hidden1WeightsAt..Hidden2BiasAt];
      var p4, p5 := f[Hidden2BiasAt..Hidden2WeightsAt], f[Hidden2WeightsAt..OutputBiasAt];
      assert p1 == file[..Hidden1BiasAt] && p3 == file[Hidden1WeightsAt..Hidden2BiasAt];
      ReshapeShaped(p1, InputSize, Hidden1Size);
      ReshapeShaped(p3, Hidden1Size, Hidden2Size);
      assert w == PyWeights(Reshape(p1, Hidden1Size), p2, Reshape(p3, Hidden2Size), p4, p5, file[OutputBiasAt]);
      SixPieces(f, Hidden1BiasAt, Hidden1WeightsAt, Hidden2BiasAt, Hidden2WeightsAt, OutputBiasAt);
    }
  }

  /** A sequence cut at five places, the last piece one element long. */
  lemma SixPieces<T>(f: seq<T>, a: nat, b: nat, c: nat, d: nat, e: nat)
    requires a <= b <= c <= d <= e && |f| == e + 1
    ensures f == f[..a] + (f[a..b] + (f[b..c] + (f[c..d] + (f[d..e] + [f[e]]))))
  {
    assert f[e..] == [f[e]];
    CutAt(f, d, e);
    CutAt(f, c, d);
    CutAt(f, b, c);
    CutAt(f, a, b);
    CutAt(f, 0, a);
    assert f[0..] == f;
  }

  lemma CutAt<T>(s: seq<T>, lo: nat, mid: nat)
    requires lo <= mid <= |s|
    ensures s[lo..] == s[lo..mid] + s[mid..]
  {
  }

  /**
   * A file that holds the input rows but stops short of the end fails,
   * yet the input rows (and the first bias) have already been replaced:
   * the caller that falls back to "random weights" keeps a half-loaded net.
   */
  lemma TruncatedLoadReplacesInputRows<T>(file: seq<T>, before: PyWeights<T>)
    requires Hidden1BiasAt <= |file| < TrainerFileSize
    ensures !LoadResult(file, before).1
    ensures LoadResult(file, before).0.inputWeights == Reshape(file[..Hidden1BiasAt], Hidden1Size)
    ensures Shaped(LoadResult(file, before).0.inputWeights, InputSize, Hidden1Size)
  {
    ReshapeShaped(file[..Hidden1BiasAt], InputSize, Hidden1Size);
  }

  /** A file too short for the input rows changes nothing. */
  lemma ShortLoadChangesNothing<T>(file: seq<T>, before: PyWeights<T>)
    requires |file| < Hidden1BiasAt
    ensures LoadResult(file, before) == (before, false)
  {
  }

  /** A row after a gradient step: each entry less `lr` times its delta. */
  function Moved(row: seq<real>, delta: seq<real>, lr: real): (m: seq<real>)
    ensures |m| == |row|
  {
    seq(|row|, j requires 0 <= j < |row| => row[j] - lr * (if j < |delta| then delta[j] else 0.0))
  }

  /** The trainer's network object. */
  class TrainerNetwork {
    var inputWeights: seq<seq<real>>
    var hidden1Bias: seq<real>
    var hidden1Weights: seq<seq<real>>
    var hidden2Bias: seq<real>
    var hidden2Weights: seq<real>
    var outputBias: real
    /**
     * Whether `input_weights` may be updated in place.  An array made by
     * `np.random` is writable; one `np.frombuffer` made over the `bytes`
     * of `f.read` is a read-only view.
     */
    var inputRowsWritable: bool

    function Current(): PyWeights<real>
      reads this
    {
      PyWeights(inputWeights, hidden1Bias, hidden1Weights, hidden2Bias, hidden2Weights, outputBias)
    }

    predicate Valid()
      reads this
      ensures Valid() <==> WellShaped(Current())
    {
      Shaped(inputWeights, InputSize, Hidden1Size) && |hidden1Bias| == Hidden1Size
      && Shaped(hidden1Weights, Hidden1Size, Hidden2Size)
      && |hidden2Bias| == Hidden2Size && |hidden2Weights| == Hidden2Size
    }

    /** `__init__`: the Gaussian draws (already scaled) fill the weight arrays; the biases start at zero. */
    constructor (inputRows: seq<seq<real>>, hiddenRows: seq<seq<real>>, outputColumn: seq<real>)
      requires Shaped(inputRows, InputSize, Hidden1Size) && Shaped(hiddenRows, Hidden1Size, Hidden2Size)
      requires |outputColumn| == Hidden2Size
      ensures Valid()
      ensures inputWeights == inputRows && hidden1Weights == hiddenRows && hidden2Weights == outputColumn
      ensures hidden1Bias == seq(Hidden1Size, _ => 0.0) && hidden2Bias == seq(Hidden2Size, _ => 0.0)
      ensures outputBias == 0.0 && inputRowsWritable
    {
      inputRowsWritable := true;
      inputWeights := inputRows;
      hidden1Bias := seq(Hidden1Size, _ => 0.0);
      hidden1Weights := hiddenRows;
      hidden2Bias := seq(Hidden2Size, _ => 0.0);
      hidden2Weights := outputColumn;
      outputBias := 0.0;
    }

    /** The assignments of `load` in file order; `ok` is false where the script raises. */
    method ReadArrays(file: seq<real>) returns (ok: bool)
      modifies this
      ensures (Current(), ok) == LoadResult(file, old(Current()))
      ensures ok <==> |file| >= TrainerFileSize
      ensures inputRowsWritable == old(inputRowsWritable)
    {
      LoadSucceedsIffComplete(file, Current());
      ok := false;
      if |file| < Hidden1BiasAt {
        return;
      }
      inputWeights := Reshape(file[..Hidden1BiasAt], Hidden1Size);
      hidden1Bias := Chunk(file, Hidden1BiasAt, Hidden1Size);
      if |file| < Hidden2BiasAt {
        return;
      }
      hidden1Weights := Reshape(file[Hidden1WeightsAt..Hidden2BiasAt], Hidden2Size);
      hidden2Bias := Chunk(file, Hidden2BiasAt, Hidden2Size);
      hidden2Weights := Chunk(file, Hidden2WeightsAt, Hidden2Size);
      if |file| < TrainerFileSize {
        return;
      }
      outputBias := file[OutputBiasAt];
      ok := true;
    }

    /**
     * `load`: the arrays in file order; `ok` is false where the script
     * raises.  Every array it replaces is an `np.frombuffer` view, so once
     * the input rows are replaced they are read-only.
     */
    method Load(file: seq<real>) returns (ok: bool)
      modifies this
      ensures (Current(), ok) == LoadResult(file, old(Current()))
      ensures ok <==> |file| >= TrainerFileSize
      ensures inputRowsWritable <==> old(inputRowsWritable) && |file| < Hidden1BiasAt
    {
      ok := ReadArrays(file);
      if |file| >= Hidden1BiasAt {
        inputRowsWritable := false;
      }
    }

    /**
     * `load` with `.copy()` after each `np.frombuffer`: the same arrays,
     * but the replaced input rows stay writable.
     */
    method LoadCopy(file: seq<real>) returns (ok: bool)
      modifies this
      ensures (Current(), ok) == LoadResult(file, old(Current()))
      ensures ok <==> |file| >= TrainerFileSize
      ensures inputRowsWritable <==> old(inputRowsWritable) || |file| >= Hidden1BiasAt
    {
      ok := ReadArrays(file);
      if |file| >= Hidden1BiasAt {
        inputRowsWritable := true;
      }
    }

    /** A load that checks the length first and leaves the network alone when the file is short. */
    method LoadOrKeep(file: seq<real>) returns (ok: bool)
      modifies this
      ensures ok <==> |file| >= TrainerFileSize
      ensures !ok ==> Current() == old(Current())
      ensures ok ==> Valid() && Flat(Current()) == file[..TrainerFileSize] && inputRowsWritable
      ensures ok ==> Current() == LoadResult(file, old(Current())).0
      ensures !ok ==> inputRowsWritable == old(inputRowsWritable)
    {
      LoadSucceedsIffComplete(file, Current());
      if |file| < TrainerFileSize {
        return false;
      }
      ok := LoadCopy(file);
    }

    /** `save`: the arrays written in order, as float32. */
    method Save() returns (file: seq<real>)
      ensures file == Flat(Current())
      ensures Valid() ==> |file| == TrainerFileSize
    {
      if Valid() {
        FlatSize(Current());
      }
      file := Concat(inputWeights) + (hidden1Bias + (Concat(hidden1Weights)
        + (hidden2Bias + (hidden2Weights + [outputBias]))));
    }

    /**
     * The last step of `backward`: every active input row moves by
     * `-lr * delta`; the other rows are untouched.  On read-only input
     * rows the in-place `-=` raises instead, and `ok` is false with
     * nothing changed.
     */
    method UpdateActiveRows(active: seq<int>, delta: seq<real>, lr: real) returns (ok: bool)
      requires Valid() && |delta| == Hidden1Size
      requires forall i :: 0 <= i < |active| ==> 0 <= active[i] < InputSize
      modifies this
      ensures Valid()
      ensures ok <==> |active| == 0 || inputRowsWritable
      ensures !ok ==> inputWeights == old(inputWeights)
      ensures forall r :: 0 <= r < InputSize && r !in active ==> inputWeights[r] == old(inputWeights[r])
      ensures ok ==> forall r :: 0 <= r < InputSize && r in active ==> inputWeights[r] == Moved(old(inputWeights[r]), delta, lr)
      ensures hidden1Bias == old(hidden1Bias) && hidden1Weights == old(hidden1Weights)
      ensures hidden2Bias == old(hidden2Bias) && hidden2Weights == old(hidden2Weights) && outputBias == old(outputBias)
      ensures inputRowsWritable == old(inputRowsWritable)
    {
      ok := true;
      if |active| > 0 {
        if !inputRowsWritable {
          return false;
        }
        var rows := inputWeights;
        assert Shaped(rows, InputSize, Hidden1Size);
        inputWeights := seq(InputSize, r requires 0 <= r < InputSize =>
          if r in active then Moved(rows[r], delta, lr) else rows[r]);
      }
    }
  }

  /**
   * Resuming training as `train_nnue` does: a fresh network, `load` of the
   * existing output file, then a sample's update.  Whenever the file held
   * the input rows and the sample has a piece on the board, the update
   * fails, so training from a checkpoint never gets past its first sample.
   */
  method ResumeAsWritten(init: seq<seq<real>>, hidden: seq<seq<real>>, column: seq<real>, file: seq<real>,
                         active: seq<int>, delta: seq<real>, lr: real)
    returns (loaded: bool, trained: bool)
    requires Shaped(init, InputSize, Hidden1Size) && Shaped(hidden, Hidden1Size, Hidden2Size)
    requires |column| == Hidden2Size && |delta| == Hidden1Size
    requires forall i :: 0 <= i < |active| ==> 0 <= active[i] < InputSize
    ensures loaded <==> |file| >= TrainerFileSize
    ensures |file| >= Hidden1BiasAt && |active| > 0 ==> !trained
    ensures |file| < Hidden1BiasAt ==> trained
  {
    var net := new TrainerNetwork(init, hidden, column);
    loaded := net.Load(file);
    if net.Valid() {
      trained := net.UpdateActiveRows(active, delta, lr);
    } else {
      trained := false;
    }
  }

  /**
   * Resuming with the loaded arrays copied: a complete file loads, and the
   * first sample's update moves exactly its active rows away from the
   * loaded values.
   */
  method ResumeCopied(init: seq<seq<real>>, hidden: seq<seq<real>>, column: seq<real>, file: seq<real>,
                      active: seq<int>, delta: seq<real>, lr: real)
    returns (loaded: bool, trained: bool, rows: seq<seq<real>>)
    requires Shaped(init, InputSize, Hidden1Size) && Shaped(hidden, Hidden1Size, Hidden2Size)
    requires |column| == Hidden2Size && |delta| == Hidden1Size
    requires forall i :: 0 <= i < |active| ==> 0 <= active[i] < InputSize
    requires |file| >= TrainerFileSize
    ensures loaded && trained && |rows| == InputSize
    ensures forall r :: 0 <= r < InputSize ==>
      rows[r] == (if r in active then Moved(file[r * Hidden1Size..(r + 1) * Hidden1Size], delta, lr)
                  else file[r * Hidden1Size..(r + 1) * Hidden1Size])
  {
    var net := new TrainerNetwork(init, hidden, column);
    loaded := net.LoadOrKeep(file);
    assert net.inputWeights == Reshape(file[..Hidden1BiasAt], Hidden1Size);
    LoadedRows(file, net.inputWeights);
    trained := net.UpdateActiveRows(active, delta, lr);
    rows := net.inputWeights;
  }

  /** After a sample's update, an input row moves only if the board has that piece on that square. */
  lemma UntouchedRowsAreAbsentPieces(b: Mailbox, features: seq<int>, piece: int, e: int)
    requires Lights(features, b)
    requires 0 <= piece < 12 && 0 <= e < 64
    ensures FeatureOf(piece, e) in Active(features) <==> b[FlipSq(e)] == piece
  {
    assert features[FeatureOf(piece, e)] == if EngineMailbox(b)[e] == piece then 1 else 0;
    ActiveExact(features, FeatureOf(piece, e));
    FeaturesLightPieces(b, features, piece, e);
  }

  // ---------------------------------------------------------------------
  // The clipped ReLU mask
  // ---------------------------------------------------------------------

  /** `mask1` and `mask2`: 1 where the pre-activation lies strictly between 0 and 1. */
  function CreluMask(x: real): (m: real)
    ensures m == 1.0 || m == 0.0
  {
    if 0.0 < x < 1.0 then 1.0 else 0.0
  }

  /**
   * The mask is the slope of the clipped ReLU: between two points on the
   * same side of a kink, the activation changes by mask times the change.
   */
  lemma CreluMaskIsSlope(x: real, y: real)
    requires (0.0 < x < 1.0 && 0.0 < y < 1.0) || (x < 0.0 && y < 0.0) || (x > 1.0 && y > 1.0)
    ensures Crelu(y) - Crelu(x) == CreluMask(x) * (y - x)
    ensures CreluMask(x) == 1.0 <==> 0.0 < x < 1.0
  {
  }

  // ---------------------------------------------------------------------
  // Selecting training positions
  // ---------------------------------------------------------------------

  /** The score a game's result gives its positions; an unfinished game ("*") is skipped. */
  function ResultScore(result: string): Option<real>
  {
    if result == "*" then None
    else if result == "1-0" then Some(1.0)
    else if result == "0-1" then Some(0.0)
    else Some(0.5)
  }

  /** The same result with the colours exchanged. */
  function Reversed(result: string): string
  {
    if result == "1-0" then "0-1" else if result == "0-1" then "1-0" else result
  }

  /** Every finished game scores in [0, 1], and exchanging the colours turns s into 1 - s. */
  lemma ResultScoreSymmetric(result: string)
    ensures ResultScore(result).None? <==> result == "*"
    ensures ResultScore(result).Some? ==> 0.0 <= ResultScore(result).value <= 1.0
    ensures ResultScore(result).Some? ==>
      ResultScore(Reversed(result)) == Some(1.0 - ResultScore(result).value)
  {
  }

  /** `min(i / len(moves), 1.0)`: how far into the game ply i lies. */
  function Progress(i: nat, n: nat): (p: real)
    requires i < n
    ensures 0.0 <= p <= 1.0
  {
    var q := i as real / n as real;
    if q < 1.0 then q else 1.0
  }

  /** The target without an engine: the material score blended towards the result score. */
  function Blend(p: real, materialScore: real, resultScore: real): real
  {
    (1.0 - p) * materialScore + p * resultScore
  }

  lemma MulNonneg(x: real, y: real)
    requires 0.0 <= x && 0.0 <= y
    ensures 0.0 <= x * y
  {
  }

  /** The blend lies between its two ends, and the first ply of a game is the material score alone. */
  lemma BlendBetween(p: real, materialScore: real, resultScore: real)
    requires 0.0 <= p <= 1.0
    ensures materialScore <= resultScore ==> materialScore <= Blend(p, materialScore, resultScore) <= resultScore
    ensures resultScore <= materialScore ==> resultScore <= Blend(p, materialScore, resultScore) <= materialScore
    ensures p == 0.0 ==> Blend(p, materialScore, resultScore) == materialScore
  {
    var d := resultScore - materialScore;
    assert Blend(p, materialScore, resultScore) == materialScore + p * d;
    if d >= 0.0 {
      MulNonneg(p, d);
      MulNonneg(1.0 - p, d);
    } else {
      MulNonneg(p, -d);
      MulNonneg(1.0 - p, -d);
    }
  }

  /** A ply can be sampled from the seventh move on, unless the side to move is in check. */
  predicate Eligible(inCheck: seq<bool>, i: nat)
    requires i < |inCheck|
  {
    i >= 6 && !inCheck[i]
  }

  /** How many sampling draws the plies before n consume: one per eligible ply. */
  function DrawsUsed(inCheck: seq<bool>, n: nat): (k: nat)
    requires n <= |inCheck|
    ensures k <= n
  {
    if n == 0 then 0 else DrawsUsed(inCheck, n - 1) + (if Eligible(inCheck, n - 1) then 1 else 0)
  }

  /** The plies before n that become positions. */
  function Selected(inCheck: seq<bool>, draws: seq<real>, n: nat): seq<nat>
    requires n <= |inCheck| <= |draws|
  {
    if n == 0 then []
    else
      var i := n - 1;
      Selected(inCheck, draws, i)
        + (if Eligible(inCheck, i) && draws[DrawsUsed(inCheck, i)] <= 0.4 then [i] else [])
  }

  /**
   * The loop over a game's moves: `inCheck[i]` says whether the position
   * after move i is in check, `draws` are the successive `random.random()`
   * values; a draw above 0.4 skips the ply.
   */
  method SelectPlies(inCheck: seq<bool>, draws: seq<real>) returns (kept: seq<nat>)
    requires |inCheck| <= |draws|
    ensures kept == Selected(inCheck, draws, |inCheck|)
  {
    kept := [];
    var used := 0;
    var i := 0;
    while i < |inCheck|
      invariant 0 <= i <= |inCheck|
      invariant used == DrawsUsed(inCheck, i)
      invariant kept == Selected(inCheck, draws, i)
    {
      if i < 6 || inCheck[i] {
        i := i + 1;
        continue;
      }
      var draw := draws[used];
      used := used + 1;
      if draw > 0.4 {
        i := i + 1;
        continue;
      }
      kept := kept + [i];
      i := i + 1;
    }
  }

  /** A ply is kept exactly when it is eligible and the draw it consumed is at most 0.4. */
  lemma {:induction false} SelectedExact(inCheck: seq<bool>, draws: seq<real>, n: nat, i: nat)
    requires n <= |inCheck| <= |draws|
    ensures i in Selected(inCheck, draws, n) <==>
      i < n && Eligible(inCheck, i) && draws[DrawsUsed(inCheck, i)] <= 0.4
  {
    if n > 0 {
      SelectedExact(inCheck, draws, n - 1, i);
    }
  }

  /** The kept plies come in game order. */
  lemma {:induction false} SelectedAscending(inCheck: seq<bool>, draws: seq<real>, n: nat)
    requires n <= |inCheck| <= |draws|
    ensures forall a :: 0 <= a < |Selected(inCheck, draws, n)| ==> Selected(inCheck, draws, n)[a] < n
    ensures forall a, b :: 0 <= a < b < |Selected(inCheck, draws, n)| ==>
      Selected(inCheck, draws, n)[a] < Selected(inCheck, draws, n)[b]
  {
    if n > 0 {
      SelectedAscending(inCheck, draws, n - 1);
    }
  }

  /** What one game contributes: the positions it appended, and whether it was counted (finished, no exception). */
  datatype GameYield = GameYield(positions: nat, counted: bool)

  function Total(games: seq<GameYield>): nat
  {
    if games == [] then 0 else Total(games[..|games| - 1]) + games[|games| - 1].positions
  }

  function Counted(games: seq<GameYield>): (c: nat)
    ensures c <= |games|
  {
    if games == [] then 0 else Counted(games[..|games| - 1]) + (if games[|games| - 1].counted then 1 else 0)
  }

  /**
   * The loop of `extract_positions_from_pgn`: games are read while fewer
   * than `maxPositions` positions are collected, so the limit is checked
   * only between games and the last game read may pass it.
   */
  method CollectPositions(games: seq<GameYield>, maxPositions: nat) returns (collected: nat, read: nat, gameCount: nat)
    ensures read <= |games| && collected == Total(games[..read]) && gameCount == Counted(games[..read])
    ensures read == |games| || collected >= maxPositions
    ensures forall j :: 0 <= j < read ==> Total(games[..j]) < maxPositions
    ensures read > 0 ==> collected < maxPositions + games[read - 1].positions
  {
    collected, read, gameCount := 0, 0, 0;
    while collected < maxPositions && read < |games|
      invariant read <= |games| && collected == Total(games[..read]) && gameCount == Counted(games[..read])
      invariant forall j :: 0 <= j < read ==> Total(games[..j]) < maxPositions
      invariant read > 0 ==> collected < maxPositions + games[read - 1].positions
    {
      var g := games[read];
      assert games[..read + 1][..read] == games[..read];
      collected := collected + g.positions;
      if g.counted {
        gameCount := gameCount + 1;
      }
      read := read + 1;
    }
  }

  // ---------------------------------------------------------------------
  // The epoch schedule
  // ---------------------------------------------------------------------

  /** The learning rate after k halvings. */
  function Halved(lr: real, k: nat): real
  {
    if k == 0 then lr else Halved(lr, k - 1) * 0.5
  }

  lemma {:induction false} HalvedShrinks(lr: real, k: nat, j: nat)
    requires lr > 0.0 && j <= k
    ensures 0.0 < Halved(lr, k) <= Halved(lr, j) <= lr
  {
    if k > j {
      HalvedShrinks(lr, k - 1, j);
    } else if k > 0 {
      HalvedShrinks(lr, k - 1, k - 1);
    }
  }

  /** The epoch counts after which a checkpoint is written: every tenth. */
  function Checkpoints(epochs: nat): (c: seq<nat>)
    ensures |c| == epochs / 10
  {
    seq(epochs / 10, j requires 0 <= j < epochs / 10 => 10 * (j + 1))
  }

  /**
   * The training loop of `train_nnue`: every epoch runs every position
   * once, batch by batch (the last batch may be short); the rate halves
   * after every twentieth epoch, a checkpoint is saved after every tenth
   * and the network is saved once more at the end. `trained` counts the
   * sample updates; `saves` the epoch count at each save.
   */
  method TrainSchedule(epochs: nat, lr0: real, positions: nat, batchSize: nat)
    returns (lr: real, saves: seq<nat>, trained: nat)
    requires batchSize > 0
    ensures trained == epochs * positions
    ensures lr == Halved(lr0, epochs / 20)
    ensures saves == Checkpoints(epochs) + [epochs]
  {
    lr, saves, trained := lr0, [], 0;
    var epoch := 0;
    while epoch < epochs
      invariant 0 <= epoch <= epochs
      invariant trained == epoch * positions
      invariant lr == Halved(lr0, epoch / 20)
      invariant saves == Checkpoints(epoch)
    {
      var i := 0;
      var numSamples := 0;
      while i < positions
        invariant 0 <= i <= positions + batchSize
        invariant numSamples == (if i < positions then i else positions)
        invariant trained == epoch * positions + numSamples
      {
        var end := if i + batchSize < positions then i + batchSize else positions;
        var k := i;
        while k < end
          invariant i <= k <= end
          invariant trained == epoch * positions + numSamples + (k - i)
        {
          trained := trained + 1;
          k := k + 1;
        }
        numSamples := numSamples + (end - i);
        i := i + batchSize;
      }
      assert (epoch + 1) * positions == epoch * positions + positions;
      if (epoch + 1) % 20 == 0 {
        lr := lr * 0.5;
      }
      if (epoch + 1) % 10 == 0 {
        saves := saves + [epoch + 1];
      }
      epoch := epoch + 1;
    }
    saves := saves + [epochs];
  }

  /** The rate never grows, and when the epoch count is a multiple of ten the last checkpoint and the final save are the same network. */
  lemma ScheduleFacts(epochs: nat, lr0: real)
    requires lr0 > 0.0
    ensures 0.0 < Halved(lr0, epochs / 20) <= lr0
    ensures epochs >= 10 && epochs % 10 == 0 ==>
      (Checkpoints(epochs) + [epochs])[epochs / 10 - 1] == epochs
    ensures forall j :: 0 <= j < |Checkpoints(epochs)| ==>
      Checkpoints(epochs)[j] % 10 == 0 && 0 < Checkpoints(epochs)[j] <= epochs
  {
    HalvedShrinks(lr0, epochs / 20, 0);
  }
}
