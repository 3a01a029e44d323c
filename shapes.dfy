/**
 * Tensor shapes as the transformer variants see them: what `nn.Linear`,
 * `nn.LayerNorm`, broadcasting `+`, `torch.cat`, `reshape`, `transpose`, the
 * two einops rearrangements and `x[:, 0]` do to a shape, and when each one
 * raises. Values are left out; a tensor is its shape.
 */
module Shapes {
  import opened PyOps

  type Shape = seq<nat>

  /** The exceptions the shape checks of torch, einops and Python raise, by cause. */
  datatype ShapeError =
    | SizeMismatch       // a weight or the other operand has the wrong size
    | NotBroadcastable   // `+` of shapes numpy broadcasting rejects
    | BadReshape         // element counts differ
    | DimensionError     // too few dimensions, or the wrong number to unpack
    | IndexOutOfRange    // indexing an empty dimension
    | ZeroDivision       // `//` or `** -0.5` by zero
    | NegativeDimension  // a layer built with a negative width
    | EinopsError        // a rearrangement pattern that does not fit
    | NotATensor         // a function returned None and it was used as a tensor

  function Last(s: Shape): nat
    requires |s| > 0
  {
    s[|s| - 1]
  }

  /** The number of elements. */
  function Numel(s: Shape): nat {
    if s == [] then 1 else s[0] * Numel(s[1..])
  }

  /** `x * y == x * z` exactly when `x` is 0 or `y == z`. */
  lemma MulCancel(x: nat, y: nat, z: nat)
    ensures x * y == x * z <==> x == 0 || y == z
  {
    if x > 0 && y < z {
      assert x * z == x * y + x * (z - y);
    } else if x > 0 && z < y {
      assert x * y == x * z + x * (y - z);
    }
  }

  lemma NumelOfThree(s: Shape)
    requires |s| == 3
    ensures Numel(s) == s[0] * (s[1] * s[2])
  {
    assert Numel(s[2..]) == s[2] by { assert s[2..][1..] == []; }
    assert s[1..][1..] == s[2..];
  }

  lemma NumelOfFour(s: Shape)
    requires |s| == 4
    ensures Numel(s) == s[0] * (s[1] * (s[2] * s[3]))
  {
    NumelOfThree(s[1..]);
  }

  lemma NumelOfFive(s: Shape)
    requires |s| == 5
    ensures Numel(s) == s[0] * (s[1] * (s[2] * (s[3] * s[4])))
  {
    NumelOfFour(s[1..]);
  }

  /** A product is 0 exactly when a factor is. */
  lemma MulZero(x: nat, y: nat)
    ensures x * y == 0 <==> x == 0 || y == 0
  {
    MulCancel(x, y, 0);
  }

  /** Dividing a multiple of `f` by `f`. */
  lemma DivOfMultiple(b: nat, f: nat)
    requires f > 0
    ensures (b * f) / f == b && (b * f) % f == 0
  {
    var q, r := (b * f) / f, (b * f) % f;
    assert f * q + r == b * f;
    MulCancel(f, q, b);
    if q < b {
      MulLess(f, q, b);
    } else if b < q {
      MulLess(f, b, q);
    }
  }

  /** Multiplying by a positive `f` keeps a gap of at least `f`. */
  lemma MulLess(f: nat, x: nat, y: nat)
    requires f > 0 && x < y
    ensures f * x + f <= f * y
  {
    var d := y - x - 1;
    assert f * y == f * x + f + f * d;
    assert f * d >= 0;
  }

  // ---------------------------------------------------------------------
  // Layers

  /** `nn.Linear(inF, outF)` on a tensor: the last dimension must be `inF` and becomes `outF`. */
  function Linear(inF: nat, outF: nat, s: Shape): (r: Result<Shape, ShapeError>)
    ensures r.Ok? <==> |s| > 0 && Last(s) == inF
    ensures r.Ok? ==> |r.value| == |s| && r.value[..|s| - 1] == s[..|s| - 1] && Last(r.value) == outF
  {
    if |s| == 0 || Last(s) != inF then Err(SizeMismatch) else Ok(s[..|s| - 1] + [outF])
  }

  /** Two layers in a row act as one from the first input width to the last output width. */
  lemma LinearCompose(a: nat, b: nat, c: nat, s: Shape)
    ensures Linear(a, b, s).Ok? ==> Linear(b, c, Linear(a, b, s).value) == Linear(a, c, s)
  {
    if Linear(a, b, s).Ok? {
      var t := Linear(a, b, s).value;
      assert t[..|t| - 1] == s[..|s| - 1];
    }
  }

  /** A layer on a batch of token sequences `(a, n, inF)`. */
  lemma LinearOnTokens(a: nat, n: nat, inF: nat, outF: nat)
    ensures Linear(inF, outF, [a, n, inF]) == Ok([a, n, outF])
  {
    var s := [a, n, inF];
    assert Last(s) == inF;
    assert s[..2] == [a, n];
    assert s[..2] + [outF] == [a, n, outF];
  }

  /** `nn.LayerNorm(d)`: normalises over a last dimension of size `d` and keeps the shape. */
  function LayerNorm(d: nat, s: Shape): (r: Result<Shape, ShapeError>)
    ensures r.Ok? <==> |s| > 0 && Last(s) == d
    ensures r.Ok? ==> r.value == s
  {
    if |s| == 0 || Last(s) != d then Err(SizeMismatch) else Ok(s)
  }

  // ---------------------------------------------------------------------
  // Broadcasting

  /** Two aligned dimensions broadcast when equal or when one of them is 1. */
  function BroadcastDim(x: nat, y: nat): (r: Option<nat>)
    ensures r.Some? <==> x == y || x == 1 || y == 1
    ensures r.Some? ==> (r.value == x || r.value == y) && (x != 1 ==> r.value == x) && (y != 1 ==> r.value == y)
  {
    if x == y then Some(x) else if x == 1 then Some(y) else if y == 1 then Some(x) else None
  }

  /** The shape of `a + b`: dimensions aligned from the right, missing ones taken from the longer shape. */
  function Broadcast(a: Shape, b: Shape): (r: Result<Shape, ShapeError>)
    ensures r.Ok? ==> |r.value| == Max(|a|, |b|)
    decreases |a| + |b|
  {
    if a == [] then Ok(b)
    else if b == [] then Ok(a)
    else
      match BroadcastDim(Last(a), Last(b))
      case None => Err(NotBroadcastable)
      case Some(d) =>
        var rest :- Broadcast(a[..|a| - 1], b[..|b| - 1]);
        Ok(rest + [d])
  }

  /** The `k`-th dimension counted from the right, 0 where the shape has none. */
  function FromRight(s: Shape, k: nat): nat {
    if k < |s| then s[|s| - 1 - k] else 0
  }

  /** Broadcasting as numpy describes it: every pair of right-aligned dimensions is compatible. */
  predicate Broadcastable(a: Shape, b: Shape) {
    forall k :: 0 <= k < |a| && k < |b| ==> BroadcastDim(FromRight(a, k), FromRight(b, k)).Some?
  }

  /**
   * `Broadcast` succeeds exactly on broadcastable shapes, and every result
   * dimension is the broadcast of the two aligned ones, or the only one there is.
   */
  lemma {:induction false} BroadcastIsRightAligned(a: Shape, b: Shape)
    ensures Broadcast(a, b).Ok? <==> Broadcastable(a, b)
    ensures Broadcast(a, b).Ok? ==> forall k :: 0 <= k < Max(|a|, |b|) ==>
      FromRight(Broadcast(a, b).value, k)
        == if k < |a| && k < |b| then BroadcastDim(FromRight(a, k), FromRight(b, k)).value
           else if k < |a| then FromRight(a, k) else FromRight(b, k)
    decreases |a| + |b|
  {
    if a != [] && b != [] {
      var a', b' := a[..|a| - 1], b[..|b| - 1];
      BroadcastIsRightAligned(a', b');
      assert forall k :: 0 <= k < |a'| ==> FromRight(a', k) == FromRight(a, k + 1);
      assert forall k :: 0 <= k < |b'| ==> FromRight(b', k) == FromRight(b, k + 1);
      if Broadcastable(a, b) {
        assert BroadcastDim(FromRight(a, 0), FromRight(b, 0)).Some?;
        forall k | 0 <= k < |a'| && k < |b'|
          ensures BroadcastDim(FromRight(a', k), FromRight(b', k)).Some?
        {
          assert BroadcastDim(FromRight(a, k + 1), FromRight(b, k + 1)).Some?;
        }
      } else {
        var k :| 0 <= k < |a| && k < |b| && BroadcastDim(FromRight(a, k), FromRight(b, k)).None?;
        if k > 0 {
          assert BroadcastDim(FromRight(a', k - 1), FromRight(b', k - 1)).None?;
        }
      }
      if Broadcast(a, b).Ok? {
        var r := Broadcast(a, b).value;
        var rest := Broadcast(a', b').value;
        assert r == rest + [BroadcastDim(Last(a), Last(b)).value];
        forall k | 1 <= k < Max(|a|, |b|)
          ensures FromRight(r, k) == FromRight(rest, k - 1)
        {
        }
      }
    }
  }

  /** Swapping the operands of `+` gives the same shape, or the same failure. */
  lemma {:induction false} BroadcastCommutes(a: Shape, b: Shape)
    ensures Broadcast(a, b) == Broadcast(b, a)
    decreases |a| + |b|
  {
    if a != [] && b != [] {
      BroadcastCommutes(a[..|a| - 1], b[..|b| - 1]);
    }
  }

  /** A shape broadcasts with itself to itself. */
  lemma {:induction false} BroadcastSelf(a: Shape)
    ensures Broadcast(a, a) == Ok(a)
    decreases |a|
  {
    if a != [] {
      BroadcastSelf(a[..|a| - 1]);
      assert a[..|a| - 1] + [Last(a)] == a;
    }
  }

  /**
   * A batch of token sequences `[b, n, e]` plus a positional table `[m, e]`:
   * the token counts must broadcast, and the result has the broadcast count.
   */
  lemma BroadcastTokens(b: nat, n: nat, m: nat, e: nat)
    ensures Broadcast([b, n, e], [m, e]).Ok? <==> BroadcastDim(n, m).Some?
    ensures Broadcast([b, n, e], [m, e]).Ok? ==> Broadcast([b, n, e], [m, e]).value == [b, BroadcastDim(n, m).value, e]
  {
    var s, t := [b, n, e], [m, e];
    assert s[..2] == [b, n] && t[..1] == [m] && [b, n][..1] == [b] && [m][..0] == [];
    assert Broadcast([b], []) == Ok([b]);
    if BroadcastDim(n, m).Some? {
      assert Broadcast([b, n], [m]) == Ok([b] + [BroadcastDim(n, m).value]);
      assert [b] + [BroadcastDim(n, m).value] + [e] == [b, BroadcastDim(n, m).value, e];
    } else {
      assert Broadcast([b, n], [m]).Err?;
    }
  }

  // ---------------------------------------------------------------------
  // Concatenation, indexing and rearrangement

  /** `torch.cat((a, b), dim)`: same rank, equal sizes off `dim`, and the sizes along `dim` add up. */
  function Cat(a: Shape, b: Shape, dim: nat): (r: Result<Shape, ShapeError>)
    ensures r.Ok? <==> |a| == |b| && dim < |a| && forall k :: 0 <= k < |a| && k != dim ==> a[k] == b[k]
    ensures r.Ok? ==> |r.value| == |a| && r.value[dim] == a[dim] + b[dim]
    ensures r.Ok? ==> forall k :: 0 <= k < |a| && k != dim ==> r.value[k] == a[k]
  {
    if |a| != |b| then Err(SizeMismatch)
    else if dim >= |a| then Err(DimensionError)
    else if exists k :: 0 <= k < |a| && k != dim && a[k] != b[k] then Err(SizeMismatch)
    else Ok(a[dim := a[dim] + b[dim]])
  }

  /** The parts share `parts[0]`'s rank and its sizes off `dim`. */
  predicate CatCompatible(parts: seq<Shape>, dim: nat)
    requires |parts| > 0
  {
    forall i :: 0 <= i < |parts| ==>
      |parts[i]| == |parts[0]| && forall k :: 0 <= k < |parts[0]| && k != dim ==> parts[i][k] == parts[0][k]
  }

  /**
   * `torch.cat(parts, dim)` of a non-empty list, as the pairwise concatenation from the right:
   * it succeeds exactly when the parts agree off `dim` (and `dim` exists, once there are two),
   * and the result keeps their rank and their sizes off `dim`.
   */
  function CatAll(parts: seq<Shape>, dim: nat): (r: Result<Shape, ShapeError>)
    requires |parts| > 0
    ensures r.Ok? <==> CatCompatible(parts, dim) && (|parts| > 1 ==> dim < |parts[0]|)
    ensures r.Ok? ==> |r.value| == |parts[0]|
    ensures r.Ok? ==> forall k :: 0 <= k < |parts[0]| && k != dim ==> r.value[k] == parts[0][k]
  {
    if |parts| == 1 then Ok(parts[0])
    else
      var rest :- CatAll(parts[1..], dim);
      Cat(parts[0], rest, dim)
  }

  function SumOf(xs: seq<nat>): nat {
    if xs == [] then 0 else xs[0] + SumOf(xs[1..])
  }

  /** Concatenating `[b, f, w_i]` along dimension 2 gives `[b, f, w_0 + ... + w_n]`. */
  lemma {:induction false} CatAllWidths(b: nat, f: nat, ws: seq<nat>)
    requires |ws| > 0
    ensures CatAll(seq(|ws|, i requires 0 <= i < |ws| => [b, f, ws[i]]), 2) == Ok([b, f, SumOf(ws)])
  {
    var parts := seq(|ws|, i requires 0 <= i < |ws| => [b, f, ws[i]]);
    if |ws| == 1 {
      assert ws[1..] == [];
      assert parts[0] == [b, f, SumOf(ws)];
    } else {
      assert parts[1..] == seq(|ws[1..]|, i requires 0 <= i < |ws[1..]| => [b, f, ws[1..][i]]);
      CatAllWidths(b, f, ws[1..]);
      var r := Cat([b, f, ws[0]], [b, f, SumOf(ws[1..])], 2).value;
      assert r == [b, f, SumOf(ws)] by {
        assert |r| == 3 && r[0] == b && r[1] == f && r[2] == ws[0] + SumOf(ws[1..]);
      }
    }
  }

  /** `x[:, 0]`: needs a second dimension, and a first element along it. */
  function SelectFirst(s: Shape): (r: Result<Shape, ShapeError>)
    ensures r.Ok? <==> |s| >= 2 && s[1] >= 1
    ensures r.Ok? ==> r.value == [s[0]] + s[2..]
  {
    if |s| < 2 then Err(DimensionError)
    else if s[1] == 0 then Err(IndexOutOfRange)
    else Ok([s[0]] + s[2..])
  }

  /** `torch.transpose(x, i, j)`. */
  function Transpose(s: Shape, i: nat, j: nat): (r: Result<Shape, ShapeError>)
    ensures r.Ok? <==> i < |s| && j < |s|
    ensures r.Ok? ==> |r.value| == |s| && r.value[i] == s[j] && r.value[j] == s[i]
    ensures r.Ok? ==> forall k :: 0 <= k < |s| && k != i && k != j ==> r.value[k] == s[k]
  {
    if i >= |s| || j >= |s| then Err(DimensionError) else Ok(s[i := s[j]][j := s[i]])
  }

  /** Transposing twice restores the shape. */
  lemma TransposeTwice(s: Shape, i: nat, j: nat)
    requires i < |s| && j < |s|
    ensures Transpose(Transpose(s, i, j).value, i, j) == Ok(s)
  {
    var t1 := Transpose(s, i, j).value;
    var t2 := Transpose(t1, i, j).value;
    assert |t1| == |s| && |t2| == |s|;
    assert t2 == s by {
      forall k | 0 <= k < |s|
        ensures t2[k] == s[k]
      {
        if k == i || k == j {
        } else {
          assert t1[k] == s[k];
        }
      }
    }
  }

  /** `transpose(1, 2)` of a three-dimensional shape. */
  lemma TransposeLastTwo(a: nat, n: nat, c: nat)
    ensures Transpose([a, n, c], 1, 2) == Ok([a, c, n])
  {
    assert [a, n, c][1 := c][2 := n] == [a, c, n];
  }

  /** `torch.reshape(x, t)` without `-1`: the element counts must agree. */
  function Reshape(s: Shape, t: Shape): (r: Result<Shape, ShapeError>)
    ensures r.Ok? <==> Numel(s) == Numel(t)
    ensures r.Ok? ==> r.value == t
  {
    if Numel(s) != Numel(t) then Err(BadReshape) else Ok(t)
  }

  /** A successful reshape can be undone. */
  lemma ReshapeBack(s: Shape, t: Shape)
    requires Reshape(s, t).Ok?
    ensures Reshape(Reshape(s, t).value, s) == Ok(s)
  {
  }

  /** einops `'b f p c -> (b f) p c'`. */
  function MergeBatch(s: Shape): (r: Result<Shape, ShapeError>)
    ensures r.Ok? <==> |s| == 4
  {
    if |s| != 4 then Err(EinopsError) else Ok([s[0] * s[1], s[2], s[3]])
  }

  /** einops `'(b f) w c -> b f (w c)'` with `f` given: the first dimension must split into `f` parts. */
  function SplitBatch(s: Shape, f: nat): (r: Result<Shape, ShapeError>)
    ensures r.Ok? <==> |s| == 3 && f > 0 && s[0] % f == 0
  {
    if |s| != 3 || f == 0 || s[0] % f != 0 then Err(EinopsError) else Ok([s[0] / f, f, s[1] * s[2]])
  }

  /** Both rearrangements keep the element count. */
  lemma RearrangeKeepsNumel(s: Shape, f: nat)
    ensures MergeBatch(s).Ok? ==> Numel(MergeBatch(s).value) == Numel(s)
    ensures SplitBatch(s, f).Ok? ==> Numel(SplitBatch(s, f).value) == Numel(s)
  {
    if MergeBatch(s).Ok? {
      NumelOfFour(s);
      NumelOfThree(MergeBatch(s).value);
    }
    if SplitBatch(s, f).Ok? {
      var q := s[0] / f;
      assert s[0] == q * f;
      NumelOfThree(s);
      NumelOfThree(SplitBatch(s, f).value);
    }
  }

  /** Merging batch and frames and splitting them again by the frame count gives `[b, f, p*c]`. */
  lemma MergeThenSplit(b: nat, f: nat, p: nat, c: nat)
    requires f > 0
    ensures SplitBatch(MergeBatch([b, f, p, c]).value, f) == Ok([b, f, p * c])
  {
    DivOfMultiple(b, f);
  }

  // ---------------------------------------------------------------------
  // Attention and transformer blocks

  /** `qk_scale or ...`: an override of None or 0.0 is falsy and falls through to `head_dim ** -0.5`. */
  predicate ScaleGiven(qkScale: Option<real>) {
    qkScale.Some? && qkScale.value != 0.0
  }

  /**
   * `Attention.__init__`: `head_dim = dim // num_heads`, then `head_dim ** -0.5`
   * unless a truthy `qk_scale` is given. Returns `head_dim`.
   */
  function AttentionInit(dim: nat, numHeads: nat, qkScale: Option<real>): (r: Result<nat, ShapeError>)
    ensures r.Ok? <==> numHeads > 0 && (ScaleGiven(qkScale) || dim >= numHeads)
    ensures r.Ok? ==> r.value * numHeads <= dim < (r.value + 1) * numHeads
    ensures r.Err? ==> r.error == ZeroDivision
  {
    if numHeads == 0 then Err(ZeroDivision)
    else if !ScaleGiven(qkScale) && dim / numHeads == 0 then Err(ZeroDivision)
    else Ok(dim / numHeads)
  }

  /** The `(B, N, 3C)` output of `qkv` reshapes into `(B, N, 3, H, C // H)` exactly when `B*N` is 0 or `H` divides `C`. */
  lemma HeadSplit(b: nat, n: nat, c: nat, h: nat)
    requires h > 0
    ensures Numel([b, n, 3 * c]) == Numel([b, n, 3, h, c / h]) <==> b * n == 0 || c % h == 0
  {
    var q := c / h;
    var hq := h * q;
    assert c % h == 0 <==> c == hq;
    NumelOfThree([b, n, 3 * c]);
    NumelOfFive([b, n, 3, h, q]);
    assert Numel([b, n, 3, h, q]) == b * (n * (3 * hq));
    MulCancel(b, n * (3 * c), n * (3 * hq));
    MulCancel(n, 3 * c, 3 * hq);
    MulZero(b, n);
  }

  /**
   * `Attention.forward` on `x` of shape `(B, N, C)`: `qkv`, the head split
   * reshape, then `proj` on the heads merged back to `(B, N, C)`.
   */
  function AttentionForward(dim: nat, numHeads: nat, x: Shape): (r: Result<Shape, ShapeError>)
    requires numHeads > 0
    ensures r.Ok? <==> |x| == 3 && x[2] == dim && (x[0] * x[1] == 0 || dim % numHeads == 0)
    ensures r.Ok? ==> r.value == x
  {
    if |x| != 3 then Err(DimensionError)
    else
      HeadSplit(x[0], x[1], x[2], numHeads);
      var qkv :- Linear(dim, 3 * dim, x);
      assert qkv == [x[0], x[1], 3 * x[2]] by { assert qkv[..2] == x[..2]; }
      var heads :- Reshape(qkv, [x[0], x[1], 3, numHeads, x[2] / numHeads]);
      // `(attn @ v).transpose(1, 2).reshape(B, N, C)` has as many elements as
      // the split above, so it cannot fail once that one succeeded.
      Linear(dim, dim, x)
  }

  /** `int(v)`: truncation toward zero. */
  function Truncate(v: real): int {
    if v >= 0.0 then v.Floor else -((-v).Floor)
  }

  /** The static part of one Block: its width, its heads, and the hidden width of its Mlp. */
  datatype BlockSpec = BlockSpec(dim: nat, numHeads: nat, hidden: nat)

  /** The static part of a `ModuleList` of `depth` identical Blocks. */
  datatype Stack = Stack(depth: nat, block: BlockSpec)

  /** A built stack can run: with at least one block, there is at least one head. */
  predicate StackReady(st: Stack) {
    st.depth == 0 || st.block.numHeads > 0
  }

  /** The Mlp's hidden width: `int(dim * mlp_ratio)`, or `dim` when that is 0 (`hidden_features or in_features`). */
  function MlpHidden(dim: nat, mlpRatio: real): int {
    var h := Truncate(dim as real * mlpRatio);
    if h == 0 then dim else h
  }

  /**
   * Building `depth` Blocks: each one builds an Attention and an Mlp whose
   * hidden width is `int(dim * mlp_ratio)`, or `dim` when that is 0 (the Mlp's
   * `hidden_features or in_features`); a negative width makes `nn.Linear`
   * raise. Nothing is built, and nothing fails, for depth 0.
   */
  function NewStack(depth: nat, dim: nat, numHeads: nat, qkScale: Option<real>, mlpRatio: real): (r: Result<Stack, ShapeError>)
    ensures r.Ok? <==> depth == 0 || (AttentionInit(dim, numHeads, qkScale).Ok? && Truncate(dim as real * mlpRatio) >= 0)
    ensures r.Ok? ==> StackReady(r.value) && r.value.depth == depth && r.value.block.dim == dim
    ensures r.Ok? && depth > 0 ==> r.value.block.hidden == MlpHidden(dim, mlpRatio)
  {
    var hidden := MlpHidden(dim, mlpRatio);
    if depth == 0 then Ok(Stack(0, BlockSpec(dim, numHeads, if hidden < 0 then 0 else hidden)))
    else
      var _ :- AttentionInit(dim, numHeads, qkScale);
      if hidden < 0 then Err(NegativeDimension) else Ok(Stack(depth, BlockSpec(dim, numHeads, hidden)))
  }

  /** What a block accepts: three dimensions, its own width last, and heads that split it (unless there are no tokens). */
  predicate BlockAccepts(blk: BlockSpec, x: Shape) {
    |x| == 3 && x[2] == blk.dim && (x[0] * x[1] == 0 || (blk.numHeads > 0 && blk.dim % blk.numHeads == 0))
  }

  /**
   * `Block.forward`: two pre-norm residual branches, attention then the two-layer Mlp.
   * It runs exactly on the inputs its attention accepts, and keeps their shape.
   */
  function BlockForward(blk: BlockSpec, x: Shape): (r: Result<Shape, ShapeError>)
    requires blk.numHeads > 0
    ensures r.Ok? <==> BlockAccepts(blk, x)
    ensures r.Ok? ==> r.value == x
  {
    var h :- LayerNorm(blk.dim, x);
    var a :- AttentionForward(blk.dim, blk.numHeads, h);
    BroadcastSelf(x);
    var x1 := Broadcast(x, a);
    if x1.Err? then x1 else
    var h2 := LayerNorm(blk.dim, x1.value);
    if h2.Err? then h2 else
    var m1 := Linear(blk.dim, blk.hidden, h2.value);
    if m1.Err? then m1 else
    assert m1.value[..2] == x[..2];
    var m2 := Linear(blk.hidden, blk.dim, m1.value);
    if m2.Err? then m2 else
    assert m2.value == x;
    Broadcast(x1.value, m2.value)
  }

  /**
   * `for blk in blocks: x = blk(x)` over `depth` copies of `blk`. Blocks keep the shape,
   * so a non-empty run fails or succeeds exactly as its first block does.
   */
  function RunBlocks(blk: BlockSpec, depth: nat, x: Shape): (r: Result<Shape, ShapeError>)
    requires depth == 0 || blk.numHeads > 0
    ensures depth > 0 ==> r == BlockForward(blk, x)
    ensures r.Ok? ==> r.value == x
  {
    if depth == 0 then Ok(x)
    else
      var y :- BlockForward(blk, x);
      RunBlocks(blk, depth - 1, y)
  }

  /** An empty stack is the identity; a non-empty one runs exactly on the inputs its blocks accept; every stack keeps the shape. */
  function StackForward(st: Stack, x: Shape): (r: Result<Shape, ShapeError>)
    requires StackReady(st)
    ensures st.depth == 0 ==> r == Ok(x)
    ensures st.depth > 0 ==> (r.Ok? <==> BlockAccepts(st.block, x))
    ensures r.Ok? ==> r.value == x
  {
    RunBlocks(st.block, st.depth, x)
  }
}
