/**
 * The five classifier variants as shape programs: what each constructor
 * builds (and when it raises), and what each `forward` does to the shape of a
 * batch `(b, f, w)` of flattened skeleton frames, down to the `(b,
 * num_classes)` logits. The theorems say, for each variant, exactly which
 * inputs get through.
 */
module Variants {
  import opened PyOps
  import opened Shapes
  import BodyParts

  datatype Variant =
    | Temporal          // TemporalTransformer: one token per frame
    | Temporal2         // TemporalTransformer_2: one token per coordinate, its values over time
    | Temporal3         // TemporalTransformer_3: one token per frame of body-part means
    | SpatialTemporal   // SpatialTemporalTransformer: joints attend within a frame, then frames
    | BodyPart          // BodyPartTransformer: as above, per body part

  predicate IsSpatial(v: Variant) {
    v == SpatialTemporal || v == BodyPart
  }

  /**
   * The constructor arguments that decide shapes. `width` is `embed_dim` for
   * the three temporal variants and `embed_dim_ratio` for the two spatial ones.
   */
  datatype Config = Config(
    numClasses: nat, numFrames: nat, numJoints: nat, numParts: nat, inChans: nat,
    width: nat, depth: nat, numHeads: nat, qkScale: Option<real>, mlpRatio: real)

  /** The temporal token width: `embed_dim`, or `embed_dim_ratio * num_joints` for the spatial variants. */
  function EmbedDim(v: Variant, cfg: Config): nat {
    if IsSpatial(v) then cfg.width * cfg.numJoints else cfg.width
  }

  /** A built model: its variant and arguments, its temporal width, and its spatial and temporal block stacks. */
  datatype Model = Model(variant: Variant, cfg: Config, embedDim: nat, spatial: Stack, temporal: Stack)

  /** Whether a block stack of width `dim` can be built. */
  predicate StackBuilds(cfg: Config, dim: nat) {
    cfg.depth == 0 || (AttentionInit(dim, cfg.numHeads, cfg.qkScale).Ok? && Truncate(dim as real * cfg.mlpRatio) >= 0)
  }

  /** `NewStack` with the model's arguments builds exactly when `StackBuilds` says so. */
  lemma NewStackBuilds(cfg: Config, dim: nat)
    ensures var r := NewStack(cfg.depth, dim, cfg.numHeads, cfg.qkScale, cfg.mlpRatio);
      && (r.Ok? <==> StackBuilds(cfg, dim))
      && (r.Ok? ==> StackReady(r.value) && r.value.depth == cfg.depth && r.value.block.dim == dim)
  {
  }

  /**
   * `__init__`: the spatial variants build their spatial blocks at width
   * `embed_dim_ratio` (the body-part variant five lists of them) and their
   * temporal blocks at `embed_dim_ratio * num_joints`; the others build one
   * list at `embed_dim`. Layers, tables and the class token cannot fail.
   */
  function Construct(v: Variant, cfg: Config): (r: Result<Model, ShapeError>)
    ensures r.Ok? <==> StackBuilds(cfg, EmbedDim(v, cfg)) && (IsSpatial(v) ==> StackBuilds(cfg, cfg.width))
    ensures r.Ok? ==> r.value.variant == v && r.value.cfg == cfg && r.value.embedDim == EmbedDim(v, cfg)
    ensures r.Ok? ==> StackReady(r.value.temporal) && r.value.temporal.depth == cfg.depth
    ensures r.Ok? ==> r.value.temporal.block.dim == EmbedDim(v, cfg)
    ensures r.Ok? && IsSpatial(v) ==> StackReady(r.value.spatial) && r.value.spatial.depth == cfg.depth
    ensures r.Ok? && IsSpatial(v) ==> r.value.spatial.block.dim == cfg.width
  {
    NewStackBuilds(cfg, cfg.width);
    NewStackBuilds(cfg, EmbedDim(v, cfg));
    if IsSpatial(v) then
      var spatial :- NewStack(cfg.depth, cfg.width, cfg.numHeads, cfg.qkScale, cfg.mlpRatio);
      var temporal :- NewStack(cfg.depth, EmbedDim(v, cfg), cfg.numHeads, cfg.qkScale, cfg.mlpRatio);
      Ok(Model(v, cfg, EmbedDim(v, cfg), spatial, temporal))
    else
      var temporal :- NewStack(cfg.depth, cfg.width, cfg.numHeads, cfg.qkScale, cfg.mlpRatio);
      Ok(Model(v, cfg, cfg.width, Stack(0, temporal.block), temporal))
  }

  /** Every model `Construct` returns. */
  predicate Built(m: Model) {
    Construct(m.variant, m.cfg) == Ok(m)
  }

  /** With at least one block, a built model has at least one head. */
  lemma BuiltHasHeads(m: Model)
    requires Built(m) && m.cfg.depth > 0
    ensures m.cfg.numHeads > 0 && m.temporal.block.numHeads == m.cfg.numHeads
    ensures IsSpatial(m.variant) ==> m.spatial.block.numHeads == m.cfg.numHeads
    ensures m.embedDim == EmbedDim(m.variant, m.cfg)
  {
  }

  // ---------------------------------------------------------------------
  // Forward passes

  /** `cls_token.expand(x.shape[0], -1, -1)` and `torch.cat((cls_token, x), dim=1)`. */
  function PrependCls(e: nat, x: Shape): (r: Result<Shape, ShapeError>)
    ensures r.Ok? <==> |x| == 3 && x[2] == e
    ensures r.Ok? ==> r.value == [x[0], x[1] + 1, e]
  {
    if |x| == 0 then Err(DimensionError)
    else
      var r :- Cat([x[0], 1, e], x, 1);
      assert r == [x[0], x[1] + 1, e] by { assert |r| == 3; }
      Ok(r)
  }

  /**
   * The shape `get_average_body_parts(num_joints, x)` returns: dimension 2
   * becomes the ten (mean x, mean y) columns; None for other joint counts.
   */
  function AveragedShape(numJoints: nat, x: Shape): (r: Result<Shape, ShapeError>)
    ensures r.Ok? <==> (numJoints == 17 || numJoints == 25) && |x| >= 3
    ensures r.Ok? ==> r.value == x[2 := 10]
  {
    if numJoints != 17 && numJoints != 25 then Err(NotATensor)
    else if |x| < 3 then Err(DimensionError)
    else Ok(x[2 := 10])
  }

  /** `x[:, :, lo:hi, :]` on a `(b, f, j, c)` tensor: only the joint axis changes, it never grows, and an in-range slice keeps `hi - lo` joints. */
  function SliceJoints(x: Shape, lo: nat, hi: nat): (r: Shape)
    requires |x| == 4
    ensures |r| == 4 && r[0] == x[0] && r[1] == x[1] && r[3] == x[3] && r[2] <= x[2]
    ensures lo <= hi <= x[2] ==> r[2] == hi - lo
  {
    x[2 := BodyParts.ClampedCount(lo, hi, x[2])]
  }

  /**
   * `Spatial_forward_features` (and the five per-part copies): joints of
   * every frame become tokens of width `embed_dim_ratio`, get a positional
   * table of `posRows` rows, go through the spatial blocks, and are laid out
   * again as one `(b, f, tokens * embed_dim_ratio)` row per frame. It needs
   * frames, `in_chans` values per joint and joints that broadcast with the
   * table.
   */
  function SpatialFeatures(m: Model, x: Shape, posRows: nat): (r: Result<Shape, ShapeError>)
    requires StackReady(m.spatial)
    ensures r.Ok? ==> |x| == 4 && x[1] > 0 && x[3] == m.cfg.inChans && BroadcastDim(x[2], posRows).Some?
    ensures r.Ok? ==> r.value == [x[0], x[1], BroadcastDim(x[2], posRows).value * m.cfg.width]
  {
    if |x| != 4 then Err(DimensionError)
    else
      LinearOnTokens(x[0] * x[1], x[2], m.cfg.inChans, m.cfg.width);
      BroadcastTokens(x[0] * x[1], x[2], posRows, m.cfg.width);
      var merged :- MergeBatch(x);
      var e :- Linear(m.cfg.inChans, m.cfg.width, merged);
      var p :- Broadcast(e, [posRows, m.cfg.width]);
      var y :- StackForward(m.spatial, p);
      var n :- LayerNorm(m.cfg.width, y);
      var rows :- SplitBatch(n, x[1]);
      DivOfMultiple(x[0], x[1]);
      Ok(rows)
  }

  /** `b, f, e = x.shape; j = e // c; torch.reshape(x, (b, f, j, c))`: batch and frames stay, the width becomes `e // c` joints of `c` values. */
  function SplitJoints(c: nat, x: Shape): (r: Result<Shape, ShapeError>)
    ensures r.Ok? ==> |x| == 3 && c > 0 && r.value == [x[0], x[1], x[2] / c, c]
  {
    if |x| != 3 then Err(DimensionError)
    else if c == 0 then Err(ZeroDivision)
    else Reshape(x, [x[0], x[1], x[2] / c, c])
  }

  /** The body-part forward up to the concatenation of the five parts' features: one row per frame of a `(b, f, w)` batch with frames. */
  function BodyPartFeatures(m: Model, x: Shape): (r: Result<Shape, ShapeError>)
    requires StackReady(m.spatial)
    ensures r.Ok? ==> |x| == 3 && x[1] > 0 && |r.value| == 3 && r.value[0] == x[0] && r.value[1] == x[1]
  {
    var r :- SplitJoints(m.cfg.inChans, x);
    if |r| != 4 then Err(DimensionError) else PartFeatures(m, r)
  }

  /**
   * The five parts of a `(b, f, j, c)` batch: the torso joints 0-6 and 11-12
   * against a 9-row table, elbows, wrists, knees and ankles against 2-row
   * tables, concatenated along the feature axis: one row per frame.
   */
  function PartFeatures(m: Model, r: Shape): (out: Result<Shape, ShapeError>)
    requires StackReady(m.spatial) && |r| == 4
    ensures out.Ok? ==> r[1] > 0 && r[3] == m.cfg.inChans
    ensures out.Ok? ==> |out.value| == 3 && out.value[0] == r[0] && out.value[1] == r[1]
  {
    var torsoJoints :- Cat(SliceJoints(r, 0, 7), SliceJoints(r, 11, 13), 2);
    var torso :- SpatialFeatures(m, torsoJoints, 9);
    var elbow :- SpatialFeatures(m, SliceJoints(r, 7, 9), 2);
    var wrist :- SpatialFeatures(m, SliceJoints(r, 9, 11), 2);
    var knee :- SpatialFeatures(m, SliceJoints(r, 13, 15), 2);
    var ankle :- SpatialFeatures(m, SliceJoints(r, 15, 17), 2);
    CatAll([torso, elbow, wrist, knee, ankle], 2)
  }

  /**
   * The per-frame features each variant hands to its class token: a linear
   * embedding of the frames, of the transposed coordinates, of the averaged
   * body parts, or the spatial blocks' output (whole skeleton or five parts).
   * The batch dimension stays first; the temporal variants end in
   * `embed_dim`; `TemporalTransformer_2` puts the coordinates where the frames
   * were; the spatial variants need `(b, f, w)` with frames.
   */
  function Embed(m: Model, x: Shape): (r: Result<Shape, ShapeError>)
    requires Built(m)
    ensures r.Ok? ==> |r.value| == |x| > 0
    ensures r.Ok? && |x| > 1 ==> r.value[0] == x[0]
    ensures r.Ok? && !IsSpatial(m.variant) ==> Last(r.value) == m.embedDim
    ensures r.Ok? && m.variant == Temporal2 ==> |x| >= 3 && r.value[1] == x[2]
    ensures r.Ok? && m.variant != Temporal2 && |x| > 2 ==> r.value[1] == x[1]
    ensures r.Ok? && IsSpatial(m.variant) ==> |x| == 3 && x[1] > 0
  {
    var c, e := m.cfg, m.embedDim;
    match m.variant
    case Temporal => Linear(c.numJoints * c.inChans, e, x)
    case Temporal2 =>
      var xt :- Transpose(x, 1, 2);
      Linear(c.numFrames, e, xt)
    case Temporal3 =>
      var avg :- AveragedShape(c.numJoints, x);
      Linear(c.numParts * c.inChans, e, avg)
    case SpatialTemporal =>
      var r :- SplitJoints(c.inChans, x);
      SpatialFeatures(m, r, c.numJoints)
    case BodyPart => BodyPartFeatures(m, x)
  }

  /** Rows of the temporal positional table, less the class token's: frames, or coordinates for `TemporalTransformer_2`. */
  function PositionRows(m: Model): nat {
    if m.variant == Temporal2 then m.cfg.numJoints * m.cfg.inChans else m.cfg.numFrames
  }

  /** The token sequence for the temporal blocks: class token first, positions added; `(b, tokens, embed_dim)`. */
  function Tokens(m: Model, x: Shape): (r: Result<Shape, ShapeError>)
    requires Built(m)
    ensures r.Ok? ==> |x| == 3 && |r.value| == 3 && r.value[0] == x[0] && r.value[2] == m.embedDim
  {
    var emb :- Embed(m, x);
    var t :- PrependCls(m.embedDim, emb);
    BroadcastTokens(t[0], t[1], PositionRows(m) + 1, m.embedDim);
    Broadcast(t, [PositionRows(m) + 1, m.embedDim])
  }

  /** The temporal blocks, the final norm, the class token `x[:, 0]` and the head: the token axis goes, `num_classes` ends the shape. */
  function Classify(m: Model, t: Shape): (r: Result<Shape, ShapeError>)
    requires Built(m)
    ensures r.Ok? ==> |t| >= 2 && t[1] >= 1 && |r.value| == |t| - 1
    ensures r.Ok? && |t| > 2 ==> r.value[0] == t[0]
    ensures r.Ok? ==> Last(r.value) == m.cfg.numClasses
  {
    var y :- StackForward(m.temporal, t);
    var n :- LayerNorm(m.embedDim, y);
    var cls :- SelectFirst(n);
    Linear(m.embedDim, m.cfg.numClasses, cls)
  }

  /** `model(x)`: only a three-dimensional `(b, f, w)` batch gets through, as one row of logits per batch element. */
  function Forward(m: Model, x: Shape): (r: Result<Shape, ShapeError>)
    requires Built(m)
    ensures r.Ok? ==> |x| == 3 && r.value == [x[0], m.cfg.numClasses]
  {
    var t :- Tokens(m, x);
    Classify(m, t)
  }

  // ---------------------------------------------------------------------
  // Shape theorems

  /** `f` frames plus the class token meet a table of `rows` frames plus one. */
  predicate FramesFit(f: nat, rows: nat) {
    f == rows || f == 0 || rows == 0
  }

  lemma FramesFitIsBroadcast(f: nat, rows: nat)
    ensures BroadcastDim(f + 1, rows + 1).Some? <==> FramesFit(f, rows)
    ensures FramesFit(f, rows) ==> BroadcastDim(f + 1, rows + 1).value >= 1
  {
  }

  /** Any `n >= 1` tokens of the model's width come out as one row of logits per batch element. */
  lemma ClassifyTokens(m: Model, b: nat, n: nat)
    requires Built(m) && m.cfg.depth > 0 && b > 0 && n > 0
    ensures Classify(m, [b, n, m.embedDim]).Ok? <==> m.embedDim % m.cfg.numHeads == 0
    ensures Classify(m, [b, n, m.embedDim]).Ok? ==> Classify(m, [b, n, m.embedDim]).value == [b, m.cfg.numClasses]
  {
    BuiltHasHeads(m);
    MulZero(b, n);
  }

  /** The class token and the frame positions on top of `(b, f, e)` embedded frames. */
  lemma FrameTokens(e: nat, rows: nat, b: nat, f: nat)
    ensures (var t := PrependCls(e, [b, f, e]).value; Broadcast(t, [rows + 1, e]).Ok? <==> FramesFit(f, rows))
    ensures (var t := PrependCls(e, [b, f, e]).value; Broadcast(t, [rows + 1, e]).Ok? ==>
      Broadcast(t, [rows + 1, e]).value == [b, BroadcastDim(f + 1, rows + 1).value, e])
  {
    BroadcastTokens(b, f + 1, rows + 1, e);
    FramesFitIsBroadcast(f, rows);
  }

  /**
   * Once a variant has embedded its input as `(b, f, w)` features, the
   * forward succeeds exactly when they are `embed_dim` wide, their count
   * fits the positional table and the heads split `embed_dim`; every variant
   * then gives one row of logits per batch element.
   */
  lemma ForwardOfEmbedded(m: Model, x: Shape, b: nat, f: nat, w: nat)
    requires Built(m) && m.cfg.depth > 0 && b > 0
    requires Embed(m, x) == Ok([b, f, w])
    ensures Forward(m, x).Ok? <==> w == m.embedDim && FramesFit(f, PositionRows(m)) && m.embedDim % m.cfg.numHeads == 0
    ensures Forward(m, x).Ok? ==> Forward(m, x).value == [b, m.cfg.numClasses]
  {
    if w == m.embedDim {
      FrameTokens(m.embedDim, PositionRows(m), b, f);
      if FramesFit(f, PositionRows(m)) {
        FramesFitIsBroadcast(f, PositionRows(m));
        ClassifyTokens(m, b, BroadcastDim(f + 1, PositionRows(m) + 1).value);
      }
    }
  }

  /** `ForwardOfEmbedded`, with the embedding's success given by `embeds`. */
  lemma ForwardFromEmbed(m: Model, x: Shape, b: nat, f: nat, w: nat, embeds: bool)
    requires Built(m) && m.cfg.depth > 0 && b > 0
    requires Embed(m, x).Ok? <==> embeds
    requires embeds ==> Embed(m, x) == Ok([b, f, w])
    ensures Forward(m, x).Ok?
      <==> embeds && w == m.embedDim && FramesFit(f, PositionRows(m)) && m.embedDim % m.cfg.numHeads == 0
    ensures Forward(m, x).Ok? ==> Forward(m, x).value == [b, m.cfg.numClasses]
  {
    if embeds {
      ForwardOfEmbedded(m, x, b, f, w);
    }
  }

  /**
   * TemporalTransformer takes exactly the batches whose frames are
   * `num_joints * in_chans` wide and whose frame count fits the positional
   * table, provided the heads split `embed_dim`.
   */
  lemma TemporalForward(m: Model, b: nat, f: nat, w: nat)
    requires Built(m) && m.variant == Temporal && m.cfg.depth > 0 && b > 0
    ensures Forward(m, [b, f, w]).Ok?
      <==> w == m.cfg.numJoints * m.cfg.inChans && FramesFit(f, m.cfg.numFrames) && m.cfg.width % m.cfg.numHeads == 0
    ensures Forward(m, [b, f, w]).Ok? ==> Forward(m, [b, f, w]).value == [b, m.cfg.numClasses]
  {
    if w == m.cfg.numJoints * m.cfg.inChans {
      LinearOnTokens(b, f, w, m.embedDim);
      ForwardOfEmbedded(m, [b, f, w], b, f, m.embedDim);
    }
  }

  /**
   * TemporalTransformer_2 takes exactly the batches of `num_frames` frames whose
   * coordinate count fits its positional table of `num_joints * in_chans + 1`
   * rows, provided the heads split `embed_dim`.
   */
  lemma Temporal2Forward(m: Model, b: nat, f: nat, w: nat)
    requires Built(m) && m.variant == Temporal2 && m.cfg.depth > 0 && b > 0
    ensures Forward(m, [b, f, w]).Ok?
      <==> f == m.cfg.numFrames && FramesFit(w, m.cfg.numJoints * m.cfg.inChans) && m.cfg.width % m.cfg.numHeads == 0
    ensures Forward(m, [b, f, w]).Ok? ==> Forward(m, [b, f, w]).value == [b, m.cfg.numClasses]
  {
    TransposeLastTwo(b, f, w);
    if f == m.cfg.numFrames {
      LinearOnTokens(b, w, f, m.embedDim);
      ForwardOfEmbedded(m, [b, f, w], b, w, m.embedDim);
    }
  }

  /**
   * TemporalTransformer_3 takes exactly the batches of 17- or 25-joint
   * skeletons when `num_parts * in_chans` is the 10 averaged columns, the
   * frame count fits and the heads split `embed_dim`. The frame width itself
   * is never checked.
   */
  lemma Temporal3Forward(m: Model, b: nat, f: nat, w: nat)
    requires Built(m) && m.variant == Temporal3 && m.cfg.depth > 0 && b > 0
    ensures Forward(m, [b, f, w]).Ok?
      <==> && (m.cfg.numJoints == 17 || m.cfg.numJoints == 25)
           && m.cfg.numParts * m.cfg.inChans == 10
           && FramesFit(f, m.cfg.numFrames)
           && m.cfg.width % m.cfg.numHeads == 0
    ensures Forward(m, [b, f, w]).Ok? ==> Forward(m, [b, f, w]).value == [b, m.cfg.numClasses]
  {
    var c := m.cfg;
    if c.numJoints == 17 || c.numJoints == 25 {
      assert AveragedShape(c.numJoints, [b, f, w]) == Ok([b, f, 10]) by {
        assert [b, f, w][2 := 10] == [b, f, 10];
      }
      if c.numParts * c.inChans == 10 {
        LinearOnTokens(b, f, 10, m.embedDim);
        ForwardOfEmbedded(m, [b, f, w], b, f, m.embedDim);
      }
    }
  }

  /** The reshape to `(b, f, e // c, c)` of a batch with frames succeeds exactly when `c` divides `e`. */
  lemma SplitJointsShape(c: nat, b: nat, f: nat, e: nat)
    requires b > 0 && f > 0
    ensures SplitJoints(c, [b, f, e]).Ok? <==> c > 0 && e % c == 0
    ensures SplitJoints(c, [b, f, e]).Ok? ==> SplitJoints(c, [b, f, e]).value == [b, f, e / c, c]
  {
    if c > 0 {
      var j := e / c;
      assert e == j * c + e % c;
      NumelOfThree([b, f, e]);
      NumelOfFour([b, f, j, c]);
      MulCancel(b, f * e, f * (j * c));
      MulCancel(f, e, j * c);
    }
  }

  /**
   * One spatial pass over `(b, f, g, in_chans)`: the `g` joint tokens must
   * broadcast with the `rows` positions, the heads must split
   * `embed_dim_ratio` unless no token is left, and the result is one row of
   * `tokens * embed_dim_ratio` per frame.
   */
  lemma SpatialFeaturesShape(m: Model, b: nat, f: nat, g: nat, rows: nat)
    requires Built(m) && IsSpatial(m.variant) && m.cfg.depth > 0 && b > 0 && f > 0
    ensures SpatialFeatures(m, [b, f, g, m.cfg.inChans], rows).Ok?
      <==> BroadcastDim(g, rows).Some? && (BroadcastDim(g, rows).value == 0 || m.cfg.width % m.cfg.numHeads == 0)
    ensures SpatialFeatures(m, [b, f, g, m.cfg.inChans], rows).Ok? ==>
      SpatialFeatures(m, [b, f, g, m.cfg.inChans], rows).value == [b, f, BroadcastDim(g, rows).value * m.cfg.width]
  {
    var c, r := m.cfg.inChans, m.cfg.width;
    BuiltHasHeads(m);
    assert MergeBatch([b, f, g, c]) == Ok([b * f, g, c]);
    LinearOnTokens(b * f, g, c, r);
    BroadcastTokens(b * f, g, rows, r);
    MulZero(b, f);
    if BroadcastDim(g, rows).Some? {
      var p := BroadcastDim(g, rows).value;
      MulZero(b * f, p);
      DivOfMultiple(b, f);
      assert (b * f) / f == b;
    }
  }

  /**
   * SpatialTemporalTransformer takes exactly the batches that have frames,
   * whose width `e` splits into `in_chans` columns per joint and into
   * `num_joints` joints (or a single joint, which the positional table
   * broadcasts to all of them), whose frame count fits, and whose heads split
   * both `embed_dim_ratio` and `embed_dim`.
   */
  lemma SpatialTemporalForward(m: Model, b: nat, f: nat, e: nat)
    requires Built(m) && m.variant == SpatialTemporal && m.cfg.depth > 0 && b > 0
    requires m.cfg.numJoints > 0 && m.cfg.width > 0
    ensures Forward(m, [b, f, e]).Ok?
      <==> && m.cfg.inChans > 0 && f > 0 && e % m.cfg.inChans == 0
           && (e / m.cfg.inChans == m.cfg.numJoints || e / m.cfg.inChans == 1)
           && FramesFit(f, m.cfg.numFrames)
           && m.cfg.width % m.cfg.numHeads == 0
           && (m.cfg.width * m.cfg.numJoints) % m.cfg.numHeads == 0
    ensures Forward(m, [b, f, e]).Ok? ==> Forward(m, [b, f, e]).value == [b, m.cfg.numClasses]
  {
    if f == 0 {
      SpatialTemporalNeedsFrames(m, b, e);
    } else {
      SpatialTemporalWithFrames(m, b, f, e);
    }
  }

  lemma SpatialTemporalWithFrames(m: Model, b: nat, f: nat, e: nat)
    requires Built(m) && m.variant == SpatialTemporal && m.cfg.depth > 0 && b > 0 && f > 0
    requires m.cfg.numJoints > 0 && m.cfg.width > 0
    ensures Forward(m, [b, f, e]).Ok?
      <==> && m.cfg.inChans > 0 && e % m.cfg.inChans == 0
           && (e / m.cfg.inChans == m.cfg.numJoints || e / m.cfg.inChans == 1)
           && FramesFit(f, m.cfg.numFrames)
           && m.cfg.width % m.cfg.numHeads == 0
           && m.embedDim % m.cfg.numHeads == 0
    ensures Forward(m, [b, f, e]).Ok? ==> Forward(m, [b, f, e]).value == [b, m.cfg.numClasses]
  {
    var c, r, jn, h := m.cfg.inChans, m.cfg.width, m.cfg.numJoints, m.cfg.numHeads;
    BuiltHasHeads(m);
    SpatialTemporalEmbedded(m, b, f, e);
    SpatialWidthFits(c, r, jn, e, h);
  }

  /** `ForwardFromEmbed` for the spatial embedding. */
  lemma SpatialTemporalEmbedded(m: Model, b: nat, f: nat, e: nat)
    requires Built(m) && m.variant == SpatialTemporal && m.cfg.depth > 0 && b > 0 && f > 0
    ensures Forward(m, [b, f, e]).Ok?
      <==> && SpatialEmbeds(m.cfg.inChans, e, m.cfg.numJoints, m.cfg.width, m.cfg.numHeads)
           && SpatialRows(JointsOf(m.cfg.inChans, e), m.cfg.numJoints) * m.cfg.width == m.embedDim
           && FramesFit(f, m.cfg.numFrames) && m.embedDim % m.cfg.numHeads == 0
    ensures Forward(m, [b, f, e]).Ok? ==> Forward(m, [b, f, e]).value == [b, m.cfg.numClasses]
  {
    var c, r, jn, h := m.cfg.inChans, m.cfg.width, m.cfg.numJoints, m.cfg.numHeads;
    SpatialEmbed(m, b, f, e);
    ForwardFromEmbed(m, [b, f, e], b, f, SpatialRows(JointsOf(c, e), jn) * r, SpatialEmbeds(c, e, jn, r, h));
  }

  /**
   * `p * embed_dim_ratio` features meet `embed_dim = embed_dim_ratio * num_joints`
   * exactly when the positional table broadcast to `p == num_joints` rows,
   * that is when the frame held `num_joints` joints or a single one.
   */
  lemma SpatialWidthFits(c: nat, r: nat, jn: nat, e: nat, h: nat)
    requires r > 0 && jn > 0 && h > 0
    ensures SpatialEmbeds(c, e, jn, r, h) && SpatialRows(JointsOf(c, e), jn) * r == r * jn
      <==> c > 0 && e % c == 0 && (e / c == jn || e / c == 1) && r % h == 0
  {
    var p := SpatialRows(JointsOf(c, e), jn);
    assert p * r == r * p;
    MulCancel(r, p, jn);
  }

  /** The frame's joint count once `e` is split into `in_chans` columns (zero when it cannot be). */
  function JointsOf(c: nat, e: nat): nat {
    if c > 0 then e / c else 0
  }

  /** The rows the `num_joints` positional table broadcasts to against `j` joint tokens (zero when it cannot). */
  function SpatialRows(j: nat, jn: nat): nat {
    if BroadcastDim(j, jn).Some? then BroadcastDim(j, jn).value else 0
  }

  /** Whether the spatial embedding of a `(b, f, e)` batch with frames succeeds. */
  predicate SpatialEmbeds(c: nat, e: nat, jn: nat, r: nat, h: nat) {
    && c > 0 && e % c == 0 && BroadcastDim(JointsOf(c, e), jn).Some?
    && (SpatialRows(JointsOf(c, e), jn) == 0 || (h > 0 && r % h == 0))
  }

  /** The spatial embedding of `(b, f, e)`: split into joints, then one spatial pass against the `num_joints` table. */
  lemma SpatialEmbed(m: Model, b: nat, f: nat, e: nat)
    requires Built(m) && m.variant == SpatialTemporal && m.cfg.depth > 0 && b > 0 && f > 0
    ensures Embed(m, [b, f, e]).Ok? <==> SpatialEmbeds(m.cfg.inChans, e, m.cfg.numJoints, m.cfg.width, m.cfg.numHeads)
    ensures Embed(m, [b, f, e]).Ok? ==>
      Embed(m, [b, f, e]) == Ok([b, f, SpatialRows(JointsOf(m.cfg.inChans, e), m.cfg.numJoints) * m.cfg.width])
  {
    var c := m.cfg.inChans;
    BuiltHasHeads(m);
    SplitJointsShape(c, b, f, e);
    if c > 0 && e % c == 0 {
      SpatialFeaturesShape(m, b, f, e / c, m.cfg.numJoints);
    }
  }

  /** Without frames the final `'(b f) w c -> b f (w c)'` cannot split the empty batch. */
  lemma SpatialTemporalNeedsFrames(m: Model, b: nat, e: nat)
    requires Built(m) && m.variant == SpatialTemporal
    ensures Embed(m, [b, 0, e]).Err?
  {
    var c := m.cfg.inChans;
    if c > 0 && SplitJoints(c, [b, 0, e]).Ok? {
      var x := [b, 0, e / c, c];
      assert SplitJoints(c, [b, 0, e]).value == x;
      assert MergeBatch(x) == Ok([b * 0, e / c, c]);
    }
  }

  /** The five slices of a `(b, f, j, c)` batch have the group sizes of the 17-joint regrouping. */
  lemma BodyPartSlices(b: nat, f: nat, j: nat, c: nat)
    ensures Cat(SliceJoints([b, f, j, c], 0, 7), SliceJoints([b, f, j, c], 11, 13), 2)
      == Ok([b, f, BodyParts.GroupSizes(j)[0], c])
    ensures SliceJoints([b, f, j, c], 7, 9) == [b, f, BodyParts.GroupSizes(j)[1], c]
    ensures SliceJoints([b, f, j, c], 9, 11) == [b, f, BodyParts.GroupSizes(j)[2], c]
    ensures SliceJoints([b, f, j, c], 13, 15) == [b, f, BodyParts.GroupSizes(j)[3], c]
    ensures SliceJoints([b, f, j, c], 15, 17) == [b, f, BodyParts.GroupSizes(j)[4], c]
  {
    var x := [b, f, j, c];
    var g := BodyParts.GroupSizes(j);
    assert SliceJoints(x, 0, 7) == [b, f, BodyParts.ClampedCount(0, 7, j), c];
    assert SliceJoints(x, 11, 13) == [b, f, BodyParts.ClampedCount(11, 13, j), c];
    assert SliceJoints(x, 7, 9) == [b, f, g[1], c];
    assert SliceJoints(x, 9, 11) == [b, f, g[2], c];
    assert SliceJoints(x, 13, 15) == [b, f, g[3], c];
    assert SliceJoints(x, 15, 17) == [b, f, g[4], c];
    var r := Cat(SliceJoints(x, 0, 7), SliceJoints(x, 11, 13), 2).value;
    assert |r| == 4 && r[0] == b && r[1] == f && r[3] == c;
    assert r == [b, f, BodyParts.GroupSizes(j)[0], c];
  }

  /** The five part features, 9 + 2 + 2 + 2 + 2 tokens of width `r`, make one `17 * r` row. */
  lemma FivePartsWidth(b: nat, f: nat, r: nat)
    ensures CatAll([[b, f, 9 * r], [b, f, 2 * r], [b, f, 2 * r], [b, f, 2 * r], [b, f, 2 * r]], 2)
      == Ok([b, f, 17 * r])
  {
    var ws: seq<nat> := [9 * r, 2 * r, 2 * r, 2 * r, 2 * r];
    CatAllWidths(b, f, ws);
    var parts := seq(|ws|, i requires 0 <= i < |ws| => [b, f, ws[i]]);
    assert parts == [[b, f, 9 * r], [b, f, 2 * r], [b, f, 2 * r], [b, f, 2 * r], [b, f, 2 * r]] by {
      assert |parts| == 5 && parts[0] == [b, f, 9 * r];
      assert parts[1] == parts[2] == parts[3] == parts[4] == [b, f, 2 * r];
    }
    assert SumOf(ws[4..]) == 2 * r by { assert ws[4..][1..] == []; }
    assert SumOf(ws[3..]) == 4 * r by { assert ws[3..][1..] == ws[4..]; }
    assert SumOf(ws[2..]) == 6 * r by { assert ws[2..][1..] == ws[3..]; }
    assert SumOf(ws[1..]) == 8 * r by { assert ws[1..][1..] == ws[2..]; }
    assert SumOf(ws) == 17 * r;
  }

  /** With at least 16 joints and heads that split `embed_dim_ratio`, every part passes its spatial blocks. */
  lemma PartFeaturesOk(m: Model, b: nat, f: nat, j: nat)
    requires Built(m) && m.variant == BodyPart && m.cfg.depth > 0 && b > 0 && f > 0
    requires j >= 16 && m.cfg.width % m.cfg.numHeads == 0
    ensures PartFeatures(m, [b, f, j, m.cfg.inChans]) == Ok([b, f, 17 * m.cfg.width])
  {
    var c, r := m.cfg.inChans, m.cfg.width;
    var g := BodyParts.GroupSizes(j);
    BodyPartSlices(b, f, j, c);
    BodyParts.GroupSizesFitTables(j);
    assert g[0] == 9 && g[1] == 2 && g[2] == 2 && g[3] == 2 && (g[4] == 2 || g[4] == 1);
    SpatialFeaturesShape(m, b, f, g[0], 9);
    SpatialFeaturesShape(m, b, f, g[1], 2);
    SpatialFeaturesShape(m, b, f, g[2], 2);
    SpatialFeaturesShape(m, b, f, g[3], 2);
    SpatialFeaturesShape(m, b, f, g[4], 2);
    var x := [b, f, j, c];
    assert SpatialFeatures(m, [b, f, g[0], c], 9) == Ok([b, f, 9 * r]);
    assert SpatialFeatures(m, SliceJoints(x, 7, 9), 2) == Ok([b, f, 2 * r]);
    assert SpatialFeatures(m, SliceJoints(x, 9, 11), 2) == Ok([b, f, 2 * r]);
    assert SpatialFeatures(m, SliceJoints(x, 13, 15), 2) == Ok([b, f, 2 * r]);
    assert SpatialFeatures(m, SliceJoints(x, 15, 17), 2) == Ok([b, f, 2 * r]);
    FivePartsWidth(b, f, r);
  }

  /** The parts run one after another, so a failing torso concatenation or a failing part fails the whole. */
  lemma PartFeaturesFailsAt(m: Model, x: Shape)
    requires StackReady(m.spatial) && |x| == 4
    requires var torso := Cat(SliceJoints(x, 0, 7), SliceJoints(x, 11, 13), 2);
      || torso.Err?
      || SpatialFeatures(m, torso.value, 9).Err?
      || SpatialFeatures(m, SliceJoints(x, 7, 9), 2).Err?
      || SpatialFeatures(m, SliceJoints(x, 9, 11), 2).Err?
      || SpatialFeatures(m, SliceJoints(x, 13, 15), 2).Err?
      || SpatialFeatures(m, SliceJoints(x, 15, 17), 2).Err?
    ensures PartFeatures(m, x).Err?
  {
  }

  /** The torso fails when its joints miss the 9-row table or the heads do not split `embed_dim_ratio`. */
  lemma TorsoPartFails(m: Model, b: nat, f: nat, j: nat)
    requires Built(m) && m.variant == BodyPart && m.cfg.depth > 0 && b > 0 && f > 0
    requires BroadcastDim(BodyParts.GroupSizes(j)[0], 9).None? || m.cfg.width % m.cfg.numHeads != 0
    ensures var torso := Cat(SliceJoints([b, f, j, m.cfg.inChans], 0, 7), SliceJoints([b, f, j, m.cfg.inChans], 11, 13), 2);
      torso.Ok? && SpatialFeatures(m, torso.value, 9).Err?
  {
    var g := BodyParts.GroupSizes(j);
    BodyPartSlices(b, f, j, m.cfg.inChans);
    SpatialFeaturesShape(m, b, f, g[0], 9);
    if BroadcastDim(g[0], 9).Some? {
      assert BroadcastDim(g[0], 9).value == 9;
    }
  }

  /** With fewer than 16 joints, once the torso fits, some limb misses its 2-row table. */
  lemma LimbPartFails(m: Model, b: nat, f: nat, j: nat)
    requires Built(m) && m.variant == BodyPart && m.cfg.depth > 0 && b > 0 && f > 0
    requires j < 16 && BroadcastDim(BodyParts.GroupSizes(j)[0], 9).Some?
    ensures var x := [b, f, j, m.cfg.inChans];
      || SpatialFeatures(m, SliceJoints(x, 7, 9), 2).Err?
      || SpatialFeatures(m, SliceJoints(x, 9, 11), 2).Err?
      || SpatialFeatures(m, SliceJoints(x, 13, 15), 2).Err?
      || SpatialFeatures(m, SliceJoints(x, 15, 17), 2).Err?
  {
    var c := m.cfg.inChans;
    var g := BodyParts.GroupSizes(j);
    BodyPartSlices(b, f, j, c);
    BodyParts.GroupSizesFitTables(j);
    assert g[0] == 9 || g[0] == 1;
    var k :| 1 <= k < 5 && g[k] != 2 && g[k] != 1;
    SpatialFeaturesShape(m, b, f, g[k], 2);
  }

  /** With fewer than 16 joints some part misses its table; heads that do not split `embed_dim_ratio` fail the torso. */
  lemma PartFeaturesErr(m: Model, b: nat, f: nat, j: nat)
    requires Built(m) && m.variant == BodyPart && m.cfg.depth > 0 && b > 0 && f > 0
    requires j < 16 || m.cfg.width % m.cfg.numHeads != 0
    ensures PartFeatures(m, [b, f, j, m.cfg.inChans]).Err?
  {
    if BroadcastDim(BodyParts.GroupSizes(j)[0], 9).None? || m.cfg.width % m.cfg.numHeads != 0 {
      TorsoPartFails(m, b, f, j);
    } else {
      LimbPartFails(m, b, f, j);
    }
    PartFeaturesFailsAt(m, [b, f, j, m.cfg.inChans]);
  }

  /**
   * The body-part features of a batch with frames and `j` joints exist
   * exactly when every group fits its positional table (`j >= 16`) and the
   * heads split `embed_dim_ratio`; they are `(9+2+2+2+2) * embed_dim_ratio` wide.
   */
  lemma BodyPartFeaturesShape(m: Model, b: nat, f: nat, j: nat)
    requires Built(m) && m.variant == BodyPart && m.cfg.depth > 0 && b > 0 && f > 0 && m.cfg.inChans > 0
    ensures BodyPartFeatures(m, [b, f, j * m.cfg.inChans]).Ok? <==> j >= 16 && m.cfg.width % m.cfg.numHeads == 0
    ensures BodyPartFeatures(m, [b, f, j * m.cfg.inChans]).Ok? ==>
      BodyPartFeatures(m, [b, f, j * m.cfg.inChans]).value == [b, f, 17 * m.cfg.width]
  {
    var c := m.cfg.inChans;
    assert (j * c) / c == j && (j * c) % c == 0 by { DivOfMultiple(j, c); }
    SplitJointsShape(c, b, f, j * c);
    assert SplitJoints(c, [b, f, j * c]) == Ok([b, f, j, c]);
    if j >= 16 && m.cfg.width % m.cfg.numHeads == 0 {
      PartFeaturesOk(m, b, f, j);
    } else {
      PartFeaturesErr(m, b, f, j);
    }
  }

  /** Without frames the torso's `'(b f) w c -> b f (w c)'` cannot split the empty batch. */
  lemma BodyPartNeedsFrames(m: Model, b: nat, e: nat)
    requires Built(m) && m.variant == BodyPart
    ensures BodyPartFeatures(m, [b, 0, e]).Err?
  {
    var c := m.cfg.inChans;
    if c > 0 && SplitJoints(c, [b, 0, e]).Ok? {
      var x := [b, 0, e / c, c];
      assert SplitJoints(c, [b, 0, e]).value == x;
      BodyPartSlices(b, 0, e / c, c);
      var torso := [b, 0, BodyParts.GroupSizes(e / c)[0], c];
      assert MergeBatch(torso) == Ok([b * 0, torso[2], c]);
    }
  }

  /**
   * BodyPartTransformer takes exactly the batches that have frames and whose
   * width `e` splits into `in_chans` columns for at least 16 joints (joints
   * past 16 are dropped, a 16th-joint-only ankle is broadcast), and only when
   * built for 17 joints: the parts give `17 * embed_dim_ratio` columns, which
   * must equal `embed_dim = embed_dim_ratio * num_joints`.
   */
  lemma BodyPartForward(m: Model, b: nat, f: nat, e: nat)
    requires Built(m) && m.variant == BodyPart && m.cfg.depth > 0 && b > 0 && m.cfg.width > 0
    ensures Forward(m, [b, f, e]).Ok?
      <==> && m.cfg.inChans > 0 && f > 0 && e % m.cfg.inChans == 0 && e / m.cfg.inChans >= 16
           && m.cfg.numJoints == 17
           && FramesFit(f, m.cfg.numFrames)
           && m.cfg.width % m.cfg.numHeads == 0
           && (m.cfg.width * m.cfg.numJoints) % m.cfg.numHeads == 0
    ensures Forward(m, [b, f, e]).Ok? ==> Forward(m, [b, f, e]).value == [b, m.cfg.numClasses]
  {
    var c, r, jn := m.cfg.inChans, m.cfg.width, m.cfg.numJoints;
    if f == 0 {
      BodyPartNeedsFrames(m, b, e);
    } else if c == 0 || e % c != 0 {
      SplitJointsShape(c, b, f, e);
    } else {
      var j := e / c;
      assert e == j * c;
      BodyPartFeaturesShape(m, b, f, j);
      if j >= 16 && r % m.cfg.numHeads == 0 {
        ForwardOfEmbedded(m, [b, f, e], b, f, 17 * r);
        MulCancel(r, 17, jn);
      }
    }
  }
}
