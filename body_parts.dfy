/**
 * Skeleton bookkeeping of the transformer variants: which joints form the five
 * body parts in the 17-joint and 25-joint layouts, which columns of a flattened
 * frame `get_average_body_parts` reads for each part, the per-part (mean x,
 * mean y) pairs it returns, and the joint regrouping done by the forward pass
 * of the body-part transformer.
 */
module BodyParts {
  import opened PyOps

  datatype Part = Torso | Elbow | Wrist | Knee | Ankle

  /** Both functions concatenate the parts in this order. */
  const PartOrder: seq<Part> := [Torso, Elbow, Wrist, Knee, Ankle]

  /** `[a, b)` as a list. */
  function Range(a: nat, b: nat): (r: seq<nat>)
    ensures |r| == Max(0, b - a)
    ensures forall k :: 0 <= k < |r| ==> r[k] == a + k
    decreases b
  {
    if b <= a then [] else Range(a, b - 1) + [b - 1]
  }

  lemma {:induction false} RangeSplit(a: nat, b: nat, c: nat)
    requires a <= b <= c
    ensures Range(a, c) == Range(a, b) + Range(b, c)
  {
    assert |Range(a, c)| == |Range(a, b) + Range(b, c)|;
    forall k | 0 <= k < c - a
      ensures Range(a, c)[k] == (Range(a, b) + Range(b, c))[k]
    {
      if k >= b - a {
        assert (Range(a, b) + Range(b, c))[k] == Range(b, c)[k - (b - a)];
      }
    }
  }

  function Flatten<T>(ss: seq<seq<T>>): seq<T> {
    if ss == [] then [] else ss[0] + Flatten(ss[1..])
  }

  lemma Flatten5<T>(a: seq<T>, b: seq<T>, c: seq<T>, d: seq<T>, e: seq<T>)
    ensures Flatten([a, b, c, d, e]) == a + b + c + d + e
  {
    var s := [a, b, c, d, e];
    assert s[1..] == [b, c, d, e] && s[1..][1..] == [c, d, e];
    assert s[1..][1..][1..] == [d, e] && s[1..][1..][1..][1..] == [e];
    assert s[1..][1..][1..][1..][1..] == [];
    assert Flatten([e]) == e;
    assert Flatten([d, e]) == d + e;
    assert Flatten([c, d, e]) == c + (d + e);
    assert Flatten([b, c, d, e]) == b + (c + (d + e));
  }

  // ---------------------------------------------------------------------
  // Joint tables

  /** The 17-joint (COCO) layout: head and shoulders 0-6 with hips 11-12, then elbows, wrists, knees, ankles. */
  function Joints17(p: Part): (js: seq<nat>)
    ensures forall i :: 0 <= i < |js| ==> js[i] < 17
  {
    match p
    case Torso => [0, 1, 2, 3, 4, 5, 6, 11, 12]
    case Elbow => [7, 8]
    case Wrist => [9, 10]
    case Knee => [13, 14]
    case Ankle => [15, 16]
  }

  /** The 25-joint layout, each part's joints in the order the source concatenates them. */
  function Joints25(p: Part): (js: seq<nat>)
    ensures forall i :: 0 <= i < |js| ==> js[i] < 25
  {
    match p
    case Torso => [0, 1, 2, 3, 4, 8, 12, 16, 20]
    case Elbow => [9, 5]
    case Wrist => [6, 7, 10, 11, 21, 22, 23, 24]
    case Knee => [17, 13]
    case Ankle => [18, 19, 14, 15]
  }

  /** The table of a layout: the 25-joint one for 25 joints, the 17-joint one otherwise. */
  function Joints(numJoints: nat, p: Part): (js: seq<nat>)
    ensures forall i :: 0 <= i < |js| ==> js[i] < (if numJoints == 25 then 25 else 17)
  {
    if numJoints == 25 then Joints25(p) else Joints17(p)
  }

  /** Every joint of every part, in output order. */
  function AllJoints(numJoints: nat): seq<nat> {
    Joints(numJoints, Torso) + Joints(numJoints, Elbow) + Joints(numJoints, Wrist)
      + Joints(numJoints, Knee) + Joints(numJoints, Ankle)
  }

  /** The five parts of the 17-joint layout have 9, 2, 2, 2, 2 joints and use each of 0..16 exactly once. */
  lemma Partition17()
    ensures |Joints(17, Torso)| == 9
    ensures |Joints(17, Elbow)| == 2 && |Joints(17, Wrist)| == 2
    ensures |Joints(17, Knee)| == 2 && |Joints(17, Ankle)| == 2
    ensures |AllJoints(17)| == 17 && Distinct(AllJoints(17))
    ensures forall j :: j in AllJoints(17) <==> 0 <= j < 17
  {
    var all := [0, 1, 2, 3, 4, 5, 6, 11, 12, 7, 8, 9, 10, 13, 14, 15, 16];
    assert AllJoints(17) == all;
    // where each joint sits in `all`
    var position := [0, 1, 2, 3, 4, 5, 6, 9, 10, 11, 12, 7, 8, 13, 14, 15, 16];
    InversePermutation(all, position, 17);
  }

  /** A list of `n` values that an inverse table maps back to their positions uses each of 0..n-1 once. */
  lemma InversePermutation(s: seq<nat>, position: seq<nat>, n: nat)
    requires |s| == n && |position| == n
    requires forall i :: 0 <= i < n ==> s[i] < n && position[s[i]] == i
    requires forall j :: 0 <= j < n ==> position[j] < n && s[position[j]] == j
    ensures Distinct(s)
    ensures forall j :: j in s <==> 0 <= j < n
  {
    forall j | 0 <= j < n
      ensures j in s
    {
      assert s[position[j]] == j;
    }
  }

  const All25: seq<nat> := [0, 1, 2, 3, 4, 8, 12, 16, 20, 9, 5, 6, 7, 10, 11, 21, 22, 23, 24, 17, 13, 18, 19, 14, 15]

  /** Where each joint sits in `All25`. */
  const Position25: seq<nat> := [0, 1, 2, 3, 4, 10, 11, 12, 5, 9, 13, 14, 6, 20, 23, 24, 7, 19, 21, 22, 8, 15, 16, 17, 18]

  lemma Position25OfAll25()
    ensures forall i :: 0 <= i < 25 ==> All25[i] < 25 && Position25[All25[i]] == i
  {
    assert forall i :: 0 <= i < 13 ==> All25[i] < 25 && Position25[All25[i]] == i;
    assert forall i :: 13 <= i < 25 ==> All25[i] < 25 && Position25[All25[i]] == i;
  }

  lemma All25OfPosition25()
    ensures forall j :: 0 <= j < 25 ==> Position25[j] < 25 && All25[Position25[j]] == j
  {
    assert forall j :: 0 <= j < 13 ==> Position25[j] < 25 && All25[Position25[j]] == j;
    assert forall j :: 13 <= j < 25 ==> Position25[j] < 25 && All25[Position25[j]] == j;
  }

  lemma Positions25()
    ensures Distinct(All25)
    ensures forall j :: j in All25 <==> 0 <= j < 25
  {
    Position25OfAll25();
    All25OfPosition25();
    InversePermutation(All25, Position25, 25);
  }

  /** The five parts of the 25-joint layout have 9, 2, 8, 2, 4 joints and use each of 0..24 exactly once. */
  lemma Partition25()
    ensures |Joints(25, Torso)| == 9
    ensures |Joints(25, Elbow)| == 2 && |Joints(25, Wrist)| == 8
    ensures |Joints(25, Knee)| == 2 && |Joints(25, Ankle)| == 4
    ensures |AllJoints(25)| == 25 && Distinct(AllJoints(25))
    ensures forall j :: j in AllJoints(25) <==> 0 <= j < 25
  {
    assert AllJoints(25) == All25;
    Positions25();
  }

  // ---------------------------------------------------------------------
  // Column selection

  /** The joint slices `a:b` as `get_average_body_parts` writes them for the 17-joint layout (scaled by 2). */
  function Spans17(p: Part): seq<(nat, nat)> {
    match p
    case Torso => [(0, 7), (11, 13)]
    case Elbow => [(7, 9)]
    case Wrist => [(9, 11)]
    case Knee => [(13, 15)]
    case Ankle => [(15, 17)]
  }

  /** The joint slices `a:b` of the 25-joint layout (scaled by `dim`), in the order they are concatenated. */
  function Spans25(p: Part): seq<(nat, nat)> {
    match p
    case Torso => [(0, 5), (8, 9), (12, 13), (16, 17), (20, 21)]
    case Wrist => [(6, 7), (7, 8), (10, 11), (11, 12), (21, 22), (22, 23), (23, 24), (24, 25)]
    case Elbow => [(9, 10), (5, 6)]
    case Knee => [(17, 18), (13, 14)]
    case Ankle => [(18, 19), (19, 20), (14, 15), (15, 16)]
  }

  function SpanJoints(spans: seq<(nat, nat)>): seq<nat> {
    if spans == [] then [] else Range(spans[0].0, spans[0].1) + SpanJoints(spans[1..])
  }

  /** Unfolds `SpanJoints` over the spans from index `k` to the end. */
  lemma SpanJointsFrom(spans: seq<(nat, nat)>, k: nat)
    requires k <= |spans|
    ensures k == |spans| ==> SpanJoints(spans[k..]) == []
    ensures k < |spans| ==> SpanJoints(spans[k..]) == Range(spans[k].0, spans[k].1) + SpanJoints(spans[k + 1..])
  {
    if k < |spans| {
      assert spans[k..][1..] == spans[k + 1..];
    }
  }

  /** Unfolds `SpanJoints` over the first `n` spans, which are all there are. */
  lemma SpanJointsUpTo(spans: seq<(nat, nat)>, n: nat)
    requires n == |spans|
    ensures n == 1 ==> SpanJoints(spans) == Range(spans[0].0, spans[0].1)
    ensures n == 2 ==> SpanJoints(spans) == Range(spans[0].0, spans[0].1) + Range(spans[1].0, spans[1].1)
  {
    SpanJointsFrom(spans, n);
    if n >= 2 { SpanJointsFrom(spans, 1); }
    if n >= 1 { SpanJointsFrom(spans, 0); }
    assert spans[0..] == spans;
  }

  /** The written 17-joint slices cover exactly the joints of the table, in the same order. */
  lemma SpansAreJoints17(p: Part)
    ensures SpanJoints(Spans17(p)) == Joints17(p)
  {
    var s := Spans17(p);
    SpanJointsUpTo(s, |s|);
    if p == Torso {
      assert Range(0, 7) == [0, 1, 2, 3, 4, 5, 6];
      assert Range(11, 13) == [11, 12];
    } else {
      var a := s[0].0;
      assert s == [(a, a + 2)];
      assert Range(a, a + 2) == [a, a + 1];
    }
  }

  /** Spans one joint wide contribute their start joints, one each. */
  lemma {:induction false} UnitSpans(spans: seq<(nat, nat)>)
    requires forall i :: 0 <= i < |spans| ==> spans[i].1 == spans[i].0 + 1
    ensures |SpanJoints(spans)| == |spans|
    ensures forall i :: 0 <= i < |spans| ==> SpanJoints(spans)[i] == spans[i].0
  {
    if spans != [] {
      UnitSpans(spans[1..]);
      assert Range(spans[0].0, spans[0].1) == [spans[0].0];
    }
  }

  lemma SpansAreJoints25Torso()
    ensures SpanJoints(Spans25(Torso)) == Joints25(Torso)
  {
    var s := Spans25(Torso);
    assert Range(0, 5) == [0, 1, 2, 3, 4];
    UnitSpans(s[1..]);
    assert SpanJoints(s[1..]) == [8, 12, 16, 20];
  }

  /** The remaining parts of the 25-joint layout are written one joint per slice. */
  lemma SpansAreJoints25Unit(p: Part)
    requires p != Torso
    ensures SpanJoints(Spans25(p)) == Joints25(p)
  {
    UnitSpans(Spans25(p));
  }

  /** The written 25-joint slices cover exactly the joints of the table, in the same order. */
  lemma SpansAreJoints25(p: Part)
    ensures SpanJoints(Spans25(p)) == Joints25(p)
  {
    match p
    case Torso => SpansAreJoints25Torso();
    case _ => SpansAreJoints25Unit(p);
  }

  lemma SpansAreJoints(numJoints: nat, p: Part)
    ensures SpanJoints(if numJoints == 25 then Spans25(p) else Spans17(p)) == Joints(numJoints, p)
  {
    if numJoints == 25 { SpansAreJoints25(p); } else { SpansAreJoints17(p); }
  }

  /** The column indices a slice `lo:hi` of a width-`w` frame picks; out-of-range bounds are clamped. */
  function SliceColumns(lo: nat, hi: nat, w: nat): (cols: seq<nat>)
    ensures forall i :: 0 <= i < |cols| ==> cols[i] < w
  {
    Slice(Range(0, w), lo, hi)
  }

  lemma SliceColumnsInRange(lo: nat, hi: nat, w: nat)
    requires lo <= hi <= w
    ensures SliceColumns(lo, hi, w) == Range(lo, hi)
  {
  }

  /** `x * d` as repeated addition; `TimesIsProduct` relates it to `*`. */
  function Times(x: nat, d: nat): nat {
    if x == 0 then 0 else Times(x - 1, d) + d
  }

  lemma {:induction false} TimesIsProduct(x: nat, d: nat)
    ensures Times(x, d) == x * d
  {
    if x > 0 {
      TimesIsProduct(x - 1, d);
      assert (x - 1) * d + d == x * d;
    }
  }

  lemma {:induction false} TimesMonotone(x: nat, y: nat, d: nat)
    requires x <= y
    ensures Times(x, d) <= Times(y, d)
    decreases y
  {
    if x < y {
      TimesMonotone(x, y - 1, d);
    }
  }

  /** The columns of a part: its slices `a*dim:b*dim`, concatenated. */
  function SpanColumns(spans: seq<(nat, nat)>, dim: nat, w: nat): (cols: seq<nat>)
    ensures forall i :: 0 <= i < |cols| ==> cols[i] < w
  {
    if spans == [] then []
    else SliceColumns(Times(spans[0].0, dim), Times(spans[0].1, dim), w) + SpanColumns(spans[1..], dim, w)
  }

  /**
   * The columns `get_average_body_parts` reads for part `p` of a frame `w` wide:
   * two columns per joint in the 17-joint branch, `int(w/25)` in the 25-joint branch.
   */
  function PartColumns(numJoints: nat, p: Part, w: nat): (cols: seq<nat>)
    ensures forall i :: 0 <= i < |cols| ==> cols[i] < w
  {
    if numJoints == 25 then SpanColumns(Spans25(p), w / 25, w) else SpanColumns(Spans17(p), 2, w)
  }

  /** The reference layout: joint `j` owns columns `[j*d, j*d+d)`. */
  function JointColumns(js: seq<nat>, d: nat): (cols: seq<nat>)
    ensures |cols| == Times(|js|, d)
  {
    if js == [] then []
    else Range(Times(js[0], d), Times(js[0], d) + d) + JointColumns(js[1..], d)
  }

  lemma {:induction false} JointColumnsAppend(a: seq<nat>, b: seq<nat>, d: nat)
    ensures JointColumns(a + b, d) == JointColumns(a, d) + JointColumns(b, d)
  {
    if a == [] {
      assert a + b == b;
    } else {
      assert (a + b)[1..] == a[1..] + b;
      JointColumnsAppend(a[1..], b, d);
    }
  }

  /** Column `k*d + c` of a joint list's columns is channel `c` of its `k`-th joint. */
  lemma {:induction false} JointColumnsAt(js: seq<nat>, d: nat, k: nat, c: nat)
    requires k < |js| && c < d
    ensures Times(k, d) + c < |JointColumns(js, d)|
    ensures JointColumns(js, d)[Times(k, d) + c] == Times(js[k], d) + c
  {
    var head := Range(Times(js[0], d), Times(js[0], d) + d);
    assert |head| == d;
    assert JointColumns(js, d) == head + JointColumns(js[1..], d);
    if k > 0 {
      JointColumnsAt(js[1..], d, k - 1, c);
    }
  }

  /** A contiguous run of joints occupies a contiguous run of columns. */
  lemma {:induction false} RangeColumns(a: nat, b: nat, d: nat)
    requires a <= b
    ensures Range(Times(a, d), Times(b, d)) == JointColumns(Range(a, b), d)
    decreases b - a
  {
    if a < b {
      RangeColumns(a + 1, b, d);
      TimesMonotone(a + 1, b, d);
      assert Times(a + 1, d) == Times(a, d) + d;
      RangeSplit(Times(a, d), Times(a, d) + d, Times(b, d));
      assert Range(a, b) == [a] + Range(a + 1, b);
      assert Range(a, b)[1..] == Range(a + 1, b);
    }
  }

  /** Where the frame is wide enough, the written slices pick exactly the columns of their joints. */
  lemma {:induction false} SpanColumnsAreJointColumns(spans: seq<(nat, nat)>, dim: nat, w: nat)
    requires forall i :: 0 <= i < |spans| ==> spans[i].0 <= spans[i].1 && Times(spans[i].1, dim) <= w
    ensures SpanColumns(spans, dim, w) == JointColumns(SpanJoints(spans), dim)
  {
    if spans != [] {
      var (a, b) := spans[0];
      SpanColumnsAreJointColumns(spans[1..], dim, w);
      TimesMonotone(a, b, dim);
      SliceColumnsInRange(Times(a, dim), Times(b, dim), w);
      RangeColumns(a, b, dim);
      JointColumnsAppend(Range(a, b), SpanJoints(spans[1..]), dim);
    }
  }

  /** The column selection of each branch is the per-joint layout of the table, once the frame is wide enough. */
  lemma PartColumnsAreJointColumns(numJoints: nat, p: Part, w: nat)
    requires numJoints == 25 || 34 <= w
    ensures PartColumns(numJoints, p, w)
      == JointColumns(Joints(numJoints, p), if numJoints == 25 then w / 25 else 2)
  {
    SpansAreJoints(numJoints, p);
    if numJoints == 25 {
      var spans := Spans25(p);
      TimesIsProduct(25, w / 25);
      forall i | 0 <= i < |spans|
        ensures spans[i].0 <= spans[i].1 && Times(spans[i].1, w / 25) <= w
      {
        TimesMonotone(spans[i].1, 25, w / 25);
      }
      SpanColumnsAreJointColumns(spans, w / 25, w);
    } else {
      var spans := Spans17(p);
      forall i | 0 <= i < |spans|
        ensures spans[i].0 <= spans[i].1 && Times(spans[i].1, 2) <= w
      {
        TimesIsProduct(spans[i].1, 2);
      }
      SpanColumnsAreJointColumns(spans, 2, w);
    }
  }

  // ---------------------------------------------------------------------
  // x / y selection and averaging

  /** `s[::2]`. */
  function Evens<T>(s: seq<T>): (r: seq<T>)
    ensures |r| == (|s| + 1) / 2
    ensures forall k :: 0 <= k < |r| ==> r[k] == s[2 * k]
  {
    seq((|s| + 1) / 2, k requires 0 <= k < (|s| + 1) / 2 => s[2 * k])
  }

  /** `s[1::2]`. */
  function Odds<T>(s: seq<T>): (r: seq<T>)
    ensures |r| == |s| / 2
    ensures forall k :: 0 <= k < |r| ==> r[k] == s[2 * k + 1]
  {
    seq(|s| / 2, k requires 0 <= k < |s| / 2 => s[2 * k + 1])
  }

  /** With two columns per joint, `::2` picks every joint's x column and `1::2` its y column. */
  lemma XYOfTwoChannels(js: seq<nat>)
    ensures |Evens(JointColumns(js, 2))| == |js| && |Odds(JointColumns(js, 2))| == |js|
    ensures forall k :: 0 <= k < |js| ==> Evens(JointColumns(js, 2))[k] == 2 * js[k]
    ensures forall k :: 0 <= k < |js| ==> Odds(JointColumns(js, 2))[k] == 2 * js[k] + 1
  {
    var cols := JointColumns(js, 2);
    TimesIsProduct(|js|, 2);
    forall k | 0 <= k < |js|
      ensures cols[2 * k] == 2 * js[k] && cols[2 * k + 1] == 2 * js[k] + 1
    {
      JointColumnsAt(js, 2, k, 0);
      JointColumnsAt(js, 2, k, 1);
      TimesIsProduct(k, 2);
      TimesIsProduct(js[k], 2);
    }
  }

  /**
   * With three channels per joint (`int(w/25) == 3` on 3D data), `::2` still
   * steps by two columns: its second pick is the third (z) channel of the
   * part's first joint, and its third pick the y channel of the second joint.
   */
  lemma XOfThreeChannels(js: seq<nat>)
    requires |js| >= 2
    ensures |Evens(JointColumns(js, 3))| >= 3
    ensures Evens(JointColumns(js, 3))[1] == 3 * js[0] + 2
    ensures Evens(JointColumns(js, 3))[2] == 3 * js[1] + 1
  {
    TimesIsProduct(|js|, 3);
    JointColumnsAt(js, 3, 0, 2);
    JointColumnsAt(js, 3, 1, 1);
    TimesIsProduct(js[0], 3);
    TimesIsProduct(js[1], 3);
    assert Times(1, 3) == 3;
  }

  /** A mean of `float` values; `torch.mean` of an empty selection is NaN. */
  datatype Scalar = Num(value: real) | NaN

  function Sum(xs: seq<real>): real {
    if xs == [] then 0.0 else Sum(xs[..|xs| - 1]) + xs[|xs| - 1]
  }

  function Mean(xs: seq<real>): (m: Scalar)
    ensures m.NaN? <==> xs == []
    ensures m.Num? ==> m.value * (|xs| as real) == Sum(xs)
  {
    if xs == [] then NaN else Num(Sum(xs) / (|xs| as real))
  }

  lemma {:induction false} SumBounds(xs: seq<real>, lo: real, hi: real)
    requires forall i :: 0 <= i < |xs| ==> lo <= xs[i] <= hi
    ensures (|xs| as real) * lo <= Sum(xs) <= (|xs| as real) * hi
  {
    if xs != [] {
      SumBounds(xs[..|xs| - 1], lo, hi);
    }
  }

  /** The mean of a non-empty selection lies within the bounds of its values. */
  lemma MeanBounds(xs: seq<real>, lo: real, hi: real)
    requires xs != []
    requires forall i :: 0 <= i < |xs| ==> lo <= xs[i] <= hi
    ensures Mean(xs).Num? && lo <= Mean(xs).value <= hi
  {
    SumBounds(xs, lo, hi);
  }

  /** The values of a frame at the given columns. */
  function Picked<T>(row: seq<T>, cols: seq<nat>): (r: seq<T>)
    requires forall i :: 0 <= i < |cols| ==> cols[i] < |row|
    ensures |r| == |cols|
    ensures forall i :: 0 <= i < |cols| ==> r[i] == row[cols[i]]
  {
    seq(|cols|, i requires 0 <= i < |cols| => row[cols[i]])
  }

  /** Picking the columns of two lists one after the other. */
  lemma PickedAppend<T>(row: seq<T>, a: seq<nat>, b: seq<nat>)
    requires forall i :: 0 <= i < |a| ==> a[i] < |row|
    requires forall i :: 0 <= i < |b| ==> b[i] < |row|
    ensures Picked(row, a + b) == Picked(row, a) + Picked(row, b)
  {
  }

  /** The mean over the x (`axis` 0, columns `::2`) or y (`axis` 1, columns `1::2`) values of a part. */
  function PartMean(numJoints: nat, row: seq<real>, p: Part, axis: nat): Scalar {
    var cols := PartColumns(numJoints, p, |row|);
    Mean(Picked(row, if axis == 0 then Evens(cols) else Odds(cols)))
  }

  /**
   * `get_average_body_parts` on one frame: ten values, (mean x, mean y) for
   * torso, elbow, wrist, knee and ankle; None (the function falls through)
   * for a joint count other than 17 or 25.
   */
  function AverageFrame(numJoints: nat, row: seq<real>): (r: Option<seq<Scalar>>)
    ensures r.Some? <==> numJoints == 17 || numJoints == 25
    ensures r.Some? ==> |r.value| == 10
  {
    if numJoints != 17 && numJoints != 25 then None
    else Some(seq(10, i requires 0 <= i < 10 => PartMean(numJoints, row, PartOrder[i / 2], i % 2)))
  }

  /** `get_average_body_parts(num_joints, x)` on a batch of frame sequences. */
  function AverageBodyParts(numJoints: nat, x: seq<seq<seq<real>>>): (r: Option<seq<seq<seq<Scalar>>>>)
    ensures r.Some? <==> numJoints == 17 || numJoints == 25
    ensures r.Some? ==> |r.value| == |x|
    ensures r.Some? ==> forall b :: 0 <= b < |x| ==>
      && |r.value[b]| == |x[b]|
      && forall f :: 0 <= f < |x[b]| ==> Some(r.value[b][f]) == AverageFrame(numJoints, x[b][f])
  {
    if numJoints != 17 && numJoints != 25 then None
    else
      Some(seq(|x|, b requires 0 <= b < |x| =>
        seq(|x[b]|, f requires 0 <= f < |x[b]| => AverageFrame(numJoints, x[b][f]).value)))
  }

  /** The frames `AverageFrameIsPartMeans` speaks about: the 17-joint branch always reads two columns
      per joint (its slices are fixed column ranges), so any frame of at least 34 columns; the 25-joint
      branch reads `int(w / 25)` columns per joint, so frames of two columns per joint. */
  predicate FrameCoversJoints(numJoints: nat, w: nat) {
    (numJoints == 17 && w >= 34) || (numJoints == 25 && w / 25 == 2)
  }

  /** Column `c` of the two-column group of each of the joints `js`. */
  function JointValues(row: seq<real>, js: seq<nat>, c: nat): (vs: seq<real>)
    requires forall i :: 0 <= i < |js| ==> 2 * js[i] + c < |row|
    ensures |vs| == |js|
    ensures forall i :: 0 <= i < |js| ==> vs[i] == row[2 * js[i] + c]
  {
    seq(|js|, i requires 0 <= i < |js| => row[2 * js[i] + c])
  }

  /** Both channels of every joint of a part lie inside a frame that covers the table. */
  lemma JointsFitFrame(numJoints: nat, p: Part, w: nat)
    requires FrameCoversJoints(numJoints, w)
    ensures numJoints == 25 || 34 <= w
    ensures forall i :: 0 <= i < |Joints(numJoints, p)| ==> 2 * Joints(numJoints, p)[i] + 1 < w
  {
  }

  /** Picking `::2` / `1::2` of the two-channel columns of `js` reads channel 0 / 1 of each joint. */
  lemma PickedAxis(row: seq<real>, cols: seq<nat>, js: seq<nat>, axis: nat)
    requires axis < 2 && cols == JointColumns(js, 2)
    requires forall i :: 0 <= i < |cols| ==> cols[i] < |row|
    requires forall i :: 0 <= i < |js| ==> 2 * js[i] + 1 < |row|
    ensures Picked(row, if axis == 0 then Evens(cols) else Odds(cols)) == JointValues(row, js, axis)
  {
    XYOfTwoChannels(js);
    var sel := if axis == 0 then Evens(cols) else Odds(cols);
    PickedIsJointValues(row, sel, js, axis);
  }

  lemma PickedIsJointValues(row: seq<real>, sel: seq<nat>, js: seq<nat>, c: nat)
    requires |sel| == |js|
    requires forall k :: 0 <= k < |js| ==> sel[k] == 2 * js[k] + c < |row|
    ensures Picked(row, sel) == JointValues(row, js, c)
  {
  }

  /**
   * On a frame that covers the table, the x mean (`axis` 0) of a part averages the x
   * coordinates of exactly its joints, and the y mean (`axis` 1) their y coordinates.
   */
  lemma PartMeanIsJointMean(numJoints: nat, row: seq<real>, p: Part, axis: nat)
    requires FrameCoversJoints(numJoints, |row|) && axis < 2
    ensures PartMean(numJoints, row, p, axis) == Mean(JointValues(row, Joints(numJoints, p), axis))
  {
    JointsFitFrame(numJoints, p, |row|);
    PartColumnsAreJointColumns(numJoints, p, |row|);
    assert (if numJoints == 25 then |row| / 25 else 2) == 2;
    PartMeanOfColumns(numJoints, row, p, axis, Joints(numJoints, p), PartColumns(numJoints, p, |row|));
  }

  lemma PartMeanOfColumns(numJoints: nat, row: seq<real>, p: Part, axis: nat, js: seq<nat>, cols: seq<nat>)
    requires axis < 2 && cols == PartColumns(numJoints, p, |row|) && cols == JointColumns(js, 2)
    requires forall i :: 0 <= i < |js| ==> 2 * js[i] + 1 < |row|
    ensures PartMean(numJoints, row, p, axis) == Mean(JointValues(row, js, axis))
  {
    PickedAxis(row, cols, js, axis);
  }

  /** Every part has at least two joints in both layouts. */
  lemma PartsHaveJoints(numJoints: nat, p: Part)
    ensures |Joints(numJoints, p)| >= 2
  {
  }

  /**
   * On a frame that covers the table, output `i` is the mean of channel `i % 2` (x, then
   * y) over exactly the joints of part `i / 2` (torso, elbow, wrist, knee, ankle).
   */
  lemma AverageFrameIsPartMeans(numJoints: nat, row: seq<real>, i: nat)
    requires FrameCoversJoints(numJoints, |row|) && i < 10
    ensures AverageFrame(numJoints, row).Some?
    ensures AverageFrame(numJoints, row).value[i] == Mean(JointValues(row, Joints(numJoints, PartOrder[i / 2]), i % 2))
  {
    PartMeanIsJointMean(numJoints, row, PartOrder[i / 2], i % 2);
  }

  /** On a frame that covers the table every part has joints, so no output is NaN. */
  lemma AverageFrameHasNoNaN(numJoints: nat, row: seq<real>)
    requires FrameCoversJoints(numJoints, |row|)
    ensures AverageFrame(numJoints, row).Some?
    ensures forall i :: 0 <= i < 10 ==> AverageFrame(numJoints, row).value[i].Num?
  {
    forall i | 0 <= i < 10
      ensures AverageFrame(numJoints, row).value[i].Num?
    {
      AverageFrameIsPartMeans(numJoints, row, i);
      PartsHaveJoints(numJoints, PartOrder[i / 2]);
    }
  }

  // ---------------------------------------------------------------------
  // The body-part transformer's regrouping of joints

  /** `torch.reshape` of one frame of `j*c` values into `j` joints of `c` channels. */
  function Unflatten<T>(row: seq<T>, j: nat, c: nat): (joints: seq<seq<T>>)
    requires |row| == j * c
    ensures |joints| == j
    ensures forall i :: 0 <= i < j ==> |joints[i]| == c
    decreases j
  {
    if j == 0 then []
    else
      assert |row| == c + (j - 1) * c;
      [row[..c]] + Unflatten(row[c..], j - 1, c)
  }

  /** Undoing the reshape gives the frame back. */
  lemma {:induction false} FlattenUnflatten<T>(row: seq<T>, j: nat, c: nat)
    requires |row| == j * c
    ensures Flatten(Unflatten(row, j, c)) == row
    decreases j
  {
    if j > 0 {
      assert |row| == c + (j - 1) * c;
      FlattenUnflatten(row[c..], j - 1, c);
      var u := Unflatten(row, j, c);
      assert u[0] == row[..c] && u[1..] == Unflatten(row[c..], j - 1, c);
      assert row == row[..c] + row[c..];
    }
  }

  /**
   * The groups `BodyPartTransformer.forward` slices out of one frame's joints:
   * torso = 0:7 and 11:13, elbow 7:9, wrist 9:11, knee 13:15, ankle 15:17,
   * each slice clamped to the number of joints present.
   */
  function RegroupJoints<T>(joints: seq<T>): (groups: seq<seq<T>>)
    ensures |groups| == 5
  {
    [Slice(joints, 0, 7) + Slice(joints, 11, 13), Slice(joints, 7, 9), Slice(joints, 9, 11),
     Slice(joints, 13, 15), Slice(joints, 15, 17)]
  }

  /** How many of `j` joints a slice `lo:hi` keeps. */
  function ClampedCount(lo: nat, hi: nat, j: nat): nat {
    var n := SliceBound(hi, j) - SliceBound(lo, j);
    if n < 0 then 0 else n
  }

  /** How many joints each group receives when a frame has `j` joints. */
  function GroupSizes(j: nat): (sizes: seq<nat>)
    ensures |sizes| == 5
  {
    [ClampedCount(0, 7, j) + ClampedCount(11, 13, j), ClampedCount(7, 9, j), ClampedCount(9, 11, j),
     ClampedCount(13, 15, j), ClampedCount(15, 17, j)]
  }

  lemma RegroupSizes<T>(joints: seq<T>)
    ensures forall k :: 0 <= k < 5 ==> |RegroupJoints(joints)[k]| == GroupSizes(|joints|)[k]
  {
  }

  /**
   * With at least 17 joints, the forward's groups are exactly the parts of the
   * 17-joint table, so their concatenation uses each of joints 0..16 once;
   * joints past 16 are dropped.
   */
  lemma RegroupMatchesTable<T>(joints: seq<T>)
    requires |joints| >= 17
    ensures forall k :: 0 <= k < 5 ==> RegroupJoints(joints)[k] == Picked(joints, Joints(17, PartOrder[k]))
    ensures Flatten(RegroupJoints(joints)) == Picked(joints, AllJoints(17))
  {
    var g := RegroupJoints(joints);
    assert g[0] == Picked(joints, Joints17(Torso));
    assert g[1] == Picked(joints, Joints17(Elbow));
    assert g[2] == Picked(joints, Joints17(Wrist));
    assert g[3] == Picked(joints, Joints17(Knee));
    assert g[4] == Picked(joints, Joints17(Ankle));
    Flatten5(g[0], g[1], g[2], g[3], g[4]);
    assert g == [g[0], g[1], g[2], g[3], g[4]];
    PickedAppend(joints, Joints17(Torso), Joints17(Elbow));
    PickedAppend(joints, Joints17(Torso) + Joints17(Elbow), Joints17(Wrist));
    PickedAppend(joints, Joints17(Torso) + Joints17(Elbow) + Joints17(Wrist), Joints17(Knee));
    PickedAppend(joints, Joints17(Torso) + Joints17(Elbow) + Joints17(Wrist) + Joints17(Knee), Joints17(Ankle));
  }

  /**
   * Exactly the joint counts that give every group a size its positional table
   * takes (9 rows for the torso, 2 for the others, a single joint broadcasting
   * to either): from 16 joints on. At 16 the one ankle joint is repeated.
   */
  lemma GroupSizesFitTables(j: nat)
    ensures (&& (GroupSizes(j)[0] == 9 || GroupSizes(j)[0] == 1)
             && (forall k :: 1 <= k < 5 ==> GroupSizes(j)[k] == 2 || GroupSizes(j)[k] == 1))
            <==> j >= 16
    ensures j == 16 ==> GroupSizes(j) == [9, 2, 2, 2, 1]
    ensures j >= 17 ==> GroupSizes(j) == [9, 2, 2, 2, 2]
  {
    if j <= 13 {
      assert GroupSizes(j)[3] == 0;
    } else if j == 14 || j == 15 {
      assert GroupSizes(j)[4] == 0;
    }
  }
}
