/**
 * The sliding-window segment extractor: every trajectory at least `input_length`
 * rows long yields one window per start position, each window paired with the
 * trajectory's id, video, person and category, and the per-trajectory arrays
 * are stacked in the store's iteration order (`np.vstack`).
 */
module Segments {
  import opened PyOps
  import opened Trajectories
  import opened TrajectoryIds

  /** The six arrays returned for one trajectory or stacked for many: one row per window. The id,
      video, person, frame and category rows are `input_length` wide; each coordinate row is a
      window of `input_length` coordinate rows of `width` values. */
  datatype SegmentArrays = SegmentArrays(
    ids: seq<seq<string>>,
    videos: seq<seq<VideoId>>,
    persons: seq<seq<int>>,
    frames: seq<seq<int>>,
    categories: seq<seq<int>>,
    coordinates: seq<seq<Row>>,
    width: nat)

  /** How extraction raises. `EmptyStack`: `np.stack` of no windows (ValueError). `BadId`: the id
      parsing fails. `NothingToStack`: `np.vstack` of an empty list (ValueError). `WidthMismatch`:
      `np.vstack` of coordinate windows whose rows differ in width (ValueError). */
  datatype SegmentError = EmptyStack | BadId(reason: IdError) | NothingToStack | WidthMismatch

  /** `range(stop)` with `stop = len(coordinates) - input_length + 1`: the number of windows. */
  function WindowCount(t: Trajectory, inputLength: nat): nat {
    if |t.coordinates| >= inputLength then |t.coordinates| - inputLength + 1 else 0
  }

  /** Window `i` of the coordinates: `coordinates[i:i + input_length]`. */
  function CoordinateWindows(t: Trajectory, inputLength: nat): (ws: seq<seq<Row>>)
    ensures |ws| == WindowCount(t, inputLength)
  {
    seq(WindowCount(t, inputLength), i requires 0 <= i < WindowCount(t, inputLength) =>
      t.coordinates[i..i + inputLength])
  }

  /** Window `i` of the frame indices: `frames[i:i + input_length]`. */
  function FrameWindows(t: Trajectory, inputLength: nat): (ws: seq<seq<int>>)
    requires t.Valid()
    ensures |ws| == WindowCount(t, inputLength)
  {
    seq(WindowCount(t, inputLength), i requires 0 <= i < WindowCount(t, inputLength) =>
      t.frames[i..i + inputLength])
  }

  /** The `for start_index in range(stop)` loop of `_extract_fixed_sized_segments`. */
  method SlidingWindows(t: Trajectory, inputLength: nat) returns (xs: seq<seq<Row>>, fs: seq<seq<int>>)
    requires t.Valid()
    ensures |xs| == |fs| == WindowCount(t, inputLength)
    ensures forall i :: 0 <= i < |xs| ==>
      && xs[i] == t.coordinates[i..i + inputLength]
      && fs[i] == t.frames[i..i + inputLength]
    ensures xs == CoordinateWindows(t, inputLength) && fs == FrameWindows(t, inputLength)
  {
    xs, fs := [], [];
    var stop := |t.coordinates| - inputLength + 1;
    for startIndex := 0 to Max(stop, 0)
      invariant |xs| == |fs| == startIndex
      invariant forall i :: 0 <= i < startIndex ==>
        && xs[i] == t.coordinates[i..i + inputLength]
        && fs[i] == t.frames[i..i + inputLength]
    {
      var stopIndex := startIndex + inputLength;
      xs := xs + [t.coordinates[startIndex..stopIndex]];
      fs := fs + [t.frames[startIndex..stopIndex]];
    }
  }

  /** Every coordinate row of a trajectory at least one window long lands in some window: row `k`
      is row `k - i` of window `i = min(k, count - 1)`. */
  lemma WindowsCoverRows(t: Trajectory, inputLength: nat, k: nat)
    requires 1 <= inputLength <= |t.coordinates| && k < |t.coordinates|
    ensures var i := if k < WindowCount(t, inputLength) then k else WindowCount(t, inputLength) - 1;
      && 0 <= k - i < inputLength
      && CoordinateWindows(t, inputLength)[i][k - i] == t.coordinates[k]
  {
  }

  /** Consecutive windows slide by one row. */
  lemma WindowsSlide(t: Trajectory, inputLength: nat, i: nat)
    requires 1 <= inputLength && i + 1 < WindowCount(t, inputLength)
    ensures CoordinateWindows(t, inputLength)[i + 1][..inputLength - 1]
      == CoordinateWindows(t, inputLength)[i][1..]
  {
    assert t.coordinates[i + 1..i + 1 + inputLength][..inputLength - 1]
      == t.coordinates[i..i + inputLength][1..];
  }

  /** A trajectory kept by `remove_short_trajectories` (with a non-negative gap and horizon) is
      long enough for `np.stack` to succeed. */
  lemma KeptTrajectoryHasWindows(t: Trajectory, inputLength: nat, inputGap: int, predLength: int)
    requires t.Valid()
    requires inputGap >= 0 && predLength >= 0
    requires !IsShort(t, inputLength, inputGap, predLength)
    ensures WindowCount(t, inputLength) == |t.coordinates| - inputLength + 1 >= 1
  {
    if inputLength >= 1 {
      assert inputGap * (inputLength - 1) >= 0;
    }
  }

  /** `np.full((rows, cols), fill_value=v)`. */
  function Fill<T>(rows: nat, cols: nat, v: T): (a: seq<seq<T>>)
    ensures |a| == rows
    ensures forall i :: 0 <= i < rows ==> |a[i]| == cols && forall j :: 0 <= j < cols ==> a[i][j] == v
  {
    seq(rows, _ => seq(cols, _ => v))
  }

  /** The arrays for one trajectory, given the dataset's id parser. The windows are stacked first,
      so a trajectory that yields no window raises before its id is parsed. */
  function SegmentsWith(parse: string -> Result<ParsedIds, IdError>, t: Trajectory, inputLength: nat)
    : (r: Result<SegmentArrays, SegmentError>)
    requires t.Valid()
    ensures r == Err(EmptyStack) <==> |t.coordinates| < inputLength
    ensures |t.coordinates| >= inputLength ==> (r.Err? <==> parse(t.id).Err?)
    ensures |t.coordinates| >= inputLength && parse(t.id).Err? ==> r == Err(BadId(parse(t.id).error))
  {
    var n := WindowCount(t, inputLength);
    if n == 0 then Err(EmptyStack)
    else
      var parsed := parse(t.id);
      if parsed.Err? then Err(BadId(parsed.error))
      else
        Ok(SegmentArrays(
          Fill(n, inputLength, t.id), Fill(n, inputLength, parsed.value.video),
          Fill(n, inputLength, parsed.value.person), FrameWindows(t, inputLength),
          Fill(n, inputLength, t.category), CoordinateWindows(t, inputLength), t.width))
  }

  /** What one trajectory contributes when it succeeds: one row per window in every array, the windows
      in start order, and the id, category, video and person rows filled with that trajectory's values. */
  lemma SegmentsWithSpec(parse: string -> Result<ParsedIds, IdError>, t: Trajectory, inputLength: nat)
    requires t.Valid()
    ensures var r := SegmentsWith(parse, t, inputLength);
      r.Ok? ==>
        var n := |t.coordinates| - inputLength + 1;
        && |r.value.ids| == |r.value.videos| == |r.value.persons| == n
        && |r.value.frames| == |r.value.categories| == |r.value.coordinates| == n
        && r.value.width == t.width
        && (forall i :: 0 <= i < n ==>
              && r.value.coordinates[i] == t.coordinates[i..i + inputLength]
              && r.value.frames[i] == t.frames[i..i + inputLength]
              && r.value.ids[i] == Fill(1, inputLength, t.id)[0]
              && r.value.categories[i] == Fill(1, inputLength, t.category)[0]
              && r.value.videos[i] == Fill(1, inputLength, parse(t.id).value.video)[0]
              && r.value.persons[i] == Fill(1, inputLength, parse(t.id).value.person)[0])
  {
  }

  /** `_extract_fixed_sized_segments(dataset, trajectory, input_length)`. */
  function TrajectorySegments(dataset: string, t: Trajectory, inputLength: nat): (r: Result<SegmentArrays, SegmentError>)
    requires t.Valid()
    ensures r == Err(EmptyStack) <==> |t.coordinates| < inputLength
    ensures |t.coordinates| >= inputLength ==> (r.Err? <==> ParseIds(dataset, t.id).Err?)
  {
    SegmentsWith(id => ParseIds(dataset, id), t, inputLength)
  }

  /** `_extract_fixed_sized_segments_UTK(dataset, trajectory, input_length)`: `dataset` is not consulted. */
  function TrajectorySegmentsUtk(t: Trajectory, inputLength: nat): (r: Result<SegmentArrays, SegmentError>)
    requires t.Valid()
    ensures r == Err(EmptyStack) <==> |t.coordinates| < inputLength
    ensures |t.coordinates| >= inputLength ==> (r.Err? <==> ParseUtkIds(t.id).Err?)
  {
    SegmentsWith(ParseUtkIds, t, inputLength)
  }

  /** The body of either twin: the window loop, the stack, the fills and the id parsing. */
  method ExtractTrajectorySegments(parse: string -> Result<ParsedIds, IdError>, t: Trajectory, inputLength: nat)
    returns (r: Result<SegmentArrays, SegmentError>)
    requires t.Valid()
    ensures r == SegmentsWith(parse, t, inputLength)
  {
    var xs, fs := SlidingWindows(t, inputLength);
    if |fs| == 0 {
      return Err(EmptyStack);
    }
    var n := |fs|;
    var parsed := parse(t.id);
    if parsed.Err? {
      return Err(BadId(parsed.error));
    }
    r := Ok(SegmentArrays(
      Fill(n, inputLength, t.id), Fill(n, inputLength, parsed.value.video),
      Fill(n, inputLength, parsed.value.person), fs,
      Fill(n, inputLength, t.category), xs, t.width));
  }

  /** The arrays of every trajectory in iteration order, or the first trajectory's error. */
  function CollectSegments(parse: string -> Result<ParsedIds, IdError>, ts: seq<Trajectory>, inputLength: nat)
    : (r: Result<seq<SegmentArrays>, SegmentError>)
    requires forall k :: 0 <= k < |ts| ==> ts[k].Valid()
    ensures r.Ok? ==> |r.value| == |ts|
    ensures r.Ok? ==> forall k :: 0 <= k < |ts| ==> SegmentsWith(parse, ts[k], inputLength) == Ok(r.value[k])
  {
    if ts == [] then Ok([])
    else
      var init := CollectSegments(parse, ts[..|ts| - 1], inputLength);
      if init.Err? then init
      else
        var last := SegmentsWith(parse, ts[|ts| - 1], inputLength);
        if last.Err? then Err(last.error) else Ok(init.value + [last.value])
  }

  /** The arrays of `parts`, one after the other. */
  function Joined(parts: seq<SegmentArrays>, width: nat): (a: SegmentArrays)
    ensures a.width == width
  {
    if parts == [] then SegmentArrays([], [], [], [], [], [], width)
    else
      var init, last := Joined(parts[..|parts| - 1], width), parts[|parts| - 1];
      SegmentArrays(
        init.ids + last.ids, init.videos + last.videos, init.persons + last.persons,
        init.frames + last.frames, init.categories + last.categories,
        init.coordinates + last.coordinates, width)
  }

  /** `np.vstack` applied to each of the six lists. */
  function VStack(parts: seq<SegmentArrays>): (r: Result<SegmentArrays, SegmentError>)
    ensures r == Err(NothingToStack) <==> parts == []
    ensures r == Err(WidthMismatch) <==> parts != [] && exists k :: 0 <= k < |parts| && parts[k].width != parts[0].width
  {
    if parts == [] then Err(NothingToStack)
    else if exists k :: 0 <= k < |parts| && parts[k].width != parts[0].width then Err(WidthMismatch)
    else Ok(Joined(parts, parts[0].width))
  }

  /** `extract_fixed_sized_segments` (or its UTK twin, by the parser) on the trajectories in
      iteration order. */
  function ExtractAll(parse: string -> Result<ParsedIds, IdError>, ts: seq<Trajectory>, inputLength: nat)
    : Result<SegmentArrays, SegmentError>
    requires forall k :: 0 <= k < |ts| ==> ts[k].Valid()
  {
    var parts := CollectSegments(parse, ts, inputLength);
    if parts.Err? then Err(parts.error) else VStack(parts.value)
  }

  /** The loop over `trajectories.values()` followed by the six `np.vstack` calls. */
  method ExtractFixedSizedSegmentsWith(parse: string -> Result<ParsedIds, IdError>, trajectories: Store, inputLength: nat)
    returns (r: Result<SegmentArrays, SegmentError>)
    requires trajectories.Valid()
    requires forall k :: k in trajectories.entries ==> trajectories.entries[k].Valid()
    ensures r == ExtractAll(parse, trajectories.Values(), inputLength)
  {
    var values := trajectories.Values();
    var parts: seq<SegmentArrays> := [];
    for i := 0 to |values|
      invariant CollectSegments(parse, values[..i], inputLength) == Ok(parts)
    {
      assert values[..i + 1][..i] == values[..i];
      var segments := ExtractTrajectorySegments(parse, values[i], inputLength);
      if segments.Err? {
        assert CollectSegments(parse, values[..i + 1], inputLength) == Err(segments.error);
        CollectStopsAtError(parse, values, inputLength, i + 1);
        return Err(segments.error);
      }
      parts := parts + [segments.value];
    }
    assert values[..|values|] == values;
    r := VStack(parts);
  }

  /** Once a prefix of the trajectories fails, the whole collection fails with the same error. */
  lemma {:induction false} CollectStopsAtError(
    parse: string -> Result<ParsedIds, IdError>, ts: seq<Trajectory>, inputLength: nat, m: nat)
    requires forall k :: 0 <= k < |ts| ==> ts[k].Valid()
    requires m <= |ts| && CollectSegments(parse, ts[..m], inputLength).Err?
    ensures CollectSegments(parse, ts, inputLength) == CollectSegments(parse, ts[..m], inputLength)
    decreases |ts| - m
  {
    if m < |ts| {
      assert ts[..m + 1][..m] == ts[..m];
      CollectStopsAtError(parse, ts, inputLength, m + 1);
    } else {
      assert ts[..m] == ts;
    }
  }

  /** `extract_fixed_sized_segments(dataset, trajectories, input_length)`. */
  method ExtractFixedSizedSegments(dataset: string, trajectories: Store, inputLength: nat)
    returns (r: Result<SegmentArrays, SegmentError>)
    requires trajectories.Valid()
    requires forall k :: k in trajectories.entries ==> trajectories.entries[k].Valid()
    ensures r == ExtractAll(id => ParseIds(dataset, id), trajectories.Values(), inputLength)
  {
    r := ExtractFixedSizedSegmentsWith(id => ParseIds(dataset, id), trajectories, inputLength);
  }

  /** `extract_fixed_sized_segments_UTK(dataset, trajectories, input_length)`. */
  method ExtractFixedSizedSegmentsUtk(dataset: string, trajectories: Store, inputLength: nat)
    returns (r: Result<SegmentArrays, SegmentError>)
    requires trajectories.Valid()
    requires forall k :: k in trajectories.entries ==> trajectories.entries[k].Valid()
    ensures r == ExtractAll(ParseUtkIds, trajectories.Values(), inputLength)
  {
    r := ExtractFixedSizedSegmentsWith(ParseUtkIds, trajectories, inputLength);
  }

  /** The number of windows of all trajectories together. */
  function TotalWindows(ts: seq<Trajectory>, inputLength: nat): nat {
    if ts == [] then 0 else TotalWindows(ts[..|ts| - 1], inputLength) + WindowCount(ts[|ts| - 1], inputLength)
  }

  /** All coordinate windows of all trajectories, in iteration order. */
  function AllCoordinateWindows(ts: seq<Trajectory>, inputLength: nat): seq<seq<Row>> {
    if ts == [] then []
    else AllCoordinateWindows(ts[..|ts| - 1], inputLength) + CoordinateWindows(ts[|ts| - 1], inputLength)
  }

  /** The id rows of all trajectories, in iteration order. */
  function AllIdRows(ts: seq<Trajectory>, inputLength: nat): seq<seq<string>> {
    if ts == [] then []
    else AllIdRows(ts[..|ts| - 1], inputLength) + Fill(WindowCount(ts[|ts| - 1], inputLength), inputLength, ts[|ts| - 1].id)
  }

  /** The frame windows of all trajectories, in iteration order. */
  function AllFrameWindows(ts: seq<Trajectory>, inputLength: nat): seq<seq<int>>
    requires forall k :: 0 <= k < |ts| ==> ts[k].Valid()
  {
    if ts == [] then []
    else AllFrameWindows(ts[..|ts| - 1], inputLength) + FrameWindows(ts[|ts| - 1], inputLength)
  }

  /** The category rows of all trajectories, in iteration order. */
  function AllCategoryRows(ts: seq<Trajectory>, inputLength: nat): seq<seq<int>> {
    if ts == [] then []
    else AllCategoryRows(ts[..|ts| - 1], inputLength) + Fill(WindowCount(ts[|ts| - 1], inputLength), inputLength, ts[|ts| - 1].category)
  }

  /** The video rows of all trajectories, each filled with the video id its trajectory id parses to. */
  function AllVideoRows(parse: string -> Result<ParsedIds, IdError>, ts: seq<Trajectory>, inputLength: nat): seq<seq<VideoId>>
    requires forall k :: 0 <= k < |ts| ==> parse(ts[k].id).Ok?
  {
    if ts == [] then []
    else
      AllVideoRows(parse, ts[..|ts| - 1], inputLength)
      + Fill(WindowCount(ts[|ts| - 1], inputLength), inputLength, parse(ts[|ts| - 1].id).value.video)
  }

  /** The person rows of all trajectories, each filled with the person id its trajectory id parses to. */
  function AllPersonRows(parse: string -> Result<ParsedIds, IdError>, ts: seq<Trajectory>, inputLength: nat): seq<seq<int>>
    requires forall k :: 0 <= k < |ts| ==> parse(ts[k].id).Ok?
  {
    if ts == [] then []
    else
      AllPersonRows(parse, ts[..|ts| - 1], inputLength)
      + Fill(WindowCount(ts[|ts| - 1], inputLength), inputLength, parse(ts[|ts| - 1].id).value.person)
  }

  /** Extraction succeeds exactly when there is a trajectory, every trajectory yields a window and
      parses, and all coordinate rows have one width. */
  lemma {:induction false} CollectSucceeds(parse: string -> Result<ParsedIds, IdError>, ts: seq<Trajectory>, inputLength: nat)
    requires forall k :: 0 <= k < |ts| ==> ts[k].Valid()
    ensures CollectSegments(parse, ts, inputLength).Ok? <==>
      forall k :: 0 <= k < |ts| ==> |ts[k].coordinates| >= inputLength && parse(ts[k].id).Ok?
  {
    if ts != [] {
      var init := ts[..|ts| - 1];
      CollectSucceeds(parse, init, inputLength);
      SegmentsWithSpec(parse, ts[|ts| - 1], inputLength);
      forall k | 0 <= k < |init| ensures init[k] == ts[k] { }
    }
  }

  lemma ExtractAllSucceeds(parse: string -> Result<ParsedIds, IdError>, ts: seq<Trajectory>, inputLength: nat)
    requires forall k :: 0 <= k < |ts| ==> ts[k].Valid()
    ensures ExtractAll(parse, ts, inputLength).Ok? <==>
      && ts != []
      && (forall k :: 0 <= k < |ts| ==> |ts[k].coordinates| >= inputLength && parse(ts[k].id).Ok?)
      && (forall k :: 0 <= k < |ts| ==> ts[k].width == ts[0].width)
  {
    CollectSucceeds(parse, ts, inputLength);
    var parts := CollectSegments(parse, ts, inputLength);
    if parts.Ok? {
      forall k | 0 <= k < |ts| ensures parts.value[k].width == ts[k].width {
        SegmentsWithSpec(parse, ts[k], inputLength);
      }
    }
  }

  /** Stacking keeps every trajectory's rows, in iteration order: each stacked array is the
      per-trajectory arrays concatenated, and the row count is the sum of the window counts. */
  lemma {:induction false} JoinedRows(parse: string -> Result<ParsedIds, IdError>, ts: seq<Trajectory>, inputLength: nat, width: nat)
    requires forall k :: 0 <= k < |ts| ==> ts[k].Valid()
    requires CollectSegments(parse, ts, inputLength).Ok?
    ensures var a := Joined(CollectSegments(parse, ts, inputLength).value, width);
      && a.coordinates == AllCoordinateWindows(ts, inputLength)
      && a.ids == AllIdRows(ts, inputLength)
      && a.frames == AllFrameWindows(ts, inputLength)
      && a.categories == AllCategoryRows(ts, inputLength)
      && (forall k :: 0 <= k < |ts| ==> parse(ts[k].id).Ok?)
      && a.videos == AllVideoRows(parse, ts, inputLength)
      && a.persons == AllPersonRows(parse, ts, inputLength)
      && |a.coordinates| == |a.ids| == TotalWindows(ts, inputLength)
      && |a.videos| == |a.persons| == |a.frames| == |a.categories| == TotalWindows(ts, inputLength)
  {
    if ts != [] {
      var init := ts[..|ts| - 1];
      var parts := CollectSegments(parse, ts, inputLength).value;
      assert CollectSegments(parse, init, inputLength).Ok?;
      JoinedRows(parse, init, inputLength, width);
      assert parts[..|parts| - 1] == CollectSegments(parse, init, inputLength).value;
      SegmentsWithSpec(parse, ts[|ts| - 1], inputLength);
      var last := parts[|parts| - 1];
      assert last.ids == Fill(WindowCount(ts[|ts| - 1], inputLength), inputLength, ts[|ts| - 1].id);
    }
  }

  /** `extract_fixed_sized_segments` stacks exactly the per-trajectory windows, in iteration order. */
  lemma StackedRows(parse: string -> Result<ParsedIds, IdError>, ts: seq<Trajectory>, inputLength: nat)
    requires forall k :: 0 <= k < |ts| ==> ts[k].Valid()
    requires ExtractAll(parse, ts, inputLength).Ok?
    ensures var a := ExtractAll(parse, ts, inputLength).value;
      && a.coordinates == AllCoordinateWindows(ts, inputLength)
      && a.ids == AllIdRows(ts, inputLength)
      && a.frames == AllFrameWindows(ts, inputLength)
      && a.categories == AllCategoryRows(ts, inputLength)
      && (forall k :: 0 <= k < |ts| ==> parse(ts[k].id).Ok?)
      && a.videos == AllVideoRows(parse, ts, inputLength)
      && a.persons == AllPersonRows(parse, ts, inputLength)
      && |a.coordinates| == |a.ids| == TotalWindows(ts, inputLength)
      && |a.videos| == |a.persons| == |a.frames| == |a.categories| == TotalWindows(ts, inputLength)
  {
    var parts := CollectSegments(parse, ts, inputLength).value;
    JoinedRows(parse, ts, inputLength, parts[0].width);
  }

  /** Every stacked id row is `input_length` wide. */
  lemma {:induction false} AllIdRowsWide(ts: seq<Trajectory>, inputLength: nat)
    ensures forall i :: 0 <= i < |AllIdRows(ts, inputLength)| ==> |AllIdRows(ts, inputLength)[i]| == inputLength
  {
    if ts != [] {
      AllIdRowsWide(ts[..|ts| - 1], inputLength);
    }
  }

  /** Trajectories that each yield a window yield at least one window together. */
  lemma {:induction false} TotalWindowsPositive(ts: seq<Trajectory>, inputLength: nat)
    requires ts != []
    requires forall k :: 0 <= k < |ts| ==> |ts[k].coordinates| >= inputLength
    ensures TotalWindows(ts, inputLength) >= |ts|
  {
    if |ts| > 1 {
      TotalWindowsPositive(ts[..|ts| - 1], inputLength);
    }
  }
}
