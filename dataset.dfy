/**
 * `TrajectoryDataset`: the stacked segment arrays behind a map-style dataset
 * whose items are addressed by a Python index.
 */
module TrajectoryDatasets {
  import opened PyOps
  import opened TrajectoryIds
  import opened Trajectories
  import opened Segments

  /** The six arrays a dataset holds; `ids` keeps only the first column of the id rows. */
  datatype TrajectoryDataset = TrajectoryDataset(
    ids: seq<string>,
    videos: seq<seq<VideoId>>,
    persons: seq<seq<int>>,
    frames: seq<seq<int>>,
    categories: seq<seq<int>>,
    coordinates: seq<seq<Row>>)

  /** One item: id, video row, person row, frame window, coordinate window and category row, in the
      order `__getitem__` returns them. */
  datatype Item = Item(
    id: string,
    video: seq<VideoId>,
    person: seq<int>,
    frames: seq<int>,
    coordinates: seq<Row>,
    category: seq<int>)

  /** `IndexError`, the only way construction and indexing fail. */
  datatype DatasetError = IndexError

  /** `TrajectoryDataset(trajectory_ids, …, X)`: `[x[0] for x in trajectory_ids]` fails on an empty
      id row, and the debug print of `trajectory_ids[0]` fails when there is no row at all. */
  function NewTrajectoryDataset(
    trajectoryIds: seq<seq<string>>, videos: seq<seq<VideoId>>, persons: seq<seq<int>>,
    frames: seq<seq<int>>, categories: seq<seq<int>>, coordinates: seq<seq<Row>>)
    : (r: Result<TrajectoryDataset, DatasetError>)
    ensures r.Ok? <==> |trajectoryIds| > 0 && forall i :: 0 <= i < |trajectoryIds| ==> |trajectoryIds[i]| > 0
    ensures r.Ok? ==>
      && |r.value.ids| == |trajectoryIds|
      && forall i :: 0 <= i < |trajectoryIds| ==> r.value.ids[i] == trajectoryIds[i][0]
    ensures r.Ok? ==>
      && r.value.videos == videos && r.value.persons == persons && r.value.frames == frames
      && r.value.categories == categories && r.value.coordinates == coordinates
  {
    if exists i :: 0 <= i < |trajectoryIds| && |trajectoryIds[i]| == 0 then Err(IndexError)
    else if |trajectoryIds| == 0 then Err(IndexError)
    else
      var ids := seq(|trajectoryIds|, i requires 0 <= i < |trajectoryIds| && |trajectoryIds[i]| > 0 =>
        trajectoryIds[i][0]);
      Ok(TrajectoryDataset(ids, videos, persons, frames, categories, coordinates))
  }

  /** `len(dataset)`: the number of ids, which on aligned arrays is every array's row count. */
  function Len(d: TrajectoryDataset): (n: nat)
    ensures Aligned(d) ==> n == |d.videos| == |d.persons| == |d.frames| == |d.categories| == |d.coordinates|
  {
    |d.ids|
  }

  /** `dataset[idx]`: every array is indexed with Python's rules, so each must have row `idx`. */
  function GetItem(d: TrajectoryDataset, idx: int): (r: Result<Item, DatasetError>)
    ensures r.Ok? <==>
      && -|d.ids| <= idx < |d.ids|
      && -|d.videos| <= idx < |d.videos| && -|d.persons| <= idx < |d.persons|
      && -|d.frames| <= idx < |d.frames| && -|d.categories| <= idx < |d.categories|
      && -|d.coordinates| <= idx < |d.coordinates|
  {
    var id, video, person := PyIndex(d.ids, idx), PyIndex(d.videos, idx), PyIndex(d.persons, idx);
    var frames, categories, coordinates := PyIndex(d.frames, idx), PyIndex(d.categories, idx), PyIndex(d.coordinates, idx);
    if id.None? || video.None? || person.None? || frames.None? || categories.None? || coordinates.None? then
      Err(IndexError)
    else
      Ok(Item(id.value, video.value, person.value, frames.value, coordinates.value, categories.value))
  }

  /** All six arrays have one row per segment. */
  predicate Aligned(d: TrajectoryDataset) {
    && |d.videos| == |d.ids| && |d.persons| == |d.ids| && |d.frames| == |d.ids|
    && |d.categories| == |d.ids| && |d.coordinates| == |d.ids|
  }

  /** On aligned arrays an index works exactly in `-len .. len - 1`, a negative index names the same
      item as the non-negative one `len` places further on, and item `i` is row `i` of every array. */
  lemma GetItemIndexing(d: TrajectoryDataset, idx: int)
    requires Aligned(d)
    ensures GetItem(d, idx).Ok? <==> -(Len(d) as int) <= idx < Len(d)
    ensures -(Len(d) as int) <= idx < 0 ==> GetItem(d, idx) == GetItem(d, idx + Len(d))
    ensures 0 <= idx < Len(d) ==> GetItem(d, idx) == Ok(Item(
      d.ids[idx], d.videos[idx], d.persons[idx], d.frames[idx], d.coordinates[idx], d.categories[idx]))
  {
  }

  /** A dataset built from a successful extraction with `input_length >= 1` has one item per window of
      every trajectory, item `i`'s coordinate and frame windows are the `i`-th stacked ones, its
      category row is the `i`-th stacked one, and its id is the id the `i`-th id row is filled with. */
  lemma DatasetOfExtraction(parse: string -> Result<ParsedIds, IdError>, ts: seq<Trajectory>, inputLength: nat)
    requires forall k :: 0 <= k < |ts| ==> ts[k].Valid()
    requires inputLength >= 1
    requires ExtractAll(parse, ts, inputLength).Ok?
    ensures var a := ExtractAll(parse, ts, inputLength).value;
      var d := NewTrajectoryDataset(a.ids, a.videos, a.persons, a.frames, a.categories, a.coordinates);
      && d.Ok?
      && Len(d.value) == TotalWindows(ts, inputLength) > 0
      && Len(d.value) == |AllCoordinateWindows(ts, inputLength)| == |AllIdRows(ts, inputLength)|
      && Len(d.value) == |AllFrameWindows(ts, inputLength)| == |AllCategoryRows(ts, inputLength)|
      && (forall i :: 0 <= i < Len(d.value) ==> |AllIdRows(ts, inputLength)[i]| == inputLength)
      && forall i :: 0 <= i < Len(d.value) ==>
           GetItem(d.value, i).Ok?
           && GetItem(d.value, i).value.coordinates == AllCoordinateWindows(ts, inputLength)[i]
           && GetItem(d.value, i).value.id == AllIdRows(ts, inputLength)[i][0]
           && GetItem(d.value, i).value.frames == AllFrameWindows(ts, inputLength)[i]
           && GetItem(d.value, i).value.category == AllCategoryRows(ts, inputLength)[i]
  {
    var a := ExtractAll(parse, ts, inputLength).value;
    StackedRows(parse, ts, inputLength);
    ExtractAllSucceeds(parse, ts, inputLength);
    TotalWindowsPositive(ts, inputLength);
    AllIdRowsWide(ts, inputLength);
  }

  /** With `input_length == 0` every id row is empty, so `x[0]` raises and no dataset is built. */
  lemma NoDatasetOfEmptyWindows(parse: string -> Result<ParsedIds, IdError>, ts: seq<Trajectory>)
    requires forall k :: 0 <= k < |ts| ==> ts[k].Valid()
    requires ExtractAll(parse, ts, 0).Ok?
    ensures var a := ExtractAll(parse, ts, 0).value;
      NewTrajectoryDataset(a.ids, a.videos, a.persons, a.frames, a.categories, a.coordinates).Err?
  {
    StackedRows(parse, ts, 0);
    ExtractAllSucceeds(parse, ts, 0);
    TotalWindowsPositive(ts, 0);
    AllIdRowsWide(ts, 0);
    var a := ExtractAll(parse, ts, 0).value;
    assert |a.ids| > 0 && |a.ids[0]| == 0;
  }
}
