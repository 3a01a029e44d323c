/**
 * The trajectory entity and the trajectory store: one tracked person's frame
 * indices and joint coordinates, a dictionary of them keyed by trajectory id,
 * and the filter that drops trajectories too short to be segmented.
 */
module Trajectories {
  import opened PyOps

  /** One frame's joint coordinates, joints times channels wide. */
  type Row = seq<real>

  datatype Trajectory = Trajectory(
    id: string,
    personId: char,
    frames: seq<int>,
    coordinates: seq<Row>,
    width: nat,
    category: int,
    dimension: nat)
  {
    /** The row alignment of the data model: one coordinate row of `width` values per frame. */
    predicate Valid() {
      && |frames| == |coordinates|
      && forall i :: 0 <= i < |coordinates| ==> |coordinates[i]| == width
    }
  }

  /** The only way `Trajectory.__init__` can fail: `trajectory_id.split('_')[2][0]` raises IndexError. */
  datatype TrajectoryError = NoPersonField

  /** `Trajectory(trajectory_id, frames, coordinates, category, dimension)`. */
  function NewTrajectory(
    id: string, frames: seq<int>, coordinates: seq<Row>, width: nat,
    category: int, dimensionTag: string): (r: Result<Trajectory, TrajectoryError>)
    ensures r.Ok? <==> |SplitOn(id, '_')| >= 3 && SplitOn(id, '_')[2] != ""
    ensures r.Ok? ==> (r.value.id == id && r.value.frames == frames
                       && r.value.coordinates == coordinates && r.value.category == category)
    ensures r.Ok? ==> r.value.personId != '_'
    ensures r.Ok? ==> (r.value.dimension == 2 <==> dimensionTag == "2D")
    ensures r.Ok? ==> r.value.dimension == 2 || r.value.dimension == 3
  {
    var parts := SplitOn(id, '_');
    if |parts| >= 3 && parts[2] != "" then
      Ok(Trajectory(id, parts[2][0], frames, coordinates, width, category,
        if dimensionTag == "2D" then 2 else 3))
    else
      Err(NoPersonField)
  }

  /** An id built from underscore-free fields gets the first character of its third field as person id. */
  lemma PersonIdIsThirdField(
    fields: seq<string>, frames: seq<int>, coordinates: seq<Row>, width: nat,
    category: int, dimensionTag: string)
    requires |fields| >= 3 && fields[2] != ""
    requires forall i :: 0 <= i < |fields| ==> '_' !in fields[i]
    ensures NewTrajectory(JoinWith(fields, '_'), frames, coordinates, width, category, dimensionTag)
      == Ok(Trajectory(JoinWith(fields, '_'), fields[2][0], frames, coordinates, width, category,
                       if dimensionTag == "2D" then 2 else 3))
  {
    SplitOfJoin(fields, '_');
  }

  /** `len(trajectory)`: measured on the frame list, which has one entry per coordinate row. */
  function Length(t: Trajectory): (n: nat)
    ensures t.Valid() ==> n == |t.coordinates|
  {
    |t.frames|
  }

  /** The shortest trajectory that still yields an input window, its gaps and a prediction horizon. */
  function MinLength(inputLength: int, inputGap: int, predLength: int): int {
    inputLength + inputGap * (inputLength - 1) + predLength
  }

  /** `is_short`: too few frames for `input_length` frames spaced by `input_gap` plus a horizon of
      `pred_length`. Without gaps or horizon it is "shorter than one window", and a trajectory that
      is not short has at least one window's frames whenever gap and horizon are not negative. */
  function IsShort(t: Trajectory, inputLength: int, inputGap: int, predLength: int): (short: bool)
    ensures inputGap == 0 && predLength == 0 ==> (short <==> Length(t) < inputLength)
    ensures inputGap >= 0 && predLength >= 0 && !short ==> Length(t) >= inputLength
  {
    Length(t) < MinLength(inputLength, inputGap, predLength)
  }

  /** A Python dict from trajectory id to trajectory: its insertion order and its contents. */
  datatype Store = Store(keys: seq<string>, entries: map<string, Trajectory>) {
    ghost predicate Valid() {
      && Distinct(keys)
      && (forall k :: k in entries <==> k in keys)
    }

    /** `d[k] = t`: a new key goes to the end of the order, an existing one keeps its place. */
    function Insert(k: string, t: Trajectory): (r: Store)
      requires Valid()
      ensures r.Valid()
      ensures r.entries == entries[k := t]
      ensures k in entries ==> r.keys == keys
      ensures k !in entries ==> r.keys == keys + [k]
    {
      if k in entries then Store(keys, entries[k := t]) else Store(keys + [k], entries[k := t])
    }

    /** `d.values()` in iteration order. */
    function Values(): (vs: seq<Trajectory>)
      requires Valid()
      ensures |vs| == |keys|
      ensures forall i :: 0 <= i < |keys| ==> vs[i] == entries[keys[i]]
    {
      seq(|keys|, i requires 0 <= i < |keys| => entries[keys[i]])
    }
  }

  const EmptyStore: Store := Store([], map[])

  /** The first `n` keys of `ks` whose trajectories are not short, in the order of `ks`. */
  function KeptKeys(s: Store, ks: seq<string>, n: nat, inputLength: int, inputGap: int, predLength: int): seq<string>
    requires n <= |ks| && forall i :: 0 <= i < |ks| ==> ks[i] in s.entries
  {
    if n == 0 then []
    else
      KeptKeys(s, ks, n - 1, inputLength, inputGap, predLength)
        + (if IsShort(s.entries[ks[n - 1]], inputLength, inputGap, predLength) then [] else [ks[n - 1]])
  }

  /**
   * The sub-dictionary of `s` built from the first `n` keys of `ks` in order,
   * leaving out the short trajectories: what the filter holds after visiting them.
   */
  function Kept(s: Store, ks: seq<string>, n: nat, inputLength: int, inputGap: int, predLength: int): (r: Store)
    requires s.Valid() && Distinct(ks) && n <= |ks| && forall i :: 0 <= i < |ks| ==> ks[i] in s.entries
    ensures r.Valid()
    ensures r.keys == KeptKeys(s, ks, n, inputLength, inputGap, predLength)
    ensures forall k :: k in r.entries <==> k in ks[..n] && !IsShort(s.entries[k], inputLength, inputGap, predLength)
    ensures forall k :: k in r.entries ==> r.entries[k] == s.entries[k]
  {
    if n == 0 then EmptyStore
    else
      var last := ks[n - 1];
      var prev := Kept(s, ks, n - 1, inputLength, inputGap, predLength);
      assert ks[..n] == ks[..n - 1] + [last];
      assert last !in ks[..n - 1];
      if IsShort(s.entries[last], inputLength, inputGap, predLength) then prev
      else prev.Insert(last, s.entries[last])
  }

  /** `remove_short_trajectories`: the sub-dictionary of trajectories that are not short. */
  method RemoveShortTrajectories(trajectories: Store, inputLength: int, inputGap: int, predLength: int)
    returns (filtered: Store)
    requires trajectories.Valid()
    ensures filtered == Kept(trajectories, trajectories.keys, |trajectories.keys|, inputLength, inputGap, predLength)
  {
    var keys := trajectories.keys;
    assert forall j :: 0 <= j < |keys| ==> keys[j] in trajectories.entries;
    filtered := EmptyStore;
    for i := 0 to |keys|
      invariant filtered == Kept(trajectories, keys, i, inputLength, inputGap, predLength)
    {
      var k := keys[i];
      if !IsShort(trajectories.entries[k], inputLength, inputGap, predLength) {
        filtered := filtered.Insert(k, trajectories.entries[k]);
      }
    }
  }

  /** What the filter keeps: every long trajectory, unchanged, in the dictionary's order, and nothing else. */
  lemma RemoveShortKeepsLong(trajectories: Store, inputLength: int, inputGap: int, predLength: int)
    requires trajectories.Valid()
    ensures var ks := trajectories.keys;
      var r := Kept(trajectories, ks, |ks|, inputLength, inputGap, predLength);
      && r.Valid()
      && r.keys == KeptKeys(trajectories, ks, |ks|, inputLength, inputGap, predLength)
      && (forall k :: k in r.entries ==>
            k in trajectories.entries && r.entries[k] == trajectories.entries[k]
            && !IsShort(r.entries[k], inputLength, inputGap, predLength))
      && (forall k :: k in trajectories.entries && !IsShort(trajectories.entries[k], inputLength, inputGap, predLength)
            ==> k in r.entries)
  {
    assert trajectories.keys[..|trajectories.keys|] == trajectories.keys;
  }
}
