# Skeleton-trajectory anomaly classifier: data pipeline and shape bookkeeping

This project models the discrete core of a repository that classifies human
skeleton trajectories with transformer networks. It has two halves.

**The trajectory pipeline.** This is `trajectory.py`.
- A `Trajectory` holds one tracked person's frame indices and joint coordinates. Its person id is read from its id.
- Trajectories are kept in a dictionary keyed by id. The model is an insertion-ordered key sequence plus a map.
- Trajectories too short for an input window are filtered out (`remove_short_trajectories`).
- The rest are split into training and validation sets, stratified by length quartile. Rounding uses Python's round-half-to-even.
- A sliding window cuts each trajectory into fixed-length segments.
- Video and person ids are parsed out of trajectory ids. The HR-Crime, UTK and NTU rules are modelled, and so is the UTK twin of the extractor.
- The segments are stacked in dictionary order and served by an indexed `TrajectoryDataset`.

**The skeleton and shape bookkeeping.** This is `transformer.py`.
- The body-part joint tables of the 17-joint and 25-joint layouts.
- The columns `get_average_body_parts` reads for each part, and the (mean x, mean y) pairs it returns.
- The joint regrouping of `BodyPartTransformer.forward`.
- The shape arithmetic of the five classifier variants: token counts against positional tables, spatial widths, `embed_dim = embed_dim_ratio * num_joints`, and the attention head split.
- Tensors are modelled by their shapes. Each variant's forward pass is a shape program that either returns `(b, num_classes)` or names the exception torch, einops or Python would raise.

Randomness is passed in as parameters. `np.argsort` and the per-quartile
`np.random.permutation` arrive as index sequences that satisfy a permutation
contract. They are not drawn from a seeded generator.

Modules, one per file:
- `PyOps` (`py_ops.dfy`): Python slicing and indexing, `round`, `int()`, `str.split`, and the substring test.
- `Trajectories` (`trajectory.dfy`): the trajectory, the store, and the short-trajectory filter.
- `TrainValSplit` (`split.dfy`): the stratified split.
- `TrajectoryIds` (`ids.dfy`): regex search and id parsing.
- `Segments` (`segments.dfy`): window extraction and stacking.
- `TrajectoryDatasets` (`dataset.dfy`): the indexed dataset.
- `BodyParts` (`body_parts.dfy`): joint tables, column selection and part means.
- `Shapes` (`shapes.dfy`): shape semantics of the torch and einops operations.
- `Variants` (`variants.dfy`): construction and forward shapes of the five classifiers.

Two facts about the source that the model keeps:
- `Attention.__init__` does not check that `num_heads` divides `dim`. A head count that does not divide the width raises in `Attention.forward`, at the reshape of transformer.py:44.
- `TemporalTransformer_4.forward` always raises `TypeError`: it calls `get_average_body_parts` with one argument (transformer.py:758).

## Model

| member | source | states |
|---|---|---|
| PyOps.Slice | trajectory.py:100-104 | A Python slice `s[a:b]` clamps out-of-range bounds and counts negative ones from the end. The result's length and every element are stated. |
| PyOps.SliceInRange | trajectory.py:100 | For in-range bounds, the Python slice is the plain subsequence `s[a..b]`. |
| PyOps.PyIndex | trajectory.py:59-67 | `s[idx]` succeeds exactly for `-len <= idx < len`. A negative index counts from the end. Anything else is IndexError. |
| PyOps.RoundHalfEven | trajectory.py:91-93 | `round(x)` is within 0.5 of `x`, and a tie goes to the even integer. |
| PyOps.RoundMonotone | trajectory.py:91-93 | `round` is monotone. |
| PyOps.RoundQuarterIsRound | trajectory.py:91-93 | The integer computation of the quartile positions equals Python's `round(a / 4)`. |
| PyOps.RoundedShareBounds | trajectory.py:102 | For a ratio in [0, 1], `round(k * ratio)` lies in `0..k`. |
| PyOps.ParseInt | trajectory.py:194 | For a string of word characters (what the id patterns capture), `int(s)` succeeds exactly on decimal literals: digits, with single underscores between digits. |
| PyOps.ParseIntOfDecimal | trajectory.py:194 | `int()` of a number's decimal spelling gives the number back. |
| PyOps.ParseIntOfDigits | trajectory.py:194 | `int()` of a non-empty digit string is its decimal value. |
| PyOps.SplitOn | trajectory.py:24 | `s.split('_')` gives at least one part, and no part contains the separator. |
| PyOps.JoinOfSplit | trajectory.py:24 | Joining the parts of `s.split(sep)` with `sep` gives `s` back. |
| PyOps.SplitOfJoin | trajectory.py:24 | Splitting a join of separator-free parts gives the parts back. |
| PyOps.HasSubstringIff | trajectory.py:182 | `"NTU" in dataset` holds exactly when "NTU" occurs at some position of the name. |
| Trajectories.NewTrajectory | trajectory.py:21-29 | The constructor fails exactly when the id has no non-empty third `_` field, where Python raises IndexError. Otherwise it stores id, frames, coordinates and category unchanged, and the dimension is 2 exactly for "2D", else 3. |
| Trajectories.PersonIdIsThirdField | trajectory.py:24 | For an id joined from underscore-free fields, the person id is the first character of the third field. |
| Trajectories.Length | trajectory.py:31-32 | `len(trajectory)` is the number of coordinate rows of a well-formed trajectory. |
| Trajectories.IsShort | trajectory.py:34-37 | With gap and horizon 0 a trajectory is short exactly when it has fewer than `input_length` frames. With non-negative gap and horizon, one that is not short has at least `input_length` frames. |
| Trajectories.Store.Insert | trajectory.py:77 | Dictionary assignment keeps the store well-formed. It updates the map and appends a new key to the iteration order; an existing key keeps its place. |
| Trajectories.Store.Values | trajectory.py:123 | `d.values()` lists each key's trajectory in iteration order. |
| Trajectories.Kept | trajectory.py:73-79 | The filter's state after visiting `n` keys is a well-formed store. It holds exactly the visited keys whose trajectories are not short, mapped to their original trajectories, in visiting order. |
| Trajectories.RemoveShortTrajectories | trajectory.py:73-79 | The loop's result is `Kept` over all keys in dictionary order. |
| Trajectories.RemoveShortKeepsLong | trajectory.py:73-79 | The filtered dictionary is a sub-dictionary. Every entry is an input entry with the same trajectory and is not short (`len(frames) < L + g*(L-1) + p` fails). Every input entry that is not short is kept. |
| TrainValSplit.Permute | trajectory.py:95 | `np.array(ids)[order]`: position `i` holds `ids[order[i]]`. |
| TrainValSplit.PermuteKeepsElements | trajectory.py:101 | Permuting a duplicate-free id list keeps it duplicate-free, with the same multiset of ids. |
| TrainValSplit.Lengths | trajectory.py:84-88 | The length list holds `len(trajectory)` for each id, in order. |
| TrainValSplit.QuartileBounds | trajectory.py:90-98 | The five quantile indices start at 0, end at `n`, and never decrease, so the four slices are contiguous and cover the sorted ids. |
| TrainValSplit.QuartileBoundsAreRounded | trajectory.py:91-93 | The inner bounds are `round(n*0.25)`, `round(n*0.5)` and `round(n*0.75)` with Python's half-to-even rounding. |
| TrainValSplit.TrainCutInRange | trajectory.py:102 | For a ratio in [0, 1], `train_idx` is a cut inside the quartile. |
| TrainValSplit.ShareSizes | trajectory.py:102-104 | A quartile of size `k` gives `round(k*ratio)` ids to training and the remaining `k - round(k*ratio)` to validation. For other ratios it gives the clamped counts. |
| TrainValSplit.SharesRecombine | trajectory.py:103-104 | The training share followed by the validation share is exactly the shuffled quartile. |
| TrainValSplit.ShuffledQuartileElements | trajectory.py:100-101 | A shuffled quartile holds exactly the ids of its slice of the length-sorted ids. |
| TrainValSplit.TrainIds | trajectory.py:99-104 | `train_ids` after `m` quartiles holds no more ids than those quartiles. For a ratio in [0, 1] it holds `round(k*ratio)` ids of each quartile of size `k`. |
| TrainValSplit.ValIds | trajectory.py:99-104 | `val_ids` after `m` quartiles holds no more ids than those quartiles. For a ratio in [0, 1] it holds the rest of them. |
| TrainValSplit.SplitSoFar | trajectory.py:99-104 | After `m` quartiles, the training and validation ids together are exactly the sorted ids up to the `m`-th bound. |
| TrainValSplit.SplitIsPartition | trajectory.py:84-104 | The training and validation id lists have no duplicates and are disjoint. Together they are exactly the input ids, so their sizes add up. |
| TrainValSplit.QuartilesOrderedByLength | trajectory.py:90-100 | Under the argsort contract, every trajectory of a lower quartile is no longer than any trajectory of a higher one. |
| TrainValSplit.SubStore | trajectory.py:106-112 | Building a dictionary from a duplicate-free id list gives those ids in that order, each mapped to its input trajectory. |
| TrainValSplit.SplitIntoTrainAndTest | trajectory.py:81-114 | The two dictionaries have the quartile-ordered train/val key lists. They are disjoint, together cover every input key, map each key to its input trajectory, and their sizes add up to the input size. |
| TrajectoryIds.FirstHit | trajectory.py:171 | `re.search`'s scan returns the first position from the start where the pattern matches, and no earlier position matches. |
| TrajectoryIds.HrSearch | trajectory.py:171 | Whatever `re.search(r"(\d+)_(\d+)")` returns is a match of the pattern at the returned position. |
| TrajectoryIds.UtkSearch | trajectory.py:175 | Whatever `re.search(r"_(\w+)_(\w+)")` returns is a match of the pattern at the returned position. |
| TrajectoryIds.HrMatchAtSpec | trajectory.py:171 | At one position, `(\d+)_(\d+)` matches exactly when the scanner finds a match. The result is a real match, with the only possible first group and the longest second group. |
| TrajectoryIds.UtkMatchAtComplete | trajectory.py:175 | Any match of `_(\w+)_(\w+)` at a position is found. The chosen first group is the longest, and within it the second group is the longest. |
| TrajectoryIds.UtkMatchAtSound | trajectory.py:175 | What the `\w` scanner returns is a match of `_(\w+)_(\w+)` at that position. |
| TrajectoryIds.UtkMatchAtSpec | trajectory.py:175 | At one position, the UTK pattern matches exactly when the scanner finds a match, and the scanner's groups are the ones backtracking reaches first. |
| TrajectoryIds.HrSearchSpec | trajectory.py:171 | `re.search(r"(\d+)_(\d+)")` returns the leftmost match with the engine's groups, and returns None exactly when no position matches. |
| TrajectoryIds.UtkSearchSpec | trajectory.py:175 | `re.search(r"_(\w+)_(\w+)")` returns the leftmost match with the engine's groups, and returns None exactly when no position matches. |
| TrajectoryIds.HrGroupsOf | trajectory.py:171-173 | For a digit-free prefix followed by `a_b` (both digit strings), the search returns exactly `a` and `b`. |
| TrajectoryIds.UtkGroupsOf | trajectory.py:175-177 | For an underscore-free prefix followed by `_a_b`, where `b` has no underscore, the search returns `a` and `b`. |
| TrajectoryIds.ParseIds | trajectory.py:170-194 | A parsed person id is never negative. Only the NTU placeholder gives a numeric video id; HR-Crime and UTK give the video text. |
| TrajectoryIds.ParseIdsErrors | trajectory.py:170-194 | An unknown dataset name fails exactly when it is not HR-Crime or UTK and does not contain "NTU". HR-Crime and UTK fail with AttributeError exactly when the pattern matches nowhere. HR-Crime's `int()` never fails. UTK fails with ValueError exactly when the second group, less its first character, is not an integer literal. NTU names give (1, 1). |
| TrajectoryIds.HrCrimeIdsRoundTrip | trajectory.py:170-173 | The HR-Crime branch reads back the video text and person number an id was built from. |
| TrajectoryIds.UtkIdsRoundTrip | trajectory.py:174-177 | The UTK branch drops the first character of each group and reads back the person number. |
| TrajectoryIds.ParseUtkIds | trajectory.py:255-266 | The UTK twin raises ValueError exactly when the pattern matches and one of the two groups, less its first character, is not an integer literal. On success both ids are the decimal values of those remainders (underscores dropped), so they are non-negative. |
| TrajectoryIds.ParseUtkIdsNoMatch | trajectory.py:255-260 | The UTK twin raises AttributeError exactly when the pattern matches nowhere in the id. |
| TrajectoryIds.UtkNumbersRoundTrip | trajectory.py:255-266 | For an id `prefix_<tag><video>_<tag><person>` with an underscore-free prefix and decimal numbers, the UTK twin reads back both numbers. |
| Segments.CoordinateWindows | trajectory.py:156-158 | There are `len(coordinates) - input_length + 1` coordinate windows (none if shorter). |
| Segments.FrameWindows | trajectory.py:156-159 | There is one frame window per coordinate window. |
| Segments.SlidingWindows | trajectory.py:150-159 | The loop emits one window per start index, in increasing order. Window `i` is `coordinates[i:i+L]` paired with `frames[i:i+L]`. |
| Segments.WindowsCoverRows | trajectory.py:150-158 | Every coordinate row of a trajectory at least one window long appears in some window. |
| Segments.WindowsSlide | trajectory.py:156-158 | Consecutive windows overlap in all but one row. |
| Segments.KeptTrajectoryHasWindows | trajectory.py:151-156 | A trajectory kept by the filter (gap and horizon non-negative) yields at least one window, so `np.stack` does not fail on it. |
| Segments.Fill | trajectory.py:164-165 | `np.full(shape, v)` has the given shape and holds `v` everywhere. |
| Segments.SegmentsWith | trajectory.py:140-199 | One trajectory fails with the `np.stack` error exactly when it is shorter than `input_length`. Otherwise it fails exactly when its id does not parse, with the parser's error. |
| Segments.SegmentsWithSpec | trajectory.py:140-199 | On success every array has one row per window, the windows are in start order, and the id, category, video and person rows hold that trajectory's values. |
| Segments.TrajectorySegments | trajectory.py:140-199 | `_extract_fixed_sized_segments` fails with the `np.stack` error exactly on a trajectory shorter than `input_length`, and otherwise exactly when the dataset's id rules reject the id. |
| Segments.TrajectorySegmentsUtk | trajectory.py:224-270 | `_extract_fixed_sized_segments_UTK` fails with the `np.stack` error exactly on a trajectory shorter than `input_length`, and otherwise exactly when the UTK-twin parser rejects the id. |
| Segments.ExtractTrajectorySegments | trajectory.py:140-199 | The window loop followed by stack, fills and id parsing computes the per-trajectory arrays. |
| Segments.CollectSegments | trajectory.py:123-132 | The outer loop's lists hold each trajectory's arrays in iteration order. |
| Segments.VStack | trajectory.py:134 | `np.vstack` fails exactly on an empty list or on coordinate rows of different widths. |
| Segments.ExtractFixedSizedSegmentsWith | trajectory.py:118-137 | The loop over `trajectories.values()` followed by the six `vstack` calls computes the stacked arrays, or the first error. |
| Segments.ExtractFixedSizedSegments | trajectory.py:118-137 | `extract_fixed_sized_segments` uses the dataset's id rules. |
| Segments.ExtractFixedSizedSegmentsUtk | trajectory.py:202-221 | The UTK twin uses the UTK-twin parser and ignores the dataset name. |
| Segments.CollectStopsAtError | trajectory.py:123-124 | The first trajectory that raises decides the whole extraction's error. |
| Segments.CollectSucceeds | trajectory.py:123-134 | Collection succeeds exactly when every trajectory is at least `input_length` long and its id parses. |
| Segments.ExtractAllSucceeds | trajectory.py:118-137 | Extraction succeeds exactly when there is a trajectory, every trajectory yields a window and parses, and all rows have one width. |
| Segments.JoinedRows | trajectory.py:127-134 | Each of the six stacked arrays is the per-trajectory arrays concatenated in iteration order: coordinate and frame windows, id and category rows, and the parsed video and person rows. The row count is the sum of the window counts. |
| Segments.StackedRows | trajectory.py:123-137 | After a successful extraction every id parses, and all six stacked arrays are the per-trajectory ones concatenated in iteration order: coordinate and frame windows, id rows, category rows, video and person rows. All six have the total window count. |
| Segments.AllIdRowsWide | trajectory.py:164 | Every stacked id row is `input_length` wide. |
| Segments.TotalWindowsPositive | trajectory.py:134 | Trajectories that each yield a window yield at least one window per trajectory in total. |
| TrajectoryDatasets.NewTrajectoryDataset | trajectory.py:44-52 | Construction fails (IndexError) exactly on an empty id array or an empty id row. Otherwise `ids` holds the first column of each id row, and the other arrays are stored unchanged. |
| TrajectoryDatasets.GetItem | trajectory.py:57-67 | `dataset[idx]` succeeds exactly when each of the six arrays accepts `idx` under Python's indexing rules. |
| TrajectoryDatasets.GetItemIndexing | trajectory.py:54-67 | On aligned arrays an index works exactly in `-len .. len-1`. A negative index names the same item as `idx + len`. Item `idx` is the six arrays' rows `idx`. |
| TrajectoryDatasets.Len | trajectory.py:54-55 | `len(dataset)` is the number of ids, which on aligned arrays is the length of each of the six arrays. |
| TrajectoryDatasets.DatasetOfExtraction | trajectory.py:44-67 | A dataset built from a successful extraction has one item per window. Every index in range works. Item `i` carries the `i`-th stacked coordinate window, frame window and category row, and its trajectory's id. |
| TrajectoryDatasets.NoDatasetOfEmptyWindows | trajectory.py:44-45 | With `input_length == 0` every id row is empty, so `x[0]` raises and no dataset is built from the extraction. |
| BodyParts.Joints17 | transformer.py:402-414 | The 17-joint table names only joints 0..16. |
| BodyParts.Joints25 | transformer.py:323-354 | The 25-joint table names only joints 0..24. |
| BodyParts.Partition17 | transformer.py:404-414 | Torso, elbow, wrist, knee and ankle have 9, 2, 2, 2 and 2 joints and use each of 0..16 exactly once. |
| BodyParts.Partition25 | transformer.py:324-354 | The parts have 9, 2, 8, 2 and 4 joints and use each of 0..24 exactly once. |
| BodyParts.SpansAreJoints17 | transformer.py:404-414 | The written slices `0:7`, `11:13`, `7:9`, `9:11`, `13:15`, `15:17` cover exactly the table's joints in table order. |
| BodyParts.SpansAreJoints25 | transformer.py:324-354 | The written 25-joint slices cover exactly the table's joints in concatenation order. |
| BodyParts.SliceColumns | transformer.py:404-414 | A column slice of a frame only names columns inside the frame. |
| BodyParts.PartColumns | transformer.py:322-414 | Every column a part reads lies inside the frame. |
| BodyParts.PartColumnsAreJointColumns | transformer.py:322-414 | Where the frame is wide enough, the columns read for a part are exactly `[j*dim, (j+1)*dim)` for each of its joints, in order. `dim` is 2 in the 17-joint branch and `int(w/25)` in the 25-joint branch. |
| BodyParts.Evens | transformer.py:424-428 | `s[::2]` has `ceil(len/2)` elements, the even positions. |
| BodyParts.Odds | transformer.py:438-442 | `s[1::2]` has `floor(len/2)` elements, the odd positions. |
| BodyParts.XYOfTwoChannels | transformer.py:424-442 | With two columns per joint, `::2` picks every joint's x column and `1::2` its y column. |
| BodyParts.XOfThreeChannels | transformer.py:356-366 | With three columns per joint, `::2` picks the first joint's z column as its second value, not an x column. |
| BodyParts.Mean | transformer.py:447-457 | The mean is NaN exactly on an empty selection. Otherwise it times the count is the sum. |
| BodyParts.MeanBounds | transformer.py:447-457 | The mean of a non-empty selection lies between its bounds. |
| BodyParts.AverageFrame | transformer.py:322-501 | One frame gives ten values for 17 or 25 joints, and None (fall-through) for any other joint count. |
| BodyParts.AverageBodyParts | transformer.py:322-501 | On a batch, the result has the batch's shape with each frame replaced by its ten values, and is None exactly for other joint counts. |
| BodyParts.PartMeanIsJointMean | transformer.py:424-457 | On a frame that covers the table (the 17-joint branch always reads two columns per joint, so any frame of at least 34 columns; the 25-joint branch two columns per joint), a part's x mean (y mean) averages column 0 (column 1) of exactly the part's joints. |
| BodyParts.AverageFrameIsPartMeans | transformer.py:483-500 | On a frame that covers the table, output `i` is the mean of column `i % 2` of the two-column group of each joint of part `i / 2`, in the order torso, elbow, wrist, knee, ankle. |
| BodyParts.AverageFrameHasNoNaN | transformer.py:447-457 | On a frame that covers the table no output is NaN. |
| BodyParts.Unflatten | transformer.py:1233 | Reshaping a frame of `j*c` values gives `j` joints of `c` channels. |
| BodyParts.FlattenUnflatten | transformer.py:1233 | Undoing the reshape gives the frame back. |
| BodyParts.RegroupJoints | transformer.py:1239-1245 | The forward pass makes five groups. |
| BodyParts.RegroupSizes | transformer.py:1239-1245 | Each group's size is the clamped size of its slices for the frame's joint count. |
| BodyParts.RegroupMatchesTable | transformer.py:1239-1245 | With at least 17 joints the groups are exactly the 17-joint table's parts. Their concatenation uses each of joints 0..16 once, and joints past 16 are dropped. |
| BodyParts.GroupSizesFitTables | transformer.py:1239-1245 | The group sizes fit the 9-row and 2-row positional tables (or broadcast as one joint) exactly from 16 joints on. At 16 the ankle holds a single joint. |
| Shapes.Linear | transformer.py:105 | `nn.Linear(in, out)` accepts exactly a last dimension of `in`, which becomes `out`. |
| Shapes.LinearCompose | transformer.py:20-26 | Two linear layers in a row act on the shape as one layer. |
| Shapes.LayerNorm | transformer.py:126 | `nn.LayerNorm(d)` accepts exactly a last dimension of `d` and keeps the shape. |
| Shapes.BroadcastDim | transformer.py:176 | Two aligned dimensions broadcast exactly when they are equal or one is 1, and the result is the non-1 one. |
| Shapes.Broadcast | transformer.py:176 | A successful `a + b` has the rank of the longer shape. |
| Shapes.BroadcastIsRightAligned | transformer.py:176 | `a + b` succeeds exactly on numpy-broadcastable shapes. Each result dimension is the broadcast of the right-aligned pair. |
| Shapes.BroadcastCommutes | transformer.py:176 | Broadcasting is symmetric, in success and failure alike. |
| Shapes.BroadcastSelf | transformer.py:176 | A shape broadcasts with itself to itself. |
| Shapes.BroadcastTokens | transformer.py:176 | Tokens `(b, n, e)` plus a table `(m, e)` succeed exactly when `n` and `m` broadcast, and the result has the broadcast count. |
| Shapes.Cat | transformer.py:169 | `torch.cat` needs equal rank and equal sizes off the axis. The sizes along the axis add up. |
| Shapes.CatAll | transformer.py:1279 | `torch.cat(parts, dim)` succeeds exactly when all parts have the first part's rank and its sizes off `dim` (and `dim` exists, for two or more parts). The result keeps that rank and those sizes. |
| Shapes.CatAllWidths | transformer.py:1279 | Concatenating `(b, f, w_i)` along the feature axis gives `(b, f, sum w_i)`. |
| Shapes.SelectFirst | transformer.py:186 | `x[:, 0]` needs a non-empty second dimension and drops it. |
| Shapes.Transpose | transformer.py:281 | `transpose(i, j)` swaps two existing dimensions and keeps the rest. |
| Shapes.TransposeTwice | transformer.py:281 | Transposing twice restores the shape. |
| Shapes.Reshape | transformer.py:937 | A reshape succeeds exactly when the element counts agree. |
| Shapes.ReshapeBack | transformer.py:937 | A successful reshape can be undone. |
| Shapes.MergeBatch | transformer.py:854 | `'b f p c -> (b f) p c'` accepts exactly four dimensions. |
| Shapes.SplitBatch | transformer.py:866 | `'(b f) w c -> b f (w c)'` accepts exactly three dimensions whose first splits into `f > 0` parts. |
| Shapes.RearrangeKeepsNumel | transformer.py:854-866 | Both rearrangements keep the element count. |
| Shapes.MergeThenSplit | transformer.py:854-866 | Merging batch and frames and splitting them again gives `(b, f, p*c)`. |
| Shapes.AttentionInit | transformer.py:29-35 | Construction fails (ZeroDivisionError) exactly for zero heads, or for `head_dim == 0` without a truthy `qk_scale`. `head_dim` is `dim // num_heads`. |
| Shapes.HeadSplit | transformer.py:44 | `(B, N, 3C)` reshapes to `(B, N, 3, H, C // H)` exactly when `B*N == 0` or `H` divides `C`. |
| Shapes.AttentionForward | transformer.py:42-54 | Attention runs exactly on `(B, N, dim)` inputs whose heads split `dim` (or that have no tokens), and keeps the shape. |
| Shapes.NewStack | transformer.py:8-68 | Building `depth` blocks fails exactly when depth is positive and the attention or the Mlp width fails. A built stack has its depth and width. Its Mlp's hidden width is `int(dim * mlp_ratio)`, or `dim` when that is 0 (`hidden_features or in_features`). |
| Shapes.BlockForward | transformer.py:70-75 | A block runs exactly on the inputs its attention accepts and keeps their shape. |
| Shapes.RunBlocks | transformer.py:180-181 | Running a non-empty list of blocks is running the first block, and the shape is kept. |
| Shapes.StackForward | transformer.py:180-181 | An empty stack is the identity. A non-empty one runs exactly on what its block accepts, and every stack keeps the shape. |
| Variants.Construct | transformer.py:797-823 | Construction succeeds exactly when the temporal stack (and, for the spatial variants, the spatial stack at `embed_dim_ratio`) builds. The temporal width is `embed_dim`, or `embed_dim_ratio * num_joints` for the spatial variants. |
| Variants.PrependCls | transformer.py:164-169 | Expanding the class token and concatenating succeeds exactly on `(b, n, e)` and gives `(b, n+1, e)`. |
| Variants.AveragedShape | transformer.py:398-399 | On an input of at least three dimensions, the body-part means replace the feature axis by 10 for 17 or 25 joints. Other joint counts return None. |
| Variants.SliceJoints | transformer.py:1239-1245 | `x[:, :, lo:hi, :]` changes only the joint axis and never grows it. An in-range slice keeps `hi - lo` joints. |
| Variants.FramesFitIsBroadcast | transformer.py:111 | `f+1` tokens meet a `num_frames+1` table exactly when `f == num_frames`, `f == 0` or `num_frames == 0`. |
| Variants.ClassifyTokens | transformer.py:180-193 | Any `n >= 1` tokens of the model's width give one row of logits per batch element, exactly when the heads split the width. |
| Variants.FrameTokens | transformer.py:169-176 | The class token and the positional table fit `(b, f, e)` features exactly when the frames fit the table. |
| Variants.ForwardOfEmbedded | transformer.py:154-193 | Once a variant has embedded its input as `(b, f, w)`, the forward succeeds exactly when `w == embed_dim`, the count fits the table and the heads split `embed_dim`. The output is `(b, num_classes)`. |
| Variants.TemporalForward | transformer.py:77-193 | TemporalTransformer accepts exactly frames `num_joints*in_chans` wide whose count fits `num_frames+1` rows, given heads that split `embed_dim`. |
| Variants.Temporal2Forward | transformer.py:197-319 | TemporalTransformer_2 accepts exactly `num_frames` frames whose coordinate count fits `num_joints*in_chans+1` rows, given heads that split `embed_dim`. |
| Variants.Temporal3Forward | transformer.py:505-631 | TemporalTransformer_3 accepts exactly 17- or 25-joint models with `num_parts*in_chans == 10`, a fitting frame count and heads that split `embed_dim`. The frame width is never checked. |
| Variants.SplitJointsShape | transformer.py:930-937 | The reshape to `(b, f, e // c, c)` succeeds exactly when `c` divides `e`. |
| Variants.SplitJoints | transformer.py:930-937 | A successful reshape keeps batch and frames and turns the width into `e // c` joints of `c` values. It needs rank three and `c > 0`. |
| Variants.SpatialFeaturesShape | transformer.py:849-869 | A spatial pass succeeds exactly when the joint tokens broadcast with the table and the heads split `embed_dim_ratio`. It gives `tokens * embed_dim_ratio` columns per frame. |
| Variants.SpatialWidthFits | transformer.py:797-806 | The spatial output width meets `embed_dim` exactly when the frame splits into `num_joints` joints, or into a single joint that the table broadcasts. |
| Variants.SpatialEmbed | transformer.py:926-938 | The spatial embedding succeeds exactly as the reshape and the spatial pass allow, with `rows * embed_dim_ratio` columns. |
| Variants.SpatialTemporalNeedsFrames | transformer.py:866 | With no frames, the final rearrangement cannot split the empty batch. |
| Variants.SpatialTemporalForward | transformer.py:768-948 | SpatialTemporalTransformer accepts exactly batches with frames whose width splits into `in_chans` columns and into `num_joints` joints (or one joint), with a fitting frame count and heads that split `embed_dim_ratio` and `embed_dim`. |
| Variants.BodyPartSlices | transformer.py:1239-1245 | The five slices of `(b, f, j, c)` have the regrouping's group sizes. |
| Variants.FivePartsWidth | transformer.py:1279 | The five part features, 9+2+2+2+2 tokens of width `r`, concatenate to `17 * r` columns. |
| Variants.PartFeaturesOk | transformer.py:1089-1279 | With at least 16 joints and heads that split `embed_dim_ratio`, every part passes, giving `17 * embed_dim_ratio` columns. |
| Variants.PartFeaturesErr | transformer.py:1089-1279 | With fewer than 16 joints, or heads that do not split `embed_dim_ratio`, the parts fail. |
| Variants.BodyPartFeaturesShape | transformer.py:1224-1279 | The body-part features exist exactly for `j >= 16` joints and heads that split `embed_dim_ratio`. They are `17 * embed_dim_ratio` wide. |
| Variants.BodyPartFeatures | transformer.py:1224-1279 | The body-part features of a `(b, f, w)` batch need frames and give one row per frame, `(b, f, ...)`. |
| Variants.BodyPartNeedsFrames | transformer.py:1104 | With no frames, the torso's rearrangement cannot split the empty batch. |
| Variants.BodyPartForward | transformer.py:977-1290 | BodyPartTransformer accepts exactly batches with frames whose width splits into `in_chans` columns for at least 16 joints, and only when built for 17 joints. It also needs a fitting frame count and heads that split `embed_dim_ratio` and `embed_dim`. |
| Variants.Embed | transformer.py:159-1279 | Each variant's embedding keeps the rank, and the batch dimension for inputs of rank two or more. The temporal variants end in `embed_dim`. TemporalTransformer_2 puts the coordinate count where the frames were; on inputs of rank three or more the others keep the frame count. The spatial variants need `(b, f, w)` with frames. |
| Variants.SpatialFeatures | transformer.py:849-869 | A spatial pass needs `(b, f, j, in_chans)` with frames and joints that broadcast with the table. It gives `(b, f, tokens * embed_dim_ratio)`. |
| Variants.PartFeatures | transformer.py:1089-1279 | The body-part features need frames and `in_chans` values per joint. They give one row per frame, `(b, f, ...)`. |
| Variants.Tokens | transformer.py:154-176 | The token sequence is `(b, tokens, embed_dim)` for a three-dimensional input. |
| Variants.Classify | transformer.py:178-193 | The blocks, the norm, `x[:, 0]` and the head drop the token axis and end in `num_classes`. For tokens of rank three or more the batch dimension stays first. |
| Variants.Forward | transformer.py:190-193 | Every variant rejects inputs that are not three-dimensional, and a successful `model(x)` is `(b, num_classes)`. |

## Left out

- All tensor numerics (Linear weights, LayerNorm statistics, GELU, softmax, attention products, dropout, residual values). They are floating-point library calls; the model keeps only their shapes.
- `init_weights` and its copies: random in-place parameter initialisation.
- `Spatial_forward_features_mistake` and `forward_mistake` of the spatial-temporal model: dead code.
- `TemporalTransformer_4`: its forward pass calls `get_average_body_parts` with one argument and always raises TypeError.
- The numpy generator behind `np.random.seed` / `np.random.permutation` and the tie order of the unstable `np.argsort`. Both are parameters constrained to be permutations (and, for argsort, length-sorting), so bit-for-bit reproducibility is not modelled.
- load_trajectories_NTU.py is not part of this model. It is a filesystem, loading and pickling script with hard-coded paths.
- Debug output, and the torch `Dataset` base-class integration. The two prints in `TrajectoryDataset.__init__` write nothing in the model. The IndexError raised while evaluating the argument of `print(type(trajectory_ids[0]))` on an empty id array is modelled.
- `Trajectory.dimension` and the category-name tables are data only; nothing in the core branches on them.
- `\w`, `\d` and `int()` are modelled on ASCII letters, digits and underscore. Python's `str` patterns and `int()` also accept other Unicode letters and digits.
- TrainValSplit.TrainCut: `train_ratio` is an exact real, so the binary floating-point rounding of `k * train_ratio` before `round` is not modelled.
- Segments.SlidingWindows: `input_length` is a natural number. A negative length would make Python slice from the end, and that behaviour is not modelled. A trajectory's frame list and coordinate rows are assumed to have equal length (`Trajectory.Valid`).
- Segments.SegmentsWith: when `len(coordinates) < input_length`, `range(stop)` is empty (for `stop <= 0`) and `np.stack([])` raises. The model follows this code path.
- Variants.SpatialTemporalNeedsFrames: with no frames, the einops error kind is modelled as a split failure. The exact exception class einops raises is not distinguished.
- Variants.TemporalForward, Variants.Temporal2Forward, Variants.Temporal3Forward, Variants.SpatialTemporalForward, Variants.BodyPartForward: these are stated for a non-empty batch and at least one block (SpatialTemporalTransformer also for `num_joints > 0` and `embed_dim_ratio > 0`, BodyPartTransformer for `embed_dim_ratio > 0`). For an empty batch or zero depth, torch's behaviour on empty tensors is not modelled.
- Shapes.NewStack: `mlp_ratio` sets the Mlp's hidden width and decides whether it is negative, the one case where `nn.Linear` raises. The hidden width does not affect any output shape.
- BodyParts.XOfThreeChannels: the 25-joint branch's `::2` / `1::2` split assumes two channels. With three channels it reads z values as x, and the model keeps this as written.
