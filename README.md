# SpeakerID matching core in Dafny

This project models the speaker-identification core of the SpeakerID
recorder, which has three parts.

- **The alignment engine (`DTW`, dtw.cs).** `EuclideanDistance` compares
  two MFCC frames over their 13 coefficients. Both `ComputeDTW` overloads
  fill a dynamic-time-warping table with two rolling rows `prev`/`curr`.
  Each cell adds the frame cost to the cheapest of the previous row at
  `j`, `j - 1` and `j - 2`. The unbanded overload fills every column. The
  banded overload fills only the columns
  `max(1, i - W'/2) .. min(M, i + W'/2)`, where `W' = max(W, 2|N - M|)`
  and `W = -1` means no band. Both round the last cell to one decimal.
- **The template repository (`DBHandler`, DBHandler.cs).** The SQL is
  modelled as its state: a `user` set of names and an ordered `audio_file`
  list of (user name, feature sequence) rows. The operations are create,
  reset, single insert, bulk insert from a bag, fetch-all, and the
  per-user row count.
- **The nearest-neighbour matcher (GUI/MainForm.cs).** Users' recordings
  are flattened into labelled samples and their features extracted. Each
  test sample is scanned against every stored template. The owner of the
  first strictly smallest distance is the prediction (null if none);
  `Identify` reports it for one query ("" if none).

## Files

- `types.dfy` (module `Types`): frames, sequences, entries and errors.
  - These nullable references are `Option`: the query or template `Sequence`
    and its `Frames` array, the user name and features passed to an insert,
    and the name and sequence of a bag item. The bag itself is a nullable
    `Bag?`.
  - The exceptions the source throws are `Failure` values.
- `costs.dfy` (module `Costs`): costs and rounding.
  - Costs are `Fin(real) | Inf`, with IEEE `+`, `Math.Min` and `<` on them.
  - `Math.Round(_, 1)` rounds half to even at one decimal.
- `dtw.dfy` (module `Dtw`): the specification functions and the methods.
  - The functions are the seed row and the table cell `Cell(i, j)` for a
    widened width, where width -1 computes every column. The unbanded and
    banded results are read from the last cell.
  - The methods are the imperative buffer loops of both overloads. Each is
    proved to return what its specification function returns.
- `dtw_properties.dfy` (module `DtwProperties`): lemmas about the tables and
  the two overloads.
- `repository.dfy` (module `Repository`): the `ConcurrentBag` as class `Bag`
  and the two tables as class `TemplateStore`.
- `matcher.dfy` (module `Matcher`): flattening and extraction, the
  first-minimum scan, batch comparison and identification.

## Behaviour of the code worth knowing

- **Band width (dtw.cs:83-84, 101-102).** Any width other than -1, negative
  widths included, is first raised to `W' = max(W, 2|N - M|)`. Row `i` then
  computes the columns `max(1, i - W'/2) .. min(M, i + W'/2)`
  (`DtwProperties.NarrowBandWidened`).
- **Rounding (dtw.cs:70, 124).** Both overloads return `Math.Round(cost, 1)`
  of the last cell.
- **Seed row (dtw.cs:44-47, 94-97).** `prev` starts as
  `[0, cost(1,1), +inf, …]`, and the loop computes row 1 from it. So when
  row 1's band reaches column 3 (always for the unbanded overload with
  `M >= 3`), row 1 is `[+inf, c11, c12, c13 + c11, +inf, …]`
  (`DtwProperties.FirstRowAsWritten`). A narrower band leaves its columns
  beyond `jEnd` at +inf.
- **Empty repository in `Identify` (GUI/MainForm.cs:506-530).** On an empty
  repository `Identify` reports the empty name
  (`Matcher.IdentifyEmptyRepository`).

## Model

| member | source | states |
|---|---|---|
| Costs.Add | dtw.cs:62 | The sum of two costs is finite exactly when both are, and is then their real sum (+infinity absorbs) |
| Costs.Min | dtw.cs:58 | `Math.Min` is at most each argument and is one of them |
| Costs.RoundHalfEven | dtw.cs:70 | The chosen integer is within 0.5 of the argument |
| Costs.Round | dtw.cs:124 | `Math.Round(c, 1)` keeps +infinity and moves a finite value by at most 0.05 |
| Costs.RoundMonotone | dtw.cs:124 | Rounding never reverses the order of two costs |
| Costs.RoundZeroAndNonNegative | dtw.cs:70 | Rounding maps 0 to 0 and keeps non-negative costs non-negative |
| Dtw.SumSquares | dtw.cs:17-22 | The accumulated sum of squared differences is never negative |
| Dtw.Seed | dtw.cs:44-47 | The seed row is finite exactly at columns 0 and 1, and is 0 at column 0 |
| Dtw.BandStart | dtw.cs:101 | `jStart` is 1 without a band (`W == -1`). With a band it is at least 1 and at least `i - W'/2`, and one of the two, so their larger |
| Dtw.BandEnd | dtw.cs:102 | `jEnd` is `M` without a band (`W == -1`). With a band it is at most `M` and at most `i + W'/2`, and one of the two, so their smaller |
| Dtw.Cell | dtw.cs:99-117 | Defines cell `(i, j)`: the seed row for `i = 0`; later, frame cost plus `minTrans` inside `[jStart, jEnd]` and +infinity outside. Its properties are the `DtwProperties` lemmas below |
| Dtw.MinTransition | dtw.cs:56-60 | Defines `minTrans` of cell `(i, j)` from row `i - 1`; its bounds are `Dtw.MinTransitionIsCheapest` |
| Dtw.Unbanded | dtw.cs:26-72 | `ComputeDTW(input, template)` throws `ArgumentException` exactly when a sequence is null, has null frames or has no frames; otherwise it is the rounded last cell of the full table |
| Dtw.Banded | dtw.cs:74-125 | `ComputeDTW(input, template, W)` throws `ArgumentException` exactly when a sequence is null, has null frames or has no frames; otherwise it is the rounded last cell of the table for the widened width |
| Dtw.EuclideanDistance | dtw.cs:15-24 | The accumulating loop returns the square root of the sum of squared differences over coefficients 0..12 |
| Dtw.MinTransitionIsCheapest | dtw.cs:56-60 | `minTrans` is at most the previous row at `j`, `j-1` and (from `j = 2`) `j-2`, and is one of them |
| Dtw.EffectiveWidth | dtw.cs:83-84 | -1 stays -1. Any other width becomes at least itself, at least 0 and at least `2\|N - M\|`. A width already that wide is unchanged |
| Dtw.NewBuffers | dtw.cs:36-47 | Two distinct fresh buffers of length `M + 1`; `prev` holds the seed row `[0, cost(1,1), +inf, …]` and `curr` is +infinity throughout |
| Dtw.ResetRow | dtw.cs:104 | Every cell of the row buffer is +infinity afterwards |
| Dtw.FillRow | dtw.cs:106-117 | Given `prev` holding row `i - 1`, the reset buffer `curr` ends up holding row `i`. Each cell `jStart..jEnd` is its frame cost plus `minTrans`; every other cell stays +infinity |
| Dtw.ComputeDtw | dtw.cs:26-72 | The rolling two-row loop returns `ArgumentException` for a null, frame-less or empty sequence. Otherwise it returns the rounded cell `(N, M)` of the full table. Every buffer index is in bounds |
| Dtw.ComputeDtwBanded | dtw.cs:74-125 | Same as `ComputeDtw`, but only the band columns of each row are filled. The result is the rounded cell `(N, M)` of the banded table for the widened width |
| DtwProperties.SumSquaresOfEqual | dtw.cs:17-22 | A coefficient vector has no squared difference from itself |
| DtwProperties.FrameDistanceNonNegative | dtw.cs:15-24 | For a square root that is non-negative on non-negative numbers, the frame distance is never negative |
| DtwProperties.IdenticalFramesAtZeroDistance | dtw.cs:15-24 | Frames with the same 13 coefficients are at distance 0 |
| DtwProperties.FrameDistanceReadsFirst13 | dtw.cs:18-20 | The distance reads coefficients 0..12 only; later coefficients never change it |
| DtwProperties.FirstRowAsWritten | dtw.cs:44-63 | When the band of row 1 reaches column 3, row 1 is `[+inf, c11, c12, c13 + c11, +inf, …]` |
| DtwProperties.OutsideBandUnreachable | dtw.cs:101-106 | From row 1 on, column 0 and every column outside `[jStart, jEnd]` is +infinity |
| DtwProperties.CellNonNegative | dtw.cs:53-63 | Every cell of the table is +infinity or a non-negative cost |
| DtwProperties.CellAboveUnbanded | dtw.cs:101-116 | Pruning never lowers a cell: each banded cell is at least the unbanded one |
| DtwProperties.DiagonalInBand | dtw.cs:101-102 | The diagonal column `i` lies in the band of row `i` for every width -1 or non-negative |
| DtwProperties.DiagonalIsZero | dtw.cs:44-62 | Aligning a sequence with itself gives 0 in every diagonal cell, with or without a band |
| DtwProperties.WideBandCell | dtw.cs:101-102 | A band that covers every column prunes nothing: every cell equals the unbanded one |
| DtwProperties.MinTransitionFinite | dtw.cs:56-60 | `minTrans` is finite exactly when one of the predecessors it reads is finite |
| DtwProperties.PredecessorInReach | dtw.cs:106-114 | A reachable cell of row `i` has a reachable predecessor in row `i - 1` at most two columns to its left |
| DtwProperties.ReachStep | dtw.cs:106-114 | A band cell of row `i >= 2` lies in columns `1..2i+1` exactly when one of its three predecessors is reachable in row `i - 1` |
| DtwProperties.FirstRowFinite | dtw.cs:44-63 | In row 1 a band cell is finite exactly when it is one of columns 1..3 |
| DtwProperties.FiniteCell | dtw.cs:99-122 | A cell of row `i >= 1` is finite exactly when it lies inside the band and in columns `1..2i+1` |
| DtwProperties.SentinelBandIsUnbanded | dtw.cs:83-102 | `ComputeDTW(a, b, -1)` returns exactly what `ComputeDTW(a, b)` returns |
| DtwProperties.BandedNotBelowUnbanded | dtw.cs:101-116 | The banded distance is never below the unbanded distance, after rounding too |
| DtwProperties.WideBandIsUnbanded | dtw.cs:101-102 | If `W/2` is at least `N - 1` and at least `M - 1`, the banded distance equals the unbanded one |
| DtwProperties.NarrowBandWidened | dtw.cs:83-84 | A width other than -1 that is below `2\|N - M\|` gives the same result as the width `2\|N - M\|`; negative widths are widened, not rejected |
| DtwProperties.SelfDistanceIsZero | dtw.cs:44-62 | A sequence is at distance 0 from itself with either overload and any width |
| DtwProperties.DistanceNonNegative | dtw.cs:53-70 | Both overloads return +infinity or a non-negative distance |
| DtwProperties.WideningKeepsEndReachable | dtw.cs:83-84 | Both overloads return a finite distance exactly when `M <= 2N + 1`; the widening never cuts the last cell off |
| Repository.SkipStep | DBHandler.cs:72-73 | Taking an item with a null or empty name or a null sequence adds no row, and the rows still match the storable items taken so far |
| Repository.KeepStep | DBHandler.cs:75-88 | Taking a storable item adds exactly its row, keeping the rows in step with the storable items taken so far |
| Repository.NameSetConcat | DBHandler.cs:78-88 | The names of two row lists together are the union of their names |
| Repository.CountStep | DBHandler.cs:163-169 | Starting a new name at 0 and then incrementing it counts one more name correctly |
| Repository.OwnersAndNames | DBHandler.cs:163-169 | A name owns some row exactly when it occurs in the owner column |
| Repository.TotalRemove | DBHandler.cs:163-169 | The sum of a frequency map's counts is independent of the key taken first |
| Repository.WithoutCounts | DBHandler.cs:163-169 | Removing one name from a list removes exactly its occurrences and leaves the other names' counts unchanged |
| Repository.CountsSumToLength | DBHandler.cs:163-169 | A map counting every name of a list has counts that add up to the list's length |
| Repository.Bag.constructor | DBHandler.cs:57 | A bag holds exactly the given items |
| Repository.Bag.TryTake | DBHandler.cs:67 | `TryTake` succeeds exactly when the bag is non-empty and then removes one item it held, in an unspecified order |
| Repository.TemplateStore.Valid | DBHandler.cs:20-25 | The foreign key: every row's owner is a stored user. No stored user name is empty, since both inserts reject an empty name |
| Repository.TemplateStore.constructor | DBHandler.cs:27-35 | `CreateTables` on a new database: both tables empty, and the foreign-key invariant holds |
| Repository.TemplateStore.ResetTables | DBHandler.cs:37-55 | Both tables are empty afterwards |
| Repository.TemplateStore.InsertUserAndAudio | DBHandler.cs:97-125 | A null or empty name, or null features, throws `ArgumentException` and changes nothing. Otherwise the name is added to the user set (set union, so idempotent) and exactly one row is appended; the earlier rows are unchanged and the foreign key still holds |
| Repository.TemplateStore.InsertBulkUserAndAudio | DBHandler.cs:57-94 | A null or empty bag throws `ArgumentException` and changes nothing. Otherwise the bag is drained and the old rows stay as a prefix. Each storable row is appended as often as its item was in the bag, invalid items are skipped, and the user set grows by exactly the appended names |
| Repository.TemplateStore.GetAllAudioFiles | DBHandler.cs:127-152 | One (name, sequence) pair per stored row, in table order |
| Repository.TemplateStore.UserSequenceCounts | DBHandler.cs:154-169 | Exactly the stored names are counted, and each is a stored user. Each count is that name's number of rows and at least 1, and the counts add up to the number of rows |
| Matcher.Flatten | GUI/MainForm.cs:476-480 | The `SelectMany` has one pair per sample: its length is the sum of the users' sample counts |
| Matcher.FlattenAt | GUI/MainForm.cs:476-480 | Sample `t` of user `u` is at position (samples of users before `u`) + `t`, labelled with `u`'s name; user order, then sample order |
| Matcher.FlattenLabels | GUI/MainForm.cs:476-480 | Every pair carries the name of a user that holds its sample |
| Matcher.Extracted | GUI/MainForm.cs:482 | The extracted list has one entry per sample of every user |
| Matcher.ExtractedAt | GUI/MainForm.cs:498 | Slot (samples before `u`) + `t` holds the features of user `u`'s sample `t`, under `u`'s name |
| Matcher.ExtractedOwners | GUI/MainForm.cs:468-472 | Every extracted entry is the features of a sample recorded by a user, under that user's name |
| Matcher.FlattenDataAndExtractFeatures | GUI/MainForm.cs:474-501 | The array-filling loop returns one labelled feature sequence per sample, in flattened order |
| Matcher.FirstMin | GUI/MainForm.cs:449-460 | A chosen index is in range and its distance is finite |
| Matcher.FirstMinIsFirstMinimum | GUI/MainForm.cs:452-460 | Nothing is chosen exactly when every distance is +infinity. A chosen distance is no larger than any other and strictly smaller than every earlier one, so a later equal distance never wins |
| Matcher.Prediction | GUI/MainForm.cs:446-462 | Defines the scan's outcome: `ArgumentException` if any distance throws, otherwise the owner at `FirstMin` of the distances, or null. Its properties are `Matcher.ScanFails`, `Matcher.FirstMinIsFirstMinimum` and `Matcher.ZeroWins` |
| Matcher.ScanFails | GUI/MainForm.cs:454 | A distance that throws makes the whole scan throw `ArgumentException` |
| Matcher.NearestOwner | GUI/MainForm.cs:446-462 | One query's scan over the training data yields the owner of the first smallest distance, or null, or the overload's `ArgumentException` |
| Matcher.PredictAll | GUI/MainForm.cs:441-465 | Slot `i` of the result holds test sample `i`'s prediction, and there is one slot per test sample |
| Matcher.Batch | GUI/MainForm.cs:441-465 | Fails with `ArgumentException` exactly when the prediction for some test sample fails. Otherwise slot `i` is test sample `i`'s prediction against the training data, one slot per test sample |
| Matcher.CompareTrainingWithTesting | GUI/MainForm.cs:432-466 | Empty training data throws. Otherwise there is one prediction per flattened test sample, the prediction for that sample against every stored row |
| Matcher.Identify | GUI/MainForm.cs:504-533 | Uses the unbanded overload for `w == -1` and the banded one otherwise. Reports the owner of the first smallest distance, or "" if no distance is finite |
| Matcher.Identified | GUI/MainForm.cs:507-530 | A found owner is reported as that name and the scan's null owner as ""; a non-empty report is the owner the scan found; a failure stays the same failure |
| Matcher.IdentifyAgreesWithBatch | GUI/MainForm.cs:516-519 | `Identify` computes the batch scan's distances for the same `w`, so it reports the batch prediction ("" for null) |
| Matcher.ZeroWins | GUI/MainForm.cs:455-459 | Over non-negative distances, a zero at `k` makes the scan choose the first zero, at or before `k` |
| Matcher.ExactTemplateWins | GUI/MainForm.cs:452-460 | A stored template identical to the query wins, unless an earlier template is also at distance 0, in which case that one wins |
| Matcher.IdentifyReportsExactTemplate | GUI/MainForm.cs:512-529 | When a stored template equals the query, `Identify` reports the owner of that template or of an earlier template also at distance 0 |
| Matcher.IdentifyEmptyRepository | GUI/MainForm.cs:506-507 | On an empty repository `Identify` reports "" whatever the query |

## Left out

- SQLite, Dapper, `VACUUM` and the JSON/UTF-8 blob encoding are not modelled. A sequence is stored and read back as the value it is, and the console output of `ResetTables` and `PrintUserSequenceCounts` is omitted. Of the transactions, only the bulk insert's is reflected: its rows are collected and appended when the loop ends, where the source commits.
- `Math.Sqrt` is a library call. It is the parameter `sqrt`. The lemmas that need its properties require `Dtw.IsSquareRoot`: it maps 0 to 0 and non-negative values to non-negative values.
- Floating point is not modelled: costs are exact reals. Rounding is modelled on reals, and NaN is not modelled.
- The `double.MaxValue` start of the scans is not modelled as a number: it is +infinity with a strict `<`. So a finite distance always beats it and +infinity never does.
- `AudioOperations.ExtractFeatures` and everything behind it (decoders, the MATLAB extractor) is code this model cannot see. It is the uninterpreted parameter `extract`.
- A null `MFCCFrame` inside `Frames`, or a frame with a null `Features` array, is not modelled: a `Frame` is always a coefficient vector. The source throws `NullReferenceException` for it at dtw.cs:20.
- A null `data` list, a null `UserTemplates` list or a null `UserName` in `FlattenDataAndExtractFeatures` (GUI/MainForm.cs:476-480) is not modelled: a user always has a name and a list of samples. For the first two the source throws `ArgumentNullException` from `SelectMany` or `Select`.
- `Parallel.For` in `CompareTrainingWithTesting` is a sequential loop. Each iteration writes only its own slot and reads the training data only, so the order does not change the array.
- An exception thrown inside `Parallel.For` reaches the caller wrapped in an `AggregateException`. The model returns the inner `ArgumentException`.
- `CreateTables` appears only as the constructor of an empty store. `CREATE TABLE IF NOT EXISTS` on an existing database is not modelled.
- The caller at GUI/MainForm.cs:409 passes an array where `InsertBulkUserAndAudio` takes a `ConcurrentBag`. The bulk insert is modelled on its own signature.
- The `SELECT` order of `audio_file` is taken to be insertion order.
- The GUI is not part of this model: recording, playback, dialogs, message boxes, the accuracy computation and its display. Form1.cs and TimeHelper.cs are not part of this model either.
- `Identify` calls `PrintUserSequenceCounts`, which only prints. The model does not repeat the call; the count itself is `Repository.TemplateStore.UserSequenceCounts`.
- Dtw.EuclideanDistance: frames are required to have at least 13 coefficients. The source reads indices 0..12 and would throw `IndexOutOfRangeException` on a shorter frame.
- Dtw.ComputeDtwBanded: requires both sequences to be shorter than 32767 frames. At that length its `short` counters (dtw.cs:88, 99, 104, 106) wrap to negative values and the overload throws `IndexOutOfRangeException`; the wrap-around is not modelled.
- Matcher.NearestOwner: inherits the 32767-frame requirement of the banded overload.
- Matcher.PredictAll: inherits the 32767-frame requirement of the banded overload.
- Matcher.CompareTrainingWithTesting: inherits the 32767-frame requirement of the banded overload.
- Matcher.Identify: inherits the 32767-frame requirement when `w != -1`.
