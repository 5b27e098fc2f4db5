# Vision targeting core: target selection, range estimation and cargo publishing

This project models, in Dafny, the per-frame logic of a robot's vision
coprocessor (the 2019 vision code of team LTC Nugget).

Hatch targets (`TargetRunnable`):
- Each contour is fitted to a rotated rectangle. The fitting itself is taken as given.
- The boxes are ranked by distance from the reference point (208, 120) with a stable sort.
- One loop picks a left box, the best match for -75.5°. In the same loop, through an `else if`, it picks a right box, the best match for -14.5°.
- The static fields `leftRect`/`rightRect` are set.
- The `contour_left`/`contour_right` entries of the `vision/targets` table are written as follows:
  - six zeros when there were no contours;
  - `[x, y, width, height, distance, angle]` per side when the two boxes are different and each is within 10° of its expected angle;
  - nothing when that gate fails.
- The range is the mean of two pinhole estimates, one from the box width and one from its height.

Cargo (`CargoRunnable`):
- The intended behaviour: every enclosing circle is published, in contour order and with no filtering.
- The output is three index-aligned arrays, `x`, `y` and `r`, in the `vision/cargo` table.
- As written, the code throws on every frame that has a contour, so only empty arrays ever reach the bus (see "## Findings"). The model describes the intended fill given the circles, and states the as-written behaviour beside it.

Files:
- `geometry.dfy`: points, bounding boxes, fitted rectangles and circles.
- `network_table.dfy`: the bus table as a map of entries.
- `target_math.dfy`: `diff`, `distance`, `distanceW`, `distanceH` and `distanceToCenter`.
- `proximity_sort.dfy`: the stable ranking.
- `target_selection.dfy`: `findTargets`, with its selection loop.
- `hatch_targets.dfy`: `run`, `resetTargetEntries` and `putTargets`, plus the frame outcome.
- `cargo_targets.dfy`: the cargo array fill and its publication.

Modelling choices:
- Numbers are `real`.
- Java object identity of the fitted rectangles is the field `RotatedRect.id`. This is the index of the contour the box was fitted from. `minAreaRect` returns a new object per contour, so Java's `!=` on two boxes of one frame is exactly value inequality in the model.
- The ranking key is the squared distance. The square root is increasing, so the order is the same.
- Java's `List.sort` is written as an insertion sort. `StableSortUnique` shows that a sorted list that keeps equal-distance boxes in input order is unique, so any stable sort gives the same list.

Two behaviours of the selection code that are easy to misread, both modelled as the code has them:
- The right box is not chosen independently over all boxes. Because of the `else if`, a box that improved the left choice when visited is never compared for the right. `ElseIfSkipsRightMatch` shows a frame where this loses an exact right match.
- A frame whose pair fails the gate writes nothing. It does not write the zero arrays, so the bus keeps the previous frame's values. A single contour is such a frame: both sides get the same box (`OneContourKeeps`).

## Model

| member | source | states |
|---|---|---|
| `TargetMath.Diff` | src/main/java/TargetRunnable.java:70-72 | the angle difference is never negative, and is zero exactly when the angles are equal or opposite |
| `TargetMath.DiffSymmetric` | src/main/java/TargetRunnable.java:70-72 | the angle difference does not depend on argument order |
| `TargetMath.DiffIgnoresSign` | src/main/java/TargetRunnable.java:70-72 | negating either angle does not change the difference |
| `TargetMath.DiffMirrorAngle` | src/main/java/TargetRunnable.java:70-72 | diff(-75.5, 75.5) is zero |
| `TargetMath.DistanceW` | src/main/java/TargetRunnable.java:58-62 | for a positive width, the estimate is positive, and estimate × width equals focal length × real width (393.903 · 3.313) |
| `TargetMath.DistanceH` | src/main/java/TargetRunnable.java:64-68 | for a positive height, the estimate is positive, and estimate × height equals 370.815 · 5.825 |
| `TargetMath.Distance` | src/main/java/TargetRunnable.java:54-56 | the range is positive and lies between the width and height estimates |
| `TargetMath.DistanceWDecreasing` | src/main/java/TargetRunnable.java:58-62 | the width estimate strictly decreases as the width grows |
| `TargetMath.DistanceHDecreasing` | src/main/java/TargetRunnable.java:64-68 | the height estimate strictly decreases as the height grows |
| `TargetMath.DistanceWInverse` | src/main/java/TargetRunnable.java:58-62 | the width a target at range d shows is estimated at exactly d |
| `TargetMath.DistanceHInverse` | src/main/java/TargetRunnable.java:64-68 | the height a target at range d shows is estimated at exactly d |
| `TargetMath.DistanceRoundTrip` | src/main/java/TargetRunnable.java:54-68 | w = 393.903·3.313/d and h = 370.815·5.825/d give a range of exactly d |
| `TargetMath.DistanceDecreasing` | src/main/java/TargetRunnable.java:54-56 | a box no smaller on either side, and larger on one, is estimated strictly nearer |
| `TargetMath.DistanceToCenter` | src/main/java/TargetRunnable.java:74-76 | the ranking key is never negative. It is the squared distance to (208,120): see the `Math.sqrt` line under "## Left out" |
| `ProximitySort.Key` | src/main/java/TargetRunnable.java:93 | the comparator's key, the centre's squared distance to the reference point, is never negative |
| `ProximitySort.Insert` | src/main/java/TargetRunnable.java:93 | inserting a box adds exactly that box to the multiset of boxes |
| `ProximitySort.InsertSorted` | src/main/java/TargetRunnable.java:93 | inserting into a nearest-first list keeps it nearest-first |
| `ProximitySort.SortByDistance` | src/main/java/TargetRunnable.java:93 | the sorted list is a permutation of the boxes, ordered by ascending distance to (208,120) |
| `ProximitySort.InsertAtKey` | src/main/java/TargetRunnable.java:93 | an inserted box comes first among the boxes at its own distance, and the boxes at every other distance keep their order |
| `ProximitySort.SortStable` | src/main/java/TargetRunnable.java:93 | stability: the boxes at any one distance keep their input order |
| `ProximitySort.StableSortUnique` | src/main/java/TargetRunnable.java:93 | two sorted lists that agree on the order at every distance are equal, so any stable sort gives the same result |
| `ProximitySort.SortOfSorted` | src/main/java/TargetRunnable.java:93 | sorting a list that is already sorted returns it unchanged |
| `ProximitySort.SortIdempotent` | src/main/java/TargetRunnable.java:93 | sorting twice is the same as sorting once |
| `ProximitySort.InsertDistinct` | src/main/java/TargetRunnable.java:93 | inserting a new box into a list of distinct boxes keeps them distinct |
| `ProximitySort.SortDistinct` | src/main/java/TargetRunnable.java:93 | sorting distinct boxes keeps them distinct |
| `TargetSelection.Boxes` | src/main/java/TargetRunnable.java:86-91 | one box per contour, in contour order, box i made from contour i |
| `TargetSelection.BoxesDistinct` | src/main/java/TargetRunnable.java:86-91 | the boxes of different contours are different objects |
| `TargetSelection.Choose` | src/main/java/TargetRunnable.java:95-102 | `iLeft` and `iRight` always index the list |
| `TargetSelection.ChooseLeft` | src/main/java/TargetRunnable.java:95-98 | `iLeft` is the first index minimising diff(angle, -75.5) over all boxes visited |
| `TargetSelection.ChooseRight` | src/main/java/TargetRunnable.java:95-102 | `iRight` never strictly improved the left choice when visited. Among such indices, including 0, it is the first that minimises diff(angle, -14.5) |
| `TargetSelection.LeftImproves` | src/main/java/TargetRunnable.java:96-98 | `iLeft` is 0 or an index that took the left branch |
| `TargetSelection.SameChoiceOnlyAtStart` | src/main/java/TargetRunnable.java:95-102 | `iLeft == iRight` only when both stayed at 0 |
| `TargetSelection.LeftTieGoesToNearest` | src/main/java/TargetRunnable.java:93-98 | on the ranked list, a tie on the left angle goes to the box nearest (208,120) |
| `TargetSelection.SelectedTargets` | src/main/java/TargetRunnable.java:84-105 | no contours give an empty result; otherwise exactly two boxes, both from the fitted list |
| `TargetSelection.SameTargetIffFirstTwice` | src/main/java/TargetRunnable.java:95-104 | the two returned boxes are the same object if and only if `iLeft` and `iRight` both stayed 0 |
| `TargetSelection.OneContourTwice` | src/main/java/TargetRunnable.java:85-104 | with one contour, both results are that contour's box |
| `TargetSelection.LeftTargetBest` | src/main/java/TargetRunnable.java:95-104 | the left result matches -75.5 at least as well as every fitted box |
| `TargetSelection.FitBoxes` | src/main/java/TargetRunnable.java:86-91 | the fitting loop yields exactly one box per contour, in contour order |
| `TargetSelection.SelectIndices` | src/main/java/TargetRunnable.java:95-102 | the selection loop ends with `iLeft`/`iRight` equal to `Choose` over all ranked boxes, so `ChooseLeft` and `ChooseRight` describe them |
| `TargetSelection.FindTargets` | src/main/java/TargetRunnable.java:84-105 | the fit loop, the sort and the selection loop return exactly `SelectedTargets` |
| `HatchTargets.TargetEntry` | src/main/java/TargetRunnable.java:107-116 | the published array is `[x, y, width, height, distance(width, height), angle]` of the target's upright box and fitted angle. Width and height are at least 1 and the range is positive, so it is never the zero array |
| `HatchTargets.Gate` | src/main/java/TargetRunnable.java:37 | a passing pair is two different objects. The left box is more than 51° off the right angle and the right box more than 51° off the left angle, so the two windows never overlap |
| `HatchTargets.FrameOutcome` | src/main/java/TargetRunnable.java:31-43 | a reset happens exactly when there are no contours. Otherwise the frame publishes exactly when the selected indices are not both 0 and each box is within 10 of its angle. A publication holds the `TargetEntry` arrays of the boxes at `iLeft` and `iRight`; every other frame is `Keep` |
| `HatchTargets.NoContoursWritesZeros` | src/main/java/TargetRunnable.java:78-82 | with no contours, both entries hold exactly six zeros |
| `HatchTargets.OneContourKeeps` | src/main/java/TargetRunnable.java:34-39 | a single contour neither publishes nor resets |
| `HatchTargets.PublishedPairDistinct` | src/main/java/TargetRunnable.java:37 | a published pair never has both indices at 0 |
| `HatchTargets.SortTwo` | src/main/java/TargetRunnable.java:93 | ranking two boxes gives one of the two orders, nearer first and ties in input order |
| `HatchTargets.ExactAnglesPublish` | src/main/java/TargetRunnable.java:31-43 | boxes at exactly -75.5° and -14.5° are published as left and right, in either distance order |
| `HatchTargets.EqualAnglesKeep` | src/main/java/TargetRunnable.java:37 | two boxes both at -75.5° fail the identity check, and nothing is written |
| `HatchTargets.ElseIfSkipsRightMatch` | src/main/java/TargetRunnable.java:96-102 | a box that matches the right angle exactly is skipped for the right when it improved the left |
| `HatchTargets.TargetRunnable.ResetTargetEntries` | src/main/java/TargetRunnable.java:78-82 | both entries become six zeros and the others are unchanged |
| `HatchTargets.TargetRunnable.PutTargets` | src/main/java/TargetRunnable.java:107-116 | `contour_left` and `contour_right` become the targets' 6-element arrays |
| `HatchTargets.TargetRunnable.Run` | src/main/java/TargetRunnable.java:31-43 | the entries are reset, published or left exactly as they were, as `FrameOutcome` says. `leftRect`/`rightRect` become the two results whenever there are contours |
| `NetworkTables.NetworkTable.SetDoubleArray` | src/main/java/TargetRunnable.java:80 | writing an entry replaces that entry only |
| `CargoTargets.ZipOfUnzipped` | src/main/java/CargoRunnable.java:37-41 | the three arrays have the circles' count, and zipping them back gives every circle in order |
| `CargoTargets.UnzippedOfZip` | src/main/java/CargoRunnable.java:37-41 | unzipping zipped arrays gives the arrays back |
| `CargoTargets.ThreeCirclesInOrder` | src/main/java/CargoRunnable.java:33-44 | circles at (10,10), (50,50) and (90,90) with radii 2, 4 and 6 give x=[10,50,90], y=[10,50,90] and r=[2,4,6] |
| `CargoTargets.RunAsWritten` | src/main/java/CargoRunnable.java:21-45 | as written, a frame that reaches the bus publishes exactly the intended arrays; any other frame throws |
| `CargoTargets.AsWrittenThrowsOnAnyCircle` | src/main/java/CargoRunnable.java:25-29 | as written, the bus is written if and only if there are no circles. For every frame with a circle, the intended arrays are never published |
| `CargoTargets.Unzip` | src/main/java/CargoRunnable.java:33-41 | each array is as long as the circle list, and element i is circle i's centre x, centre y and radius |
| `CargoTargets.CargoRunnable.Run` | src/main/java/CargoRunnable.java:33-44 | the intended behaviour: given the circles, `x`, `y` and `r` are overwritten on every call with the circles' fields in order, and are empty when there are no circles |

## Left out

- src/main/java/Main.java is not part of this model. It covers configuration parsing, camera start-up, the bus server and client, the shared frame buffer, the worker loop and the sleep loop. All of this is I/O, foreign libraries or concurrency.
- Contour extraction (`pipeline.process`, `filterContoursOutput`) is an input: the model starts from the fitted shapes of the contours.
- The OpenCV geometry is an input and is not computed:
  - `Imgproc.minAreaRect` gives the centre and angle.
  - `RotatedRect.boundingRect` gives the upright box. Its width and height are taken as at least 1, as OpenCV rounds outwards and adds one.
  - `Imgproc.minEnclosingCircle` gives the centre and radius.
- The zero-length `radius` array in `CargoRunnable` (src/main/java/CargoRunnable.java:25) makes `radius[0]` at line 29 throw `ArrayIndexOutOfBoundsException` whatever `minEnclosingCircle` does. The exception escapes `run`, and the worker loop in src/main/java/Main.java:197-201 does not catch it, so it ends the vision thread. `RunAsWritten` records this. The rest of the model describes the intended fill, with each circle's radius given.
- `parallelStream` is modelled as a sequential map that preserves order, which is what `collect` gives for an ordered stream.
- `drawMinAreaRect` only draws on an image.
- Floating point is not modelled. `double` and `float` rounding, NaN in the comparator, and the `float`-to-`double` widening of the radius are replaced by exact reals.
- `Math.sqrt` in `distanceToCenter` is replaced by the squared distance, which gives the same order.
- TargetMath.DistanceW: division by a zero width is excluded by its precondition, not modelled as Java's infinity. On the path from `run` the width is a bounding-box width, so it is at least 1.
- TargetMath.DistanceH: division by a zero height is excluded the same way.

## Findings

| source | as written | input that shows it | evidently intended | confidence | as-written member | corrected member |
|---|---|---|---|---|---|---|
| src/main/java/CargoRunnable.java:25-29 | the radius buffer is `new float[]{}`, length 0, and line 29 reads `radius[0]`, so every contour throws before the bus write at lines 42-44 | a frame with one contour: `circles` would have length 1, and `radius[0]` is out of bounds | a one-slot buffer (`new float[1]`), so each circle's radius is read and `x`, `y` and `r` hold every circle in order | high (not executed) | `CargoTargets.AsWrittenThrowsOnAnyCircle` | `CargoTargets.CargoRunnable.Run` |
