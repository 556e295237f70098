# ptcam pan/tilt camera core in Dafny

This project models the logic of `ptcam`, a pan/tilt camera that tracks red balls. The model covers:

- **Ball tracking** (`BallTracker` in `camera.py`, module `Centroids`). It keeps a registry of centroids under integer ids. On each update it:
  - matches tracked objects to new centroids greedily, nearest first;
  - ages the objects left unmatched and evicts those missed more than `max_disappeared` times in a row;
  - registers every unmatched centroid under a fresh id.
- **The tracking pipeline**:
  - `Tracker` (module `Tracking`): seeding the multi-tracker from detected circles;
  - `TrackerProcessor` (module `TrackerProcessing`): the per-frame choice between trusting the tracker and re-detecting;
  - `DistanceCalculator` (module `Distance`): the pinhole distance estimate;
  - `FrameReader` (module `Frames`): the frame-skipping counter and the consumer callback.
- **The configuration store** (`Config`, module `Configuration`): dotted-path `get`/`set` over nested dictionaries, and `load` merging a document over the defaults, or raising when `dict.update` rejects the document: an empty file, a number, a boolean, a non-empty string, or a list element that is not a key/value pair.
- **The servo helpers**:
  - `ServoController` (module `ServoControl`);
  - the `servo.py` script (module `ServoScript`);
  - the `tiltservo.py` script (module `TiltServo`).

  Shared parts:
  - the angle-file format (module `AngleFile`), with `name=angle` lines read into a `dict` and written back;
  - Python's `range`, `int()` and the clamp and duty arithmetic (module `Motion`);
  - `str.strip` and `str.split` (module `Strings`).

Stateful source objects are classes whose methods update their fields. Each method is specified by a function of the old state, and the properties are proved about those functions:

- `BallTracker`, `Config`, `FrameReader`, `Tracker` and `TrackerProcessor`;
- `ServoController`;
- the angle file, a `TextFile` object whose contents are `None` while the file does not exist.

Modelling choices:

- **Floats are exact reals.** Python's `int()` of a float truncates toward zero (`Motion.Trunc`).
- **External calls become parameters.** The model does not run OpenCV, numpy's `argsort`, the YAML parser, GPIO, `time.sleep` or threads; their results are parameters of the operations that use them.
- **Set iteration order is a parameter.** `BallTracker.update` registers the unused inputs by looping over a Python set, whose order CPython takes from the set's hash table. The model accepts any order that visits every member once (`Centroids.Enumerates`).
- **`float(text)` and `str(angle)` are parameters** named `parse` and `show`.

## Model

| member | source | states |
|---|---|---|
| Strings.LStrip | src/ptcam/servo/servo_controller.py:34 | the result is the suffix of the input that starts at the first non-white-space character |
| Strings.RStrip | src/ptcam/servo/servo_controller.py:34 | the result is the prefix of the input that ends at the last non-white-space character |
| Strings.Strip | src/ptcam/servo/servo_controller.py:34 | the result is a substring of the input with no white space at either end, and everything cut off on either side is white space |
| Strings.StripClean | src/ptcam/servo/tiltservo.py:38 | stripping a text with no surrounding white space gives the text back |
| Strings.Split | src/ptcam/config/config.py:35 | splitting gives at least one piece, and no piece contains the separator |
| Strings.JoinSplit | src/ptcam/config/config.py:35 | joining the pieces of a split with the separator gives back the original string |
| Strings.SplitJoin | src/ptcam/config/config.py:35 | splitting pieces that were joined gives back the pieces, when no piece contains the separator |
| Strings.SplitNoSeparator | src/ptcam/config/config.py:35 | a string without the separator splits into itself alone |
| Strings.SplitAfterPiece | src/ptcam/config/config.py:35 | a separator-free piece followed by the separator becomes its own first piece of the split |
| Distance.CalculateDistance | src/ptcam/tracker/distance_calculator.py:7-23 | `None` for a non-positive side; otherwise present exactly when the apparent diameter is positive; when present, the distance times the apparent diameter equals the real diameter times the focal length |
| Distance.PositiveInputsGivePositiveDistance | src/ptcam/tracker/distance_calculator.py:7-23 | positive calibration and a positive box give a present, positive distance |
| Distance.ScalingBoxDividesDistance | src/ptcam/tracker/distance_calculator.py:16-23 | scaling both box sides by k > 0 divides the distance by k |
| Distance.DoublingBoxHalvesDistance | src/ptcam/tracker/distance_calculator.py:16-23 | doubling both box sides halves the distance |
| Distance.Operand | src/ptcam/tracker/distance_calculator.py:12-13 | `config.get(key)` as an arithmetic operand succeeds exactly for a number or a boolean; a missing key (`None`) or any other value raises `TypeError` |
| Distance.DivideBy | src/ptcam/tracker/distance_calculator.py:12-13 | the operand's `TypeError` comes first; otherwise the division raises `ZeroDivisionError` exactly when the divisor is zero, and the quotient times the divisor is the operand |
| Distance.CalculateFromConfig | src/ptcam/tracker/distance_calculator.py:7-23 | `None` for a non-positive side before anything is read; a missing or non-numeric sensor width raises that `TypeError`; a configured width over a zero frame width raises `ZeroDivisionError`; a success on a positive box implies non-zero frame sides |
| Distance.ConfiguredCalibrationAgrees | src/ptcam/tracker/distance_calculator.py:7-23 | with all four calibration values configured as numbers and non-zero frame sides, the reads raise nothing and the result is `CalculateDistance` of those values |
| Distance.DefaultConfigRaises | src/ptcam/tracker/distance_calculator.py:12 | `DEFAULT_CONFIG` holds no calibration value, so every box with positive sides raises `TypeError` under the default configuration |
| Distance.ZeroFrameRaises | src/ptcam/tracker/distance_calculator.py:12-13 | with the sensor values configured, a zero frame side raises `ZeroDivisionError` |
| Configuration.DefaultConfig | src/ptcam/config/config.py:4-16 | `DEFAULT_CONFIG`: exactly the keys `rtsp_url`, `screenshot_dir`, `skip_frames` and `hough_params`, the last a nested dictionary of the six Hough parameters |
| Configuration.Lookup | src/ptcam/config/config.py:36-41 | the walk of `get` along a path: the empty path gives the value itself, and a value is found past a segment only when the value in hand is a dictionary holding that segment; `Config.Get` and `LookupAfterStore` state the rest |
| Configuration.PathOf | src/ptcam/config/config.py:35 | a dotted key has at least one segment, and no segment contains a dot |
| Configuration.Store | src/ptcam/config/config.py:43-50 | storing at a path adds only the first segment to the top-level keys and leaves every other top-level entry unchanged |
| Configuration.LookupAfterStore | src/ptcam/config/config.py:34-50 | after `set(key, v)`, `get(key)` gives `v` |
| Configuration.StoreLeavesOtherPaths | src/ptcam/config/config.py:43-50 | a `set` leaves unchanged every value read through a path that parts from the stored one |
| Configuration.StoreIdempotent | src/ptcam/config/config.py:43-50 | setting the same value at the same path twice is the same as setting it once |
| Configuration.UpdateFromPairs | src/ptcam/config/config.py:28 | `dict.update` with a list keeps every existing key, and raises exactly when some element is not a key/value pair |
| Configuration.LastPairWins | src/ptcam/config/config.py:28 | loading a list of pairs raises nothing; a key no pair names keeps its value, and a key named several times gets the last pair's value |
| Configuration.UpdateAddsOnlyNamedKeys | src/ptcam/config/config.py:28 | loading a sequence, whether or not it raises, leaves no key beyond the old keys and those its pairs name |
| Configuration.Merge | src/ptcam/config/config.py:25-28 | with no file the data is unchanged; a mapping's top-level keys win and every other key keeps its value; an empty file, a number or a boolean raises `TypeError` and changes nothing; a string changes nothing and raises unless it is empty |
| Configuration.MergeIsShallow | src/ptcam/config/config.py:25-28 | under a key the document sets, every path reads what the document holds there, so nested defaults are replaced wholesale |
| Configuration.Config.constructor | src/ptcam/config/config.py:22 | the data starts as a copy of the defaults |
| Configuration.Config.Create | src/ptcam/config/config.py:21-23 | construction succeeds exactly when loading the document raises nothing, and the data is then the defaults merged with it; otherwise the load's exception is raised |
| Configuration.Config.Load | src/ptcam/config/config.py:25-28 | the new data is `Merge` of the old data and the document, and the exception `Merge` raises is the result |
| Configuration.Config.Get | src/ptcam/config/config.py:34-41 | returns the value at the dotted path, or the default as soon as a segment is missing or a non-dictionary is reached |
| Configuration.Config.Set | src/ptcam/config/config.py:43-50 | the data becomes `Store` of the old data, and the path then reads back the value |
| Frames.Advance | src/ptcam/tracker/frame_reader.py:42-47 | a read is delivered exactly when the incremented counter exceeds `skip_frames`; delivery resets the counter to 0, otherwise the counter is incremented |
| Frames.RunReads | src/ptcam/tracker/frame_reader.py:36-48 | a run delivers at most as many frames as there were reads |
| Frames.CounterStaysInRange | src/ptcam/tracker/frame_reader.py:36-48 | between reads the counter stays within `0 ..= max(skip_frames, 0)` |
| Frames.SamplingByQuotient | src/ptcam/tracker/frame_reader.py:36-48 | n = q(k+1)+c successful reads deliver exactly q frames, namely reads k+1, 2(k+1), ..., and leave the counter at c |
| Frames.SamplingRate | src/ptcam/tracker/frame_reader.py:36-48 | n successful reads deliver n div (k+1) frames and leave the counter at n mod (k+1) |
| Frames.NoSkipDeliversEveryFrame | src/ptcam/tracker/frame_reader.py:44-48 | with `skip_frames = 0` every read frame is delivered, in order |
| Frames.FailedReadIsInvisible | src/ptcam/tracker/frame_reader.py:38-40 | a failed read changes neither the counter nor the delivered frames |
| Frames.Invocations | src/ptcam/tracker/frame_reader.py:50-53 | with no callback nothing is invoked; otherwise the callback is invoked once per frame, in order |
| Frames.FrameReader.constructor | src/ptcam/tracker/frame_reader.py:7-14 | `skip_frames` defaults to 0; the counter starts at 0 with no callback and not running |
| Frames.FrameReader.SetCallback | src/ptcam/tracker/frame_reader.py:32-34 | the callback is replaced |
| Frames.FrameReader.TriggerCallback | src/ptcam/tracker/frame_reader.py:50-53 | the frame goes to the callback, or to nobody when none is set |
| Frames.FrameReader.ReadFrames | src/ptcam/tracker/frame_reader.py:36-48 | the counter ends as `RunReads` says and the callback receives exactly the delivered frames, in order |
| Tracking.SeedBox | src/ptcam/tracker/tracker.py:42-47 | the box starts at non-negative coordinates, and within the frame with sides of non-negative length when the circle's square starts within it; is at most 2r per side and ends inside the frame; it covers the part of the circle's square that lies in the frame, and equals that square when the square fits |
| Tracking.AcceptedSeeds | src/ptcam/tracker/tracker.py:43-53 | no more seeds than circles |
| Tracking.Rejected | src/ptcam/tracker/tracker.py:51-53 | no more warnings than circles |
| Tracking.EveryCircleAttempted | src/ptcam/tracker/tracker.py:43-53 | every circle is either seeded or warned about, never both |
| Tracking.AllAcceptedSeedsAll | src/ptcam/tracker/tracker.py:43-53 | when every seeding is accepted, the tracker holds every circle's box, in order |
| Tracking.Tracker.constructor | src/ptcam/tracker/tracker.py:6-8 | a fresh tracker holds no seeds |
| Tracking.Tracker.ResetTrackers | src/ptcam/tracker/tracker.py:62-63 | afterwards the tracker holds no seeds |
| Tracking.Tracker.AddCirclesToMultitracker | src/ptcam/tracker/tracker.py:41-53 | the seeds gain the accepted circles' boxes in order, and one warning is returned per rejected circle |
| Tracking.Tracker.Update | src/ptcam/tracker/tracker.py:58-60 | the library's `(ok, boxes)` is passed through unchanged |
| TrackerProcessing.Reconcile | src/ptcam/tracker/tracker_processor.py:10-23 | one frame of `process_frame`: the detector runs exactly when the update failed or returned no box, there is one result per update box, and the tracker is reset and reseeded (with warnings) only after a detection that found circles |
| TrackerProcessing.Reports | src/ptcam/tracker/tracker_processor.py:20-22 | one report per box, in order, pairing the box with its distance estimate |
| TrackerProcessing.TrustedUpdateKeepsTracker | src/ptcam/tracker/tracker_processor.py:12-13 | a successful update with boxes runs no detection and leaves the seeds and warnings untouched |
| TrackerProcessing.UntrustedUpdateReseeds | src/ptcam/tracker/tracker_processor.py:12-17 | a failed or empty update runs detection; when circles are found the tracker is reset and seeded with them, each seeded or warned about |
| TrackerProcessing.EmptyDetectionIsQuiescent | src/ptcam/tracker/tracker_processor.py:14-17 | a detection that finds nothing leaves the tracker as it was |
| TrackerProcessing.ResultsComeFromUpdate | src/ptcam/tracker/tracker_processor.py:19-23 | results report exactly this frame's update boxes, also when the update reported failure, and none when it returned no box |
| TrackerProcessing.SeedingFrameScenario | src/ptcam/tracker/tracker_processor.py:12-23 | a circle (50, 50, 10) found after a failed update seeds the box (40, 40, 20, 20), but nothing is reported on that frame |
| TrackerProcessing.TrackingFrameScenario | src/ptcam/tracker/tracker_processor.py:19-23 | on the next frame, an update returning that box reports it with its distance |
| TrackerProcessing.TrackerProcessor.constructor | src/ptcam/tracker/tracker_processor.py:5-8 | a fresh tracker with no seeds |
| TrackerProcessing.TrackerProcessor.ProcessFrame | src/ptcam/tracker/tracker_processor.py:10-23 | the tracker's seeds, the results, the warnings and whether detection ran are exactly what `Reconcile` gives for the old seeds |
| TrackerProcessing.TrackerProcessor.ResetTrackers | src/ptcam/tracker/tracker_processor.py:25-26 | afterwards the tracker holds no seeds |
| Centroids.FirstNearest | src/ptcam/servo/camera.py:39-41 | the column is at minimal distance from the object, and every earlier column is strictly farther (numpy's first-minimum `argmin`) |
| Centroids.Columns | src/ptcam/servo/camera.py:39-41 | every tracked object gets a column, and every column is an input index |
| Centroids.MatchUpTo | src/ptcam/servo/camera.py:43-54 | the greedy loop over the first `i` rows as a definition: a row is skipped when it or its nearest column is used, else matched to that column; its properties are stated by `MatchFollowsCols`, `MatchOneToOne`, `MatchCard`, `MatchPrefix` and `MatchIsGreedy` |
| Centroids.MatchFollowsCols | src/ptcam/servo/camera.py:45-51 | every accepted pair is a row with the column that row tried |
| Centroids.MatchOneToOne | src/ptcam/servo/camera.py:43-54 | only visited rows are matched, and no two matched rows share a column |
| Centroids.MatchCard | src/ptcam/servo/camera.py:43-54 | as many columns are used as rows |
| Centroids.MatchPrefix | src/ptcam/servo/camera.py:45-54 | a pair accepted early stays accepted, with the same column |
| Centroids.MatchIsGreedy | src/ptcam/servo/camera.py:45-47 | every row is matched, or its column was already taken by a row visited before it |
| Centroids.UnusedCols | src/ptcam/servo/camera.py:33-34 | the listed columns are below n and unused |
| Centroids.UnusedSet | src/ptcam/servo/camera.py:57 | a column is unused exactly when it is below n and not used |
| Centroids.EnumerationLength | src/ptcam/servo/camera.py:65-66 | a loop over a set visits as many columns as the set holds |
| Centroids.UnusedColsEnumerate | src/ptcam/servo/camera.py:57-66 | the ascending list of unused columns is one way to iterate their set, and has as many entries as the set |
| Centroids.EnumeratedColumnsBelow | src/ptcam/servo/camera.py:57-66 | a loop over the unused columns only visits unused input indices |
| Centroids.HashOrderAdmitted | src/ptcam/servo/camera.py:57-66 | with ten inputs and the columns 0..6 and 8 taken, both CPython's order `[9, 7]` and the ascending `[7, 9]` are admitted |
| Centroids.EveryColumnUnused | src/ptcam/servo/camera.py:33-34 | with nothing used, every input is registered, in input order |
| Centroids.Matching | src/ptcam/servo/camera.py:43-54 | every matched object's column is an input index |
| Centroids.Registered | src/ptcam/servo/camera.py:12-16 | `register` as a definition: the centroid under `next_object_id` with no misses, and the counter advanced; its properties are stated by `RegisterOneKeepsValid` and `RegisteringKeepsValid` |
| Centroids.RegisteringKeepsValid | src/ptcam/servo/camera.py:12-16 | registering keeps the registry valid and adds exactly the next ids |
| Centroids.RegisterOneKeepsValid | src/ptcam/servo/camera.py:12-16 | one `register` keeps the registry valid and adds exactly the id `next_object_id` |
| Centroids.RegisteringKeepsOld | src/ptcam/servo/camera.py:12-16 | registering leaves every existing entry unchanged |
| Centroids.RegisteringPlacesNew | src/ptcam/servo/camera.py:12-16 | the i-th registered input is stored under `next_object_id + i`, with no misses |
| Centroids.Assign | src/ptcam/servo/camera.py:49-51 | the matched objects' move as a definition: each matched id takes its input and a miss count of 0; `AssignKeepsValid` and `MatchedObjectsMove` state its properties |
| Centroids.AssignKeepsValid | src/ptcam/servo/camera.py:49-51 | matching moves objects but adds and removes no id |
| Centroids.Age | src/ptcam/servo/camera.py:59-63 | the miss loop as a definition: each listed id misses once more and is deregistered past `max_disappeared`; `AgeKeepsValid`, `UnmatchedObjectsAge` and `BallTracker.AgeIds` state its properties |
| Centroids.AgeKeepsValid | src/ptcam/servo/camera.py:59-63 | ageing keeps the registry valid and hands out no id |
| Centroids.UpdateSpec | src/ptcam/servo/camera.py:23-68 | `update` as a definition over the three branches (no inputs, nothing tracked, matching); `UpdateKeepsValid`, `EmptyInputOnlyAges`, `MatchedObjectsMove`, `UnmatchedObjectsAge`, `UnusedInputsRegistered` and `RegistryCoversInputs` state its properties, and `BallTracker.Update` is proved equal to it |
| Centroids.UpdateKeepsValid | src/ptcam/servo/camera.py:23-68 | an update keeps both dictionaries on the same ids, all below `next_object_id`, so a dropped id never returns |
| Centroids.EmptyInputOnlyAges | src/ptcam/servo/camera.py:25-30 | with no input, objects past `max_disappeared` are dropped, the others keep their centroid, and no id is created |
| Centroids.MissesCount | src/ptcam/servo/camera.py:25-30 | an object with d misses is still there, unmoved, with d+k misses after k empty updates, as long as d+k <= `max_disappeared` |
| Centroids.SurvivesExactlyMaxMisses | src/ptcam/servo/camera.py:26-29 | an object with no misses survives exactly `max_disappeared` empty updates and is gone after one more |
| Centroids.FreshRegistryNumbering | src/ptcam/servo/camera.py:32-34 | from an empty registry, n inputs get the ids `next_object_id ..` in input order, with no misses |
| Centroids.FreshIds | src/ptcam/servo/camera.py:32-34 | registering every input keeps the registry valid and hands out exactly the next n ids |
| Centroids.FreshPlaces | src/ptcam/servo/camera.py:32-34 | input i is stored under `next_object_id + i` |
| Centroids.SkippedRowLostToNearerRow | src/ptcam/servo/camera.py:39-47 | a skipped row lost its column to an earlier row that is at least as near to that input |
| Centroids.Survivors | src/ptcam/servo/camera.py:43-63 | the registry after matching and ageing, before the unused inputs are registered, as a definition; `SurvivorsKeepValid` and `MatchedSurvive` state its properties |
| Centroids.SurvivorsKeepValid | src/ptcam/servo/camera.py:43-63 | the registry after matching and ageing is valid and has handed out no id |
| Centroids.MatchedObjectsMove | src/ptcam/servo/camera.py:49-51 | a matched object moves to its input and has no misses |
| Centroids.UnmatchedObjectsAge | src/ptcam/servo/camera.py:59-63 | an unmatched object gains one miss and stays unmoved, or is dropped once past `max_disappeared` |
| Centroids.UnusedInputsRegistered | src/ptcam/servo/camera.py:56-66 | the loop runs once per unused input; the i-th column it visits is registered under `next_object_id + i` with no misses |
| Centroids.UnusedColsCount | src/ptcam/servo/camera.py:56-57 | unused and used columns below n add up to n |
| Centroids.RegistryCoversInputs | src/ptcam/servo/camera.py:23-68 | after a non-empty update there are at least as many objects as inputs |
| Centroids.MatchedSurvive | src/ptcam/servo/camera.py:49-63 | every matched object is still tracked after ageing |
| Centroids.SingleObjectFollowsInput | src/ptcam/servo/camera.py:36-54 | one object and one input: the object keeps its id and moves to the input, and nothing is created |
| Centroids.BallTracker.constructor | src/ptcam/servo/camera.py:6-10 | no objects, ids start at 1, and `max_disappeared` defaults to 50 |
| Centroids.BallTracker.Register | src/ptcam/servo/camera.py:12-16 | the state becomes `Registered` of the old state |
| Centroids.BallTracker.Deregister | src/ptcam/servo/camera.py:18-21 | the id is removed from both dictionaries; nothing else changes |
| Centroids.BallTracker.AgeIds | src/ptcam/servo/camera.py:59-63 | the state becomes `Age` of the old state |
| Centroids.BallTracker.RegisterAll | src/ptcam/servo/camera.py:33-34 | every input is registered, in list order |
| Centroids.BallTracker.RegisterColumns | src/ptcam/servo/camera.py:65-66 | the input at each visited column is registered, in the order visited |
| Centroids.BallTracker.MatchRows | src/ptcam/servo/camera.py:43-54 | the used rows and columns are the greedy matching's, and exactly the matched objects are moved |
| Centroids.BallTracker.Update | src/ptcam/servo/camera.py:23-68 | the registry stays valid, the new state is `UpdateSpec` of the old one, and the returned dictionary is the objects |
| Motion.Trunc | src/ptcam/servo/servo_controller.py:97 | `int(x)`: the integer part, truncated toward zero |
| Motion.TruncMonotone | src/ptcam/servo/servo_controller.py:96-99 | `int()` preserves order |
| Motion.Progression | src/ptcam/servo/servo_controller.py:97-99 | the values `range` yields for a non-zero step: empty exactly when `start` is not before `stop` in the step's direction, and otherwise starting at `start`; `ProgressionUp` and `ProgressionDown` give every element |
| Motion.Range | src/ptcam/servo/servo_controller.py:96-99 | `range` fails exactly when the step is zero, and the failure is a `ValueError`; otherwise its values are `Progression`'s, which `ProgressionUp` and `ProgressionDown` describe element by element |
| Motion.ProgressionUp | src/ptcam/servo/servo_controller.py:97 | an ascending range is non-empty iff start < stop; it starts at start, stays below stop, moves by step, and its last value plus step reaches stop |
| Motion.ProgressionDown | src/ptcam/servo/servo_controller.py:99 | the same for a descending range |
| Motion.Sweep | src/ptcam/servo/servo_controller.py:96-99 | the sweep's range fails exactly when the step size is zero |
| Motion.SweepWalksToward | src/ptcam/servo/servo_controller.py:96-104 | with a positive step, the sweep starts at `int(current)`, moves by exactly the step toward `int(target)`, never passes it, and ends within one step of it |
| Motion.SweepSameWholeAngle | src/ptcam/servo/servo_controller.py:96-99 | when both angles have the same integer part, the sweep is that one angle |
| Motion.SweepNegativeStep | src/ptcam/servo/servo_controller.py:96-99 | a negative step size gives an empty sweep, so the servo does not move |
| Motion.Clamp | src/ptcam/servo/servo_controller.py:71 | the result lies in [0, max]; an angle already there is unchanged, and out-of-range angles go to the nearer end |
| Motion.ClampIdempotent | src/ptcam/servo/servo_controller.py:71 | clamping twice is clamping once |
| Motion.DefaultAngle | src/ptcam/servo/servo_controller.py:35-37 | the configured default for `pan` or `tilt`, and `KeyError` for any other name |
| Motion.PanPlan | src/ptcam/servo/servo_controller.py:69-80 | the recorded angle lies in [0, max] and equals the requested one when in range; the duty is forward iff the offset is positive; the move time is non-negative |
| Motion.PanTimeIsProportional | src/ptcam/servo/servo_controller.py:73-74 | the move time is the angle actually travelled over 180 times `full_sweep_time`, so no travel takes no time |
| Motion.AbsoluteMoveTargetsRequest | src/ptcam/servo/servo_controller.py:82-84 | an absolute move records the clamped target and drives forward iff the target is above the current angle |
| Motion.LinearDuty | src/ptcam/servo/servo_controller.py:86-87 | `tilt_angle_to_duty`: for `min_duty <= max_duty`, an angle in [0, 180] gives a duty in [`min_duty`, `max_duty`] |
| Motion.LinearDutyEnds | src/ptcam/servo/servo_controller.py:86-87 | the tilt duty is `min_duty` at 0 degrees and `max_duty` at 180 degrees, and grows with the angle |
| AngleFile.Get | src/ptcam/servo/servo_controller.py:35 | `dict.get` on an insertion-ordered dict, as a definition: the value of the item with the key, or `None`; `GetFindsKey` and `PutGet` state its properties |
| AngleFile.Put | src/ptcam/servo/servo_controller.py:47 | `d[k] = v` as a definition: a present key keeps its place and takes the new value, a new key goes last; `PutGet`, `PutNew`, `PutEntries` and `PutKeepsDistinct` state its properties |
| AngleFile.GetFindsKey | src/ptcam/servo/servo_controller.py:35 | `get` finds a value exactly when some item has the key, and the value it finds is that of an item with the key |
| AngleFile.PutGet | src/ptcam/servo/servo_controller.py:47 | after `angles[name] = v`, `name` maps to `v` and every other key is unchanged |
| AngleFile.PutNew | src/ptcam/servo/servo_controller.py:47 | a new key is appended last, which is dict insertion order |
| AngleFile.PutEntries | src/ptcam/servo/servo_controller.py:47 | every item after the assignment is the new item or an old one |
| AngleFile.PutKeepsDistinct | src/ptcam/servo/servo_controller.py:47 | the assignment keeps the keys distinct |
| AngleFile.Lines | src/ptcam/servo/servo_controller.py:33-34 | iterating a text file, as a definition: lines cut after each `\n`, the last possibly without one; `LinesCutText` and `LinesAppend` state how the lines cut the text |
| AngleFile.NewlineAt | src/ptcam/servo/servo_controller.py:33-34 | the index returned is at most the length, and when inside the text it is a line break |
| AngleFile.NoNewlineBefore | src/ptcam/servo/servo_controller.py:33-34 | no line break comes before that index |
| AngleFile.LinesCutText | src/ptcam/servo/servo_controller.py:33-34 | iterating over the file yields non-empty lines whose concatenation is the text, each ending at its only line break except possibly the last |
| AngleFile.LinesAppend | src/ptcam/servo/servo_controller.py:48-50 | appending a complete line to text ending at a line break appends that line |
| AngleFile.AddLine | src/ptcam/servo/servo_controller.py:34 | one line of the generator fed to `dict`, as a definition: skipped without `=`, else stripped, split at `=` and stored, with `ValueError` unless there are exactly two pieces; `FailureSticks`, `LineWithoutEqualsIgnored` and `ParseOneMore` state its properties |
| AngleFile.ParseLines | src/ptcam/servo/servo_controller.py:34 | `dict(...)` over the lines, as a definition: `AddLine` folded from the first line; `LaterLineWins` and `ParseEntryLines` state its properties |
| AngleFile.Parse | src/ptcam/servo/servo_controller.py:33-34 | reading a whole angle file, as a definition: `ParseLines` of the file's lines; `ParseSerialise` and `WriteThenParse` state its properties |
| AngleFile.ParseOneMore | src/ptcam/servo/servo_controller.py:34 | reading one more line extends the dict by that line alone |
| AngleFile.FailureSticks | src/ptcam/servo/servo_controller.py:34 | once a line fails, the whole read fails with that error |
| AngleFile.LineWithoutEqualsIgnored | src/ptcam/servo/servo_controller.py:34 | a line without `=` is skipped wherever it stands |
| AngleFile.LaterLineWins | src/ptcam/servo/servo_controller.py:34 | a later `k=v` line sets k to v and keeps the other keys |
| AngleFile.Serialise | src/ptcam/servo/servo_controller.py:48-50 | the written text is empty or ends with a line break |
| AngleFile.EntryLines | src/ptcam/servo/servo_controller.py:49-50 | one line per item |
| AngleFile.SerialisedLines | src/ptcam/servo/servo_controller.py:48-50 | the written text reads back as one line per item |
| AngleFile.StripEntryLine | src/ptcam/servo/servo_controller.py:34 | a written `key=value` line strips back to `key=value` |
| AngleFile.SplitEntry | src/ptcam/servo/servo_controller.py:34 | `key=value` splits into the key and the value |
| AngleFile.ParseEntryLines | src/ptcam/servo/servo_controller.py:34 | the lines of a dict with distinct, clean items read back as that dict |
| AngleFile.ParseSerialise | src/ptcam/servo/servo_controller.py:39-50 | writing a dict with distinct, clean items and reading the text gives the dict back, order included |
| AngleFile.ParsedItemIsClean | src/ptcam/servo/servo_controller.py:34 | a well-formed line yields a clean item |
| AngleFile.StrippedLineIsBare | src/ptcam/servo/servo_controller.py:34 | a stripped line has no line break and gains no carriage return |
| AngleFile.SplitInTwo | src/ptcam/servo/servo_controller.py:34 | a two-piece split rejoins with `=` to the original |
| AngleFile.PiecesAreClean | src/ptcam/servo/servo_controller.py:34 | the pieces of a bare `key=value` text are clean |
| AngleFile.ParsedDictIsClean | src/ptcam/servo/servo_controller.py:34 | anything a file without `\r` parses to has distinct, clean items |
| AngleFile.Prior | src/ptcam/servo/servo_controller.py:40-45 | a missing file starts the write from an empty dict |
| AngleFile.WriteAngle | src/ptcam/servo/servo_controller.py:39-50 | a write fails exactly when reading the existing file fails |
| AngleFile.ReadAngle | src/ptcam/servo/servo_controller.py:31-37 | a missing file gives the default; an unreadable file gives an error; a missing key gives the default |
| AngleFile.WriteThenParse | src/ptcam/servo/servo_controller.py:39-50 | after a successful write the file parses to the old items with `name` set to the new value, every other entry as before |
| AngleFile.WriteThenRead | src/ptcam/servo/servo_controller.py:31-50 | reading after writing a value that parses back gives that angle |
| AngleFile.LoadAngles | src/ptcam/servo/servo_controller.py:34 | the dict built line by line equals `Parse` of the text |
| AngleFile.StoreAngles | src/ptcam/servo/servo_controller.py:48-50 | the text written item by item equals `Serialise` of the dict |
| AngleFile.ReadAngleFile | src/ptcam/servo/servo_controller.py:31-37 | the result equals `ReadAngle` of the file's contents |
| AngleFile.WriteAngleFile | src/ptcam/servo/servo_controller.py:39-50 | succeeds iff `WriteAngle` does, and leaves the file as `AfterWrite` says |
| ServoControl.ServoController.constructor | src/ptcam/servo/servo_controller.py:6-24 | the servo table, `min_duty` and `max_duty` are the configured ones, with the built-in defaults when absent |
| ServoControl.ServoController.ReadLastAngle | src/ptcam/servo/servo_controller.py:31-37 | the result is `ReadAngle` of the angle file, with the servo's configured default |
| ServoControl.ServoController.WriteLastAngle | src/ptcam/servo/servo_controller.py:39-50 | the file becomes `AfterWrite` of the old contents with `str(angle)` under the name |
| ServoControl.ServoController.InitializeServo | src/ptcam/servo/servo_controller.py:52-63 | an unknown name gives `ValueError("Invalid servo name: ...")`; otherwise the last angle is read, the default when there is no file |
| ServoControl.ServoController.TiltAngleToDuty | src/ptcam/servo/servo_controller.py:86-87 | `min_duty` at 0 degrees, `max_duty` at 180 degrees, and within them in between |
| ServoControl.ServoController.MovePanByOffset | src/ptcam/servo/servo_controller.py:69-80 | the duty and move time are `PanPlan`'s, and the clamped angle is recorded |
| ServoControl.ServoController.MovePanToAbsolute | src/ptcam/servo/servo_controller.py:82-84 | the move is the pan move by `target - current`, and the recorded angle is the clamped target |
| ServoControl.ServoController.MoveTiltByOffset | src/ptcam/servo/servo_controller.py:89-106 | a zero step size fails before anything moves or is written; otherwise one duty per sweep angle, then the clamped angle is recorded |
| ServoControl.ServoController.MoveTiltToAbsolute | src/ptcam/servo/servo_controller.py:108-110 | the sweep runs toward the clamped target, and that target is recorded |
| ServoControl.TiltStepsTowardTarget | src/ptcam/servo/servo_controller.py:96-104 | with a positive step the tilt sweeps from `int(current)` toward `int(target)` without passing it, a single step when both share their integer part |
| ServoScript.Destination | src/ptcam/servo/servo.py:84-85 | the recorded angle lies in the servo's range and is the requested one when that is in range |
| ServoScript.DrivePan | src/ptcam/servo/servo.py:162-166 | forward iff the requested angle is above the current one; the move time is the distance travelled over 180; the destination is recorded |
| ServoScript.DriveTilt | src/ptcam/servo/servo.py:167-171 | the tilt walks in steps of 2 from the current angle toward the destination, one duty `2.5 + 7.5 * angle / 180` per step, and records the destination |
| ServoScript.Run | src/ptcam/servo/servo.py:149-173 | an unknown servo is refused by argument parsing and no target gives `ValueError`, both with the file untouched; a failed read is passed on; otherwise the pan or tilt move happens (`--angle` first), the destination is recorded and the run succeeds |
| ServoScript.TiltDutiesInRange | src/ptcam/servo/servo.py:108-135 | when the start and destination lie in [0, 180], every tilt duty lies in [2.5, 10.0] |
| TiltServo.AngleToDuty | src/ptcam/servo/tiltservo.py:15-17 | equals the linear map from 2.5 at 0 degrees to 12.5 at 180 degrees, and stays within them in between |
| TiltServo.MoveServoSlowly | src/ptcam/servo/tiltservo.py:19-32 | the angles are the sweep's, walking from `int(start)` toward `int(target)` in steps of 5, one duty per angle |
| TiltServo.StoredAngle | src/ptcam/servo/tiltservo.py:34-43 | a missing file gives 90.0; otherwise the read succeeds exactly when the stripped text is a number |
| TiltServo.ReadLastAngle | src/ptcam/servo/tiltservo.py:34-43 | the result is `StoredAngle` of the file |
| TiltServo.WriteLastAngle | src/ptcam/servo/tiltservo.py:45-49 | the file's whole text becomes `str(angle)` |
| TiltServo.WriteThenReadBack | src/ptcam/servo/tiltservo.py:34-49 | an angle written is read back, when its text has no surrounding white space and parses to it |
| TiltServo.Target | src/ptcam/servo/tiltservo.py:57 | the clipped target lies in [0, 180] and equals the request when that is in range |
| TiltServo.Run | src/ptcam/servo/tiltservo.py:51-84 | a missing `--angle` is refused; a read error is passed on; a target equal to the stored angle moves and writes nothing; otherwise the servo sweeps to the target, one duty per angle, and the target is stored |

## Left out

- Hardware and libraries:
  - OpenCV capture, display and drawing: `main` in `camera.py`, and the colour masks and contour detection that produce its centroids.
  - The Hough circle detector in `Tracker.detect_circles_in_frame` and its configuration reads. The detected circles are an input of `ProcessFrame`.
  - The CSRT trackers in `create_single_tracker`. The library's answers to seeding and to `update` are inputs.
  - GPIO and PWM set-up, `cleanup_servo` and `time.sleep`. The pan's hold time is reported, not waited for. The tilt's per-step delay (`delay_sec`, and `DELAY_SEC` in `tiltservo.py`) is left out, and so is `SERVO_PIN`.
- Threads and I/O outside the angle files:
  - the `FrameReader` thread, `start`/`stop` and the lock;
  - `Config.save` and the YAML parser. The loaded document is a parameter.
- Floating point: floats are exact reals, so NaN, infinities and rounding are not modelled.
  - `str(float)` and `float(str)` are the parameters `show` and `parse`.
  - `max(0, min(hi, x))` returns the integer `0` or `hi` when those are the larger or smaller value. The written text can then be `0` rather than `0.0`. The model writes `show` of a real either way.
- Centroids distances: squared integer distances replace `np.linalg.norm`, which picks the same nearest input.
- Centroids row order: numpy's `argsort` row order is a parameter (`order`), constrained to a valid sort by row minimum, with ties in any order.
- Centroids.BallTracker.Update: the order of the unused-column loop is the parameter `iterate`, which may return any order visiting each member once. The model does not compute CPython's hash-table order. For example, with ten inputs and the columns 0..6 and 8 taken, CPython visits `[9, 7]`.
- Centroids.BallTracker.Deregister: requires a tracked id. The source raises `KeyError` otherwise, which `update` never triggers.
- Distance.CalculateDistance: assumes the four calibration keys are configured as numbers and the frame sides are non-zero, as the tracking pipeline (`TrackerProcessing`) does, which takes the calibration as numbers. The configuration reads and their exceptions are modelled apart in `Distance.CalculateFromConfig`. A missing key raises `TypeError`, and the built-in defaults hold none of the four, so under them every box with positive sides raises (`Distance.DefaultConfigRaises`). A zero frame side raises `ZeroDivisionError`. `TrackerProcessing` takes the calibration as numbers and does not model these exceptions; the source's `process_frame` lets them propagate to its caller.
- Distance.Operand: a configured boolean counts as 1 or 0, as in Python arithmetic. Numbers of every kind are exact reals.
- Configuration.UpdateFromPairs: two cases that Python accepts are refused with `TypeError` here, because dictionary keys in the model are strings:
  - a pair whose key is not a string;
  - a two-key mapping used as a list element, whose key order the model does not keep.
- Configuration.Value: a YAML mapping with non-string keys is not modelled.
- Configuration.Config.Set: rebuilds the nested dictionaries as values. A caller holding a reference to an inner dictionary does not see the change.
- AngleFile.Lines: only `\n` ends a line. Python's universal newline translation of `\r` and `\r\n` is not modelled, so round-trip lemmas require text without `\r`.
- ServoControl.ServoController.constructor:
  - The servo table, `min_duty` and `max_duty` are passed in as already read from the configuration.
  - Writing the default table and `angle_file` back with `config.set` and `config.save` is left out, and so is creating the directory.
  - The servo table is assumed to hold exactly `pan` and `tilt`, each with every field (`Motion.ServoConfig`), as the built-in table does. `initialize_servo` accepts any name the configured table holds, but `Motion.Known` accepts only `pan` and `tilt`. A table missing `tilt` or one of its fields would make the move methods raise `KeyError`, which is not modelled.
  - `servo_controller.py` uses `os` without importing it, so as written the constructor raises `NameError`. The model constructs the controller as evidently intended.
- Motion.TiltSettings: `step_size` is an integer. A float `step_size` from YAML would make `range` raise `TypeError`, which is not modelled.
- ServoScript.Run: the servo table is the script's fixed `SERVO_CONFIG`; argparse's usage message and exit status are reduced to an `ArgumentError`.
- Tracking.Tracker.Update: the `(ok, boxes)` that the library's `update` returns is a parameter unconstrained by the seeded boxes. The model does not relate what the trackers report to where they were seeded.
- TrackerProcessing.ResultsComeFromUpdate: the model follows the code. Boxes found by detection are seeded but first reported on the next frame, and the boxes of an update that reported failure are still reported.
