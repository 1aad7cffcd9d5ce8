# UWB start-line tracker, modelled in Dafny

This project models the core of a UWB start-line tracker for sailing regattas. Two UWB anchors on
buoys mark the start line, and a third fixes the plane. A tag on the boat ranges to them by
double-sided two-way ranging (DS-TWR). The system:

- estimates the tag position and decides on which side of the line it is and when it crosses;
- lets the anchors calibrate their own positions from anchor-to-anchor ranges;
- maps UWB coordinates to GNSS coordinates once three GNSS anchor fixes are known;
- shows all of it in a terminal client, a visualiser and a desktop timing application.

The model has one module per source file, and the names follow the source:

- **Geometry and estimation:** `DsTwr` for the DS-TWR timings, the line side test, crossing detection and the two-anchor estimate. `CoordinateTransform` for the distance and crossing rule of the line and the calibrated state of the UWB-to-GNSS transformer.
- **Calibration and trilateration:** `AnchorCalibration` for the sample table, the distance matrix and the gauge steps. `Trilateration` and `TrilaterationWrapper` for the 8-slot anchor tables and the checks made before solving.
- **Transport:** the serial parsers `SerialHandler`, `SerialReceiver` and `SerialComm`; the UDP, ZMQ and TCP receivers `UdpReceiver`, `GnssReceiver` and `TcpServer`.
- **Payloads:** `Models` for the payload of a frame; `Terminal` for reading that payload back; `Simulator` for the regatta simulator.
- **Applications:** `MainApp` for the state of the desktop application, `Visualizer` for the visualiser, and `Upload` for the upload script.

Four helper modules stand for Python's runtime and get no rows of their own:

- `Wrappers`: `Option`, `Result` and the exception classes.
- `PyText`: `str.strip`, `split`, the `in` test, `int(text, base)`.
- `Json`: already-decoded JSON values, with indexing, `dict.get`, `int()`, `float()`, truthiness and iteration.
- `Numerics`: min, max and the properties a square root must have.

`Fifo` models the capacity-100 drop-oldest queues the receivers share.

Numeric and foreign routines are function-typed parameters:

- the square root (`sqrt`, standing also for `math.hypot` and `numpy.linalg.norm`);
- the arc interpolation of the simulator;
- the SVD embedding (`mds`) and the rotation (`rotate`) of anchor calibration;
- the rigid fit (`fit`) and the WGS84 conversion (`toGnss`) of the transformer;
- the native `GetLocation` routine (`dll`);
- the noise samples, the clocks and the JSON decoder.

Lemmas that need the square root's properties require `Numerics.IsSqrt(sqrt)`.

## Model

| member | source | states |
|---|---|---|
| DsTwr.TofRoundTrip | src/uwb_line_tracker/ds_twr.py:21-23 | metres to nanoseconds of flight is inverted exactly by the reverse conversion, and a distance is positive exactly when its flight time is |
| DsTwr.SimulateDsTwrRelations | src/uwb_line_tracker/ds_twr.py:26-56 | a simulated measurement carries the anchor and tag ids and the noisy true distance; that distance is recovered from the flight time net of drift and from half the round trip net of the reply time; the reply time is the responder delay and the variance is the squared deviation |
| DsTwr.SideOfLineLeft | src/uwb_line_tracker/ds_twr.py:146-151 | the side value of A + s(B-A) + t·perp(B-A) is t·\|B-A\|², so it is positive exactly for points left of A→B |
| DsTwr.SideOfLineSwap | src/uwb_line_tracker/ds_twr.py:146-151 | swapping the anchors negates the side value, and no z coordinate affects it |
| DsTwr.DetectLineCrossingSigns | src/uwb_line_tracker/ds_twr.py:154-165 | a crossing fires iff the previous point is on the line or the two points are strictly on opposite sides; two points on one side never fire, nor does landing on the line from off it |
| DsTwr.SignedDistanceSign | src/uwb_line_tracker/ds_twr.py:168-183 | coincident anchors give 0; otherwise the distance times \|AB\| is the side value, and it has the side value's sign |
| DsTwr.ClampDistancesProperties | src/uwb_line_tracker/ds_twr.py:79-93 | the clamps fail only on a zero distance sum, leave feasible distances unchanged, keep the ratio of the two distances, and leave a difference of at most d |
| DsTwr.ClampKeepsRatio | src/uwb_line_tracker/ds_twr.py:84-93 | both clamps together keep distA : distB |
| DsTwr.ClampBoundsDifference | src/uwb_line_tracker/ds_twr.py:89-93 | after the shrink the difference of the distances is at most the baseline |
| DsTwr.LocalYSign | src/uwb_line_tracker/ds_twr.py:100-104 | the local y is non-negative on the preferred positive side and non-positive otherwise |
| DsTwr.LocalFrameSide | src/uwb_line_tracker/ds_twr.py:96-108 | rotating the local point (x, y) back to world coordinates gives a side value y·d·(ux²+uy²), of the sign of y |
| DsTwr.PlaceIntersectionSide | src/uwb_line_tracker/ds_twr.py:95-109 | the placed point is left of A→B when the positive side is preferred and right of it otherwise |
| DsTwr.CircleIntersectionSide | src/uwb_line_tracker/ds_twr.py:59-109 | ValueError iff the anchors coincide in XY, ZeroDivisionError iff they do not and the distance sum is 0, and a result lies on the requested side of A→B |
| DsTwr.InsertById | src/uwb_line_tracker/ds_twr.py:129 | inserting by anchor id adds exactly the one element |
| DsTwr.InsertByIdSorted | src/uwb_line_tracker/ds_twr.py:129 | inserting into a list sorted by id keeps it sorted |
| DsTwr.SortById | src/uwb_line_tracker/ds_twr.py:129 | the sort by anchor id is a permutation of the measurements, is sorted, and is stable: the measurements of each id keep their input order |
| DsTwr.LookupAnchor | src/uwb_line_tracker/ds_twr.py:128 | a found anchor is in the list and has the id, and no later anchor has that id (the last duplicate wins); none is found iff no anchor has the id |
| DsTwr.SortByIdFirstTwo | src/uwb_line_tracker/ds_twr.py:129 | the first sorted measurement has the least id, and the second the least id among the rest |
| DsTwr.EstimateUsesFirstTwo | src/uwb_line_tracker/ds_twr.py:112-143 | an estimate needs two anchors and two measurements, and is the circle intersection of the two measurements first in id order, around the anchors with those ids, on the requested side or else the positive one |
| CoordinateTransform.DistanceToLineSign | src/uwb_line_tracker/coordinate_transform.py:315-343 | a line shorter than 1e-10 gives the non-negative distance to its start; otherwise the distance times the line length is minus the ds_twr side value, so it is positive on the right of start→end although the docstring says left |
| CoordinateTransform.DistanceToLineReverse | src/uwb_line_tracker/coordinate_transform.py:333-343 | swapping the ends of a non-degenerate line keeps its length and negates the distance |
| CoordinateTransform.CheckRuleSigns | src/uwb_line_tracker/coordinate_transform.py:360 | the check rule fires iff the values have strictly opposite signs or the current one is 0 and the previous one is not; the ds_twr rule fires iff the previous one is 0 or the signs are strictly opposite |
| CoordinateTransform.CheckLineCrossingProperties | src/uwb_line_tracker/coordinate_transform.py:346-360 | check_line_crossing fires iff the distances have strictly opposite signs or the current point lands on the line from off it; never from a point on the line or between two points on one side; on a proper line it is the same rule on the side values and does not depend on the line's orientation |
| CoordinateTransform.CrossingRulesRelation | src/uwb_line_tracker/coordinate_transform.py:356-360 | against detect_line_crossing of ds_twr.py: both agree when neither point is on the line, landing on the line fires only check_line_crossing, and leaving from the line fires only detect_line_crossing |
| CoordinateTransform.FirstNonNegative | src/uwb_line_tracker/coordinate_transform.py:360 | a sequence going from negative to positive has a first non-negative index |
| CoordinateTransform.MonotonePassFiresOnce | src/uwb_line_tracker/coordinate_transform.py:356-360 | along strictly increasing values from negative to positive each rule fires at exactly one step: the check rule on reaching the first non-negative sample, the ds_twr rule at the same step or one step later when that sample is exactly on the line |
| CoordinateTransform.NormalizeScales | src/uwb_line_tracker/coordinate_transform.py:182-187 | a vector of norm below 1e-10 is returned unchanged, any other is divided by its norm; documents the helper of the frame construction that the `fit` parameter stands for, and is called by nothing else in the model |
| CoordinateTransform.Transformer.constructor | src/uwb_line_tracker/coordinate_transform.py:196-204 | a new transformer is uncalibrated, with no transform, no reference and no anchors |
| CoordinateTransform.Transformer.Calibrate | src/uwb_line_tracker/coordinate_transform.py:210-279 | True iff both lists have three anchors and the fit succeeds; fewer than three changes nothing; otherwise the first three anchors and anchor 0 as reference are stored before the fit; a failed fit leaves the flag and transform as they were, a successful one is installed whatever its determinant |
| CoordinateTransform.Transformer.Transform | src/uwb_line_tracker/coordinate_transform.py:281-306 | None exactly when not calibrated, otherwise the GNSS image of R p + t relative to the reference anchor |
| CoordinateTransform.Transformer.GetAnchorGnss | src/uwb_line_tracker/coordinate_transform.py:308-312 | None at or past the end, Python list indexing below it, negative indices from the end and IndexError below -len |
| CoordinateTransform.CalibrateThenTransform | src/uwb_line_tracker/coordinate_transform.py:223-306 | after calibrate on three or more anchors, transform is defined exactly when the fit succeeded, and then it applies the fitted transform relative to gnss[0] |
| Models.PayloadScalars | src/uwb_line_tracker/models.py:58-83 | the payload's frame_id, timestamp_ns and line_crossing read back as the frame's, and its anchor and measurement lists have the frame's lengths |
| Models.AnchorFromDict | src/uwb_line_tracker/models.py:20-22 | a parsed anchor has the dict's "id"; a missing "id" fails with that error, and a missing "position" after a present "id" with that one |
| Models.AnchorDictRoundTrip | src/uwb_line_tracker/models.py:62-64 | the anchor dict written by to_payload reads back through from_dict as the same anchor |
| Models.AnchorsFromConfig | src/uwb_line_tracker/models.py:86-87 | one anchor per item, each item's own from_dict result, in order; a failure means some item fails |
| Models.ConfigAnchorsValue | src/uwb_line_tracker/config.py:11-14 | the configured anchors parse as A at the origin and B at (25, 0, 0) |
| Fifo.KeepNewest | src/uwb_line_tracker/serial_comm.py:333-341 | the newest cap elements of a sequence, as a suffix of it |
| Fifo.OfferProperties | src/uwb_line_tracker/serial_comm.py:333-341 | putting into a full queue first drops the oldest item: the queue stays within capacity, ends with the new item and keeps the order of the rest |
| Fifo.OfferAllKeepsNewest | src/uwb_line_tracker/serial_comm.py:333-341 | after any run of puts the queue holds exactly the newest cap items ever put |
| Fifo.OfferBatch | src/uwb_line_tracker/serial_comm.py:333-341 | putting one more batch keeps the newest cap items of the whole run |
| Fifo.OfferOne | src/uwb_line_tracker/serial_comm.py:333-341 | putting one more item keeps the newest cap items of the whole run |
| Fifo.DrainLast | src/uwb_line_tracker/serial_comm.py:347-354 | draining the queue returns its newest item, or None when it is empty |
| Fifo.DrainAll | src/uwb_line_tracker/serial_comm.py:356-364 | draining into a list returns all items, oldest first |
| AnchorCalibration.InsertReal | src/uwb_line_tracker/anchor_calibration.py:111 | insertion into the sorted samples adds exactly one element and keeps them sorted |
| AnchorCalibration.SortReals | src/uwb_line_tracker/anchor_calibration.py:111 | the samples in ascending order, as a permutation of them |
| AnchorCalibration.MedianBounds | src/uwb_line_tracker/anchor_calibration.py:111 | np.median lies within any bounds of the samples |
| AnchorCalibration.MedianOfEqual | src/uwb_line_tracker/anchor_calibration.py:111 | one sample, or equal samples, are their own median |
| AnchorCalibration.TargetOf | src/uwb_line_tracker/anchor_calibration.py:108-111 | a key writes a cell inside the n×n matrix, is skipped, or is out of range for NumPy indexing |
| AnchorCalibration.RawCellMeasured | src/uwb_line_tracker/anchor_calibration.py:106-111 | with positive samples a cell after the first loop is non-negative, and non-zero exactly when some key writes it |
| AnchorCalibration.MeasuredByKey | src/uwb_line_tracker/anchor_calibration.py:108-111 | a cell is written when a key for it has samples, including a negative key that NumPy wraps onto it |
| AnchorCalibration.BuiltMatrixProperties | src/uwb_line_tracker/anchor_calibration.py:106-127 | build_distance_matrix returns None exactly when some pair i < j was measured in neither direction; a built matrix is n×n with every off-diagonal cell positive, taken from the cell or, if it was never written, from its mirror |
| AnchorCalibration.BuiltMatrixSymmetric | src/uwb_line_tracker/anchor_calibration.py:115-127 | without negative keys a built matrix is symmetric |
| AnchorCalibration.RawCellOwnKey | src/uwb_line_tracker/anchor_calibration.py:108-111 | without negative keys a cell holds the median of its own key's samples, or 0 when that key is absent |
| AnchorCalibration.OwnTarget | src/uwb_line_tracker/anchor_calibration.py:109 | a key without negative indices writes its own cell and only when it has samples |
| AnchorCalibration.MissingInRaw | src/uwb_line_tracker/anchor_calibration.py:117-119 | the matrix after the first loop misses a pair exactly when the samples do |
| AnchorCalibration.SymOfRaw | src/uwb_line_tracker/anchor_calibration.py:121-124 | the symmetrising of the second loop gives each cell its own value when non-zero and its mirror's otherwise |
| AnchorCalibration.BuiltFromCells | src/uwb_line_tracker/anchor_calibration.py:106-127 | the symmetrised n×n cells are what a successful build returns |
| AnchorCalibration.BuildMatrix | src/uwb_line_tracker/anchor_calibration.py:106-127 | the two loops over a fresh zero array return exactly the specified build: IndexError below -n, None for a missing pair, else the symmetrised matrix |
| AnchorCalibration.PairDoneStep | src/uwb_line_tracker/anchor_calibration.py:115-116 | one step of the inner loop finishes exactly the two cells of its pair |
| AnchorCalibration.RawMatrix | src/uwb_line_tracker/anchor_calibration.py:106-111 | the cells after the first loop form an n×n matrix |
| AnchorCalibration.FillMedians | src/uwb_line_tracker/anchor_calibration.py:108-111 | the first loop fails exactly when some key is out of range, and otherwise leaves every cell holding its specified value |
| AnchorCalibration.RawCellStep | src/uwb_line_tracker/anchor_calibration.py:108-111 | one more key overwrites its own cell and leaves the others as they were |
| AnchorCalibration.Symmetrize | src/uwb_line_tracker/anchor_calibration.py:115-124 | the second loop stops exactly at a pair zero in both directions, and otherwise leaves every cell symmetrised |
| AnchorCalibration.SymmetrizeRow | src/uwb_line_tracker/anchor_calibration.py:116-124 | the inner loop for row i stops only at a missing pair, and otherwise fills both cells of each pair (i, j > i) |
| AnchorCalibration.TranslateToView | src/uwb_line_tracker/anchor_calibration.py:163 | the translation keeps one row per node |
| AnchorCalibration.TranslateToViewProperties | src/uwb_line_tracker/anchor_calibration.py:162-163 | the reference node lands on the origin and every difference between two nodes is kept |
| AnchorCalibration.FlipY | src/uwb_line_tracker/anchor_calibration.py:208-211 | the flip keeps one row per node |
| AnchorCalibration.FlipYProperties | src/uwb_line_tracker/anchor_calibration.py:208-211 | after the flip anchor 2, when present, has y ≥ 0; x never changes; either every y is kept or every y is negated; flipping again changes nothing |
| AnchorCalibration.PositionsOf | src/uwb_line_tracker/anchor_calibration.py:243-251 | one position per coordinate row, with ids 0 .. n-1 in order and z = 0 |
| AnchorCalibration.ToMetres | src/uwb_line_tracker/anchor_calibration.py:229 | the metre matrix has the shape of the millimetre one |
| AnchorCalibration.EmbeddingAnchorTwo | src/uwb_line_tracker/anchor_calibration.py:233-239 | a successful embedding of more than two anchors puts anchor 2 at y ≥ 0 |
| AnchorCalibration.NdarrayTruthAmbiguous | src/uwb_line_tracker/anchor_calibration.py:224 | `not` on an n×n NumPy matrix with n ≥ 2 raises ValueError |
| AnchorCalibration.CalibrationResultProperties | src/uwb_line_tracker/anchor_calibration.py:233-253 | a successful calibration lists exactly n anchors with ids 0 .. n-1 in order, all at z = 0, and with more than two anchors anchor 2 has y ≥ 0 |
| AnchorCalibration.PairsOfCovers | src/uwb_line_tracker/anchor_calibration.py:272-279 | every key i < j has an entry "A{i}-A{j}" in "pairs" |
| AnchorCalibration.PairsOfEntries | src/uwb_line_tracker/anchor_calibration.py:272-279 | every entry of "pairs" belongs to a key i < j and carries that key's statistics |
| AnchorCalibration.PairsOfStats | src/uwb_line_tracker/anchor_calibration.py:275-279 | every entry counts at least one sample, has a positive mean and a non-negative std that is 0 for one sample |
| AnchorCalibration.StatsProperties | src/uwb_line_tracker/anchor_calibration.py:276-278 | for positive samples: count is their number, the mean is positive, the std non-negative and 0 for one sample |
| AnchorCalibration.TruncateMatrixBlock | src/uwb_line_tracker/anchor_calibration.py:330 | the truncated matrix is the top-left block of at most n×n entries of the input, exactly n×n when the input is large enough |
| AnchorCalibration.CalibrateFromDistanceMatrix | src/uwb_line_tracker/anchor_calibration.py:315-332 | the truncation's error (IndexError for no rows, ValueError for ragged ones), or the calibration of the truncated matrix |
| AnchorCalibration.CalibrateFromRanges | src/uwb_line_tracker/anchor_calibration.py:284-312 | the loop records nothing and the build goes through the code as written: with one or more anchors the result is None (a missing pair, or a 1x1 zero matrix that `not` treats as failure), with none it is `Unsupported` |
| AnchorCalibration.AsWrittenGuardRaises | src/uwb_line_tracker/anchor_calibration.py:224 | two anchors measured once each way build a matrix, and the guard's `not` on it raises ValueError |
| AnchorCalibration.Calibrator.constructor | src/uwb_line_tracker/anchor_calibration.py:47-56 | no samples, no matrix, no positions |
| AnchorCalibration.Calibrator.Reset | src/uwb_line_tracker/anchor_calibration.py:58-62 | no samples, no matrix, no positions |
| AnchorCalibration.Calibrator.AddDistanceMeasurement | src/uwb_line_tracker/anchor_calibration.py:64-86 | a distance ≤ 0 changes nothing; otherwise it is appended to both directions of the pair (twice to one list for an anchor with itself), new keys entering in order, and the matrix and positions are untouched |
| AnchorCalibration.Calibrator.SetDistanceMatrix | src/uwb_line_tracker/anchor_calibration.py:88-96 | the matrix is stored and nothing else changes |
| AnchorCalibration.Calibrator.BuildDistanceMatrix | src/uwb_line_tracker/anchor_calibration.py:98-127 | the specified build of the stored samples, stored only when it succeeds |
| AnchorCalibration.Calibrator.CalibrateAsWritten | src/uwb_line_tracker/anchor_calibration.py:215-259 | the code as written: a stored matrix is embedded and kept; otherwise a built matrix is stored and goes through `not`, which raises ValueError for n ≥ 2; the positions become the first n embedded points exactly when an embedding is computed, and are kept otherwise |
| AnchorCalibration.Calibrator.Calibrate | src/uwb_line_tracker/anchor_calibration.py:215-259 | the corrected calibrate: a stored matrix is embedded; otherwise the build's IndexError, None for a missing pair, or the embedding of the built matrix, which is stored; the positions become the first n embedded points exactly when an embedding is computed, and are kept otherwise |
| AnchorCalibration.Calibrator.EmbedAndStore | src/uwb_line_tracker/anchor_calibration.py:233-259 | the try block's result, with the positions appended before a failure kept |
| AnchorCalibration.Calibrator.GetPositions | src/uwb_line_tracker/anchor_calibration.py:261-263 | the calibrated positions last stored, None before any calibration stored them |
| AnchorCalibration.Calibrator.GetDistanceInfo | src/uwb_line_tracker/anchor_calibration.py:265-281 | the loop builds the specified info: num_pairs counts the directed keys and pairs holds the statistics of each key i < j |
| AnchorCalibration.AddKeepsWellFormed | src/uwb_line_tracker/anchor_calibration.py:73-86 | adding a positive sample keeps the samples well formed: distinct keys, positive lists, both directions holding the same list |
| AnchorCalibration.AddPairKeepsWellFormed | src/uwb_line_tracker/anchor_calibration.py:77-86 | a sample for two distinct anchors goes to both directions of the pair |
| AnchorCalibration.AddSelfKeepsWellFormed | src/uwb_line_tracker/anchor_calibration.py:77-86 | a sample for one anchor with itself goes twice to its list |
| Trilateration.LocalOnFirstSphere | src/uwb_line_tracker/trilateration.py:249-260 | z of a fix is non-negative, and the fix either lies on the first sphere or is the plane point outside it when the spheres do not meet |
| Trilateration.LiftOnFirstSphere | src/uwb_line_tracker/trilateration.py:255-260 | z is the root of r1² - x² - y² when that is non-negative, and 0 otherwise |
| Trilateration.LocalCoincidentSecond | src/uwb_line_tracker/trilateration.py:228-231 | p2 on top of p1 fails the first length guard |
| Trilateration.LocalCoincidentThird | src/uwb_line_tracker/trilateration.py:235-243 | p3 on top of p1 fails the second length guard |
| Trilateration.TrilaterateDegenerate | src/uwb_line_tracker/trilateration.py:203-243 | fewer than three anchors or distances, or anchor 1 or 2 on top of anchor 0, give None |
| Trilateration.TrilaterateTranslation | src/uwb_line_tracker/trilateration.py:196-268 | moving all anchors by one offset moves the fix by that offset, and a failure stays a failure |
| Trilateration.TrilaterateFirstThree | src/uwb_line_tracker/trilateration.py:207-212 | entries after the third play no part in the solve |
| Trilateration.UsableBelowProperties | src/uwb_line_tracker/trilateration.py:178-181 | the collected indices below k are exactly the usable ones (positive distance, within the table, set slot), in increasing order |
| Trilateration.AtAppend | src/uwb_line_tracker/trilateration.py:180-181 | one more usable index appends its anchor and its distance in metres |
| Trilateration.AtPrefix | src/uwb_line_tracker/trilateration.py:188-191 | taking the first n selected entries commutes with looking up their anchors and distances |
| Trilateration.PythonLocationFirstThree | src/uwb_line_tracker/trilateration.py:168-194 | the Python fallback uses every usable index and no other, in order; fewer than three give None; otherwise the first three usable anchors with their distances in metres are solved |
| Trilateration.UsableSelection | src/uwb_line_tracker/trilateration.py:178-181 | the selection holds every usable index and no other, in increasing order |
| Trilateration.FirstThreeAt | src/uwb_line_tracker/trilateration.py:188-191 | the first three selected anchors and distances are those of the first three selected indices |
| Trilateration.Engine.constructor | src/uwb_line_tracker/trilateration.py:47-61 | eight empty slots, and the native library used exactly when one was found |
| Trilateration.Engine.SetAnchor | src/uwb_line_tracker/trilateration.py:93-102 | an id outside 0..7 changes nothing; otherwise only that slot changes, to the given point |
| Trilateration.Engine.SetAnchors | src/uwb_line_tracker/trilateration.py:104-113 | the first eight dicts fill slots 0, 1, … in order with missing coordinates read as 0; the other slots keep their value |
| Trilateration.Engine.GetLocationPython | src/uwb_line_tracker/trilateration.py:168-194 | the collecting loop computes the specified fallback fix |
| Trilateration.Engine.GetLocation | src/uwb_line_tracker/trilateration.py:115-128 | the native library's answer when one was loaded, the Python fallback's otherwise |
| Trilateration.SlotValueLookup | src/uwb_line_tracker/trilateration.py:302-305 | a slot no item names stays -1; a named slot holds int() of the last distance given for it |
| Trilateration.SlotValueUnnamed | src/uwb_line_tracker/trilateration.py:302-305 | a slot no item names stays -1 |
| Trilateration.SlotValueLast | src/uwb_line_tracker/trilateration.py:303-305 | a slot holds int() of the last distance given for it |
| Trilateration.PositionCalculator.constructor | src/uwb_line_tracker/trilateration.py:278-280 | a fresh engine with empty slots and no last position |
| Trilateration.PositionCalculator.DistanceArray | src/uwb_line_tracker/trilateration.py:302-305 | eight slots, each holding its specified value: -1 unless named, else int() of its last distance |
| Trilateration.PositionCalculator.CalculatePosition | src/uwb_line_tracker/trilateration.py:291-311 | the engine's fix for the distance array; the last position changes only when a fix is found |
| TrilaterationWrapper.CountPositive | src/uwb_line_tracker/trilateration_wrapper.py:186 | the count of positive distances is at most their number |
| TrilaterationWrapper.Truncated | src/uwb_line_tracker/trilateration_wrapper.py:182-183 | at most eight distances are kept |
| TrilaterationWrapper.DistanceSlotsFaithful | src/uwb_line_tracker/trilateration_wrapper.py:192-196 | in-range (32-bit) distances land in their c_int slots unchanged, every slot past the input is -1, and the positive slots are exactly the positive inputs |
| TrilaterationWrapper.DistanceSlotsPadded | src/uwb_line_tracker/trilateration_wrapper.py:192-196 | the distance buffer is the input padded with -1 to eight slots |
| TrilaterationWrapper.CountPositiveNegativeTail | src/uwb_line_tracker/trilateration_wrapper.py:186 | padding with -1 adds no positive distance |
| TrilaterationWrapper.TruncatedPrefix | src/uwb_line_tracker/trilateration_wrapper.py:182-186 | truncation keeps the first eight entries and never adds a positive one |
| TrilaterationWrapper.CountPositivePrefix | src/uwb_line_tracker/trilateration_wrapper.py:186 | a prefix has no more positive distances than the whole |
| TrilaterationWrapper.Engine.constructor | src/uwb_line_tracker/trilateration_wrapper.py:63-74 | a zeroed anchor buffer, every distance slot -1, no anchors, and the library loaded as found |
| TrilaterationWrapper.Engine.SetAnchors | src/uwb_line_tracker/trilateration_wrapper.py:140-164 | more than eight anchors raise ValueError and change nothing; otherwise the buffer holds the anchors then zeros and the anchor list is the input |
| TrilaterationWrapper.Engine.CalculatePosition | src/uwb_line_tracker/trilateration_wrapper.py:166-214 | None without a library or with fewer than three positive distances among the first eight, the buffer untouched; otherwise the buffer holds the wrapped distances padded with -1, and a non-negative status yields the location the native routine wrote |
| TrilaterationWrapper.CalculateTagPosition | src/uwb_line_tracker/trilateration_wrapper.py:238-257 | None without a library and ValueError for more than eight anchors, both leaving the shared engine unchanged; otherwise set_anchors followed by calculate_position on the stored anchors, the engine then holding the new anchors, and either the old distance buffer and location (fewer than three positive distances) or the refilled buffer and the location the native routine wrote |
| SerialHandler.TokensWith | src/uwb_line_tracker/serial_handler.py:240 | a successful comprehension has one value per token of the slice |
| SerialHandler.TokensWithValues | src/uwb_line_tracker/serial_handler.py:240 | a successful comprehension holds, in order, the parsed value of every token of the slice |
| SerialHandler.TokensWithFailure | src/uwb_line_tracker/serial_handler.py:240 | the comprehension fails exactly when some token of the slice fails to parse |
| SerialHandler.RangeTokensMeaning | src/uwb_line_tracker/serial_handler.py:240 | the range tokens are "-1" as -1 and the rest read as hexadecimal, and the slice fails exactly on an unreadable token |
| SerialHandler.SplitRoleProperties | src/uwb_line_tracker/serial_handler.py:250-253 | the role is the first character; the base id is what follows up to the first colon; a tag id exists exactly when a colon follows, and base ':' tag then starts the rest; empty and one-character tokens give empty base and tag |
| SerialHandler.ParseTokensLayout | src/uwb_line_tracker/serial_handler.py:232-306 | the accepted layouts: `ma` with 11 or 15 tokens (ranges 2..5 or 2..9, role token 9 or 13), `mc`/`mi` with at least 11 (role token 9) or 7 to 10 (role token second to last), nothing else; type, user byte, timestamp and raw text come from the frame |
| SerialHandler.ParseTokensRanges | src/uwb_line_tracker/serial_handler.py:238-245 | a parsed frame has 4 ranges, or 8 for a 15-token `ma` frame, each -1 or the hex value of its token |
| SerialHandler.ParseDataRejects | src/uwb_line_tracker/serial_handler.py:219-230 | empty text, another prefix or fewer than five space-separated tokens give None; anything parsed went through the token layouts |
| SerialHandler.AllOnesIsNotMinusOne | src/uwb_line_tracker/serial_handler.py:240 | the module's "no measurement" token ffffffff reads as 4294967295, not -1 |
| SerialHandler.AnchorRangesFilter | src/uwb_line_tracker/serial_handler.py:308-336 | a record exists iff the role is "a", the base id is an integer and some range lies strictly between 10 and 100000 mm; it names exactly those slots with their values, never -1 or 4294967295 |
| SerialHandler.KeptUpToAll | src/uwb_line_tracker/serial_handler.py:324-327 | filling slot by slot keeps exactly the valid slots seen so far |
| SerialHandler.KeepValidRanges | src/uwb_line_tracker/serial_handler.py:324-327 | the dict-filling loop keeps exactly the valid slots with their ranges |
| SerialHandler.ExtractAnchorRanges | src/uwb_line_tracker/serial_handler.py:308-336 | the method computes the specified anchor-range record |
| SerialHandler.TerminatedIdempotent | src/uwb_line_tracker/serial_handler.py:144-145 | a written command ends in CRLF, starts with the command, and terminating twice changes nothing |
| SerialHandler.BufferReassembles | src/uwb_line_tracker/serial_handler.py:183-188 | the complete frames and the kept tail rejoin with CRLF to the buffer, and neither the frames nor the tail contain CRLF |
| SerialHandler.ProcessorFor | src/uwb_line_tracker/serial_handler.py:185-187 | a blank frame reports nothing; any other is stripped and processed |
| SerialHandler.FramesEventsAppend | src/uwb_line_tracker/serial_handler.py:185-187 | the reports of consecutive batches of frames concatenate |
| SerialHandler.FramesEventsStep | src/uwb_line_tracker/serial_handler.py:185-187 | one more frame adds what is reported for it |
| SerialHandler.FramesEventsSkipBlank | src/uwb_line_tracker/serial_handler.py:186 | blank frames can be dropped without changing the reports |
| SerialHandler.Handler.constructor | src/uwb_line_tracker/serial_handler.py:50-66 | not connected, not calibrating, empty buffer, nothing written, no callbacks |
| SerialHandler.Handler.SendCommand | src/uwb_line_tracker/serial_handler.py:138-151 | True iff connected and the write succeeds; then the CRLF-terminated command is written; no other state changes |
| SerialHandler.Handler.StartCalibration | src/uwb_line_tracker/serial_handler.py:153-160 | the calibrating flag is raised exactly when $ancrangestart was sent; the callbacks are unchanged |
| SerialHandler.Handler.StopCalibration | src/uwb_line_tracker/serial_handler.py:162-168 | the calibrating flag is lowered exactly when $ancrangestop was sent; the callbacks are unchanged |
| SerialHandler.Handler.Receive | src/uwb_line_tracker/serial_handler.py:174-194 | one chunk: the buffer keeps the tail after the last CRLF, and the reports are those of every complete frame in order |
| SerialHandler.Handler.ProcessFrames | src/uwb_line_tracker/serial_handler.py:185-187 | the frame loop reports what the specified processor reports for the frames in order |
| SerialHandler.Handler.ProcessFrame | src/uwb_line_tracker/serial_handler.py:196-217 | a parsed frame goes to the range callback, and in calibration mode its anchor ranges go to the anchor callback |
| SerialReceiver.Invalidated | src/uwb_line_tracker/serial_receiver.py:175-178 | a stored range never exceeds 0x7FFFFFFF, and a non-negative value stays at least -1 |
| SerialReceiver.InvalidateAll | src/uwb_line_tracker/serial_receiver.py:172-178 | one value per input, none above 0x7FFFFFFF, and every value up to 0x7FFFFFFF kept unchanged |
| SerialReceiver.ReadRanges | src/uwb_line_tracker/serial_receiver.py:171-178 | the range loop gives the values of the range specification (None when a token is not hexadecimal) |
| SerialReceiver.ReadStep | src/uwb_line_tracker/serial_receiver.py:172-178 | one more loop pass appends the next token's invalidated value and keeps all earlier ones |
| SerialReceiver.RangeValuesMeaning | src/uwb_line_tracker/serial_receiver.py:172-178 | the loop fails exactly when some token is not hexadecimal; otherwise it holds, in order, each token's value with values above 0x7FFFFFFF replaced by -1 |
| SerialReceiver.RangeValuesFails | src/uwb_line_tracker/serial_receiver.py:173-221 | a single unreadable token makes the whole frame fail |
| SerialReceiver.RangeValuesComplete | src/uwb_line_tracker/serial_receiver.py:172-178 | conversely, any sequence holding each token's invalidated value in order is what the loop gives |
| SerialReceiver.ParseTokensShape | src/uwb_line_tracker/serial_receiver.py:164-217 | only a first token of exactly "mc" with 11 or 15 tokens parses; the result has eight ranges, none above 0x7FFFFFFF, the first four (or eight) the invalidated token values, the rest -1; timestamp and role token are tokens 10/9 or 14/13 |
| SerialReceiver.ParseTokensFields | src/uwb_line_tracker/serial_receiver.py:167-215 | a parsed frame has 11 or 15 tokens, its ranges are the loop's values (padded with four -1 for 11 tokens), and type, user byte, timestamp, role and ids come from the tokens |
| SerialReceiver.PaddedRanges | src/uwb_line_tracker/serial_receiver.py:172-193 | the stored ranges number eight: the token values, then -1 up to eight |
| SerialReceiver.ParseDataOnlyMc | src/uwb_line_tracker/serial_receiver.py:161-217 | a parsed frame's first token is "mc"; a frame starting with "mi" passes the prefix test but never parses |
| SerialReceiver.AllOnesTokenInvalid | src/uwb_line_tracker/serial_receiver.py:174-176 | the token ffffffff is stored as -1 |
| SerialReceiver.SignBitTokenInvalid | src/uwb_line_tracker/serial_receiver.py:175-176 | the token 80000000, the first value past 0x7FFFFFFF, is stored as -1 |
| SerialReceiver.LargestTokenKept | src/uwb_line_tracker/serial_receiver.py:175-178 | the token 7fffffff is stored unchanged |
| SerialReceiver.SplitRoleProperties | src/uwb_line_tracker/serial_receiver.py:197-204 | without a colon the role is the first character and the base id the rest, tag empty; with colons a result exists only when the rest is base ':' tag with no further colon |
| SerialReceiver.Receiver.constructor | src/uwb_line_tracker/serial_receiver.py:50-64 | empty queue, no callback, calibration off with an empty buffer, port closed |
| SerialReceiver.Receiver.SendCommand | src/uwb_line_tracker/serial_receiver.py:282-297 | succeeds exactly when the port is open and the write succeeds; then the command, CRLF-terminated unless it already is, is the one thing written; nothing else changes |
| SerialReceiver.Receiver.EnterCalibrationMode | src/uwb_line_tracker/serial_receiver.py:299-311 | writes "la" with CRLF under the send rule; the calibration flag, the port, the callback and the calibration buffer are unchanged |
| SerialReceiver.Receiver.ExitCalibrationMode | src/uwb_line_tracker/serial_receiver.py:313-315 | writes "les" with CRLF under the send rule; the calibration flag, the port, the callback and the calibration buffer are unchanged |
| SerialReceiver.Receiver.HandleParsedData | src/uwb_line_tracker/serial_receiver.py:223-249 | the item is enqueued with drop-oldest at capacity 100, the callback fires exactly when set, and in calibration mode a copy of the ranges with the clock reading and base id is recorded |
| SerialReceiver.Receiver.GetLatestData | src/uwb_line_tracker/serial_receiver.py:251-256 | None on an empty queue; otherwise the oldest queued item, removed from the queue; the port and the bytes written are unchanged |
| SerialReceiver.Receiver.GetAllData | src/uwb_line_tracker/serial_receiver.py:258-266 | every queued item, oldest first, and the queue is left empty; the port and the bytes written are unchanged |
| SerialReceiver.Receiver.StartCalibration | src/uwb_line_tracker/serial_receiver.py:268-272 | calibration mode on with an empty buffer; queue, callback, port and bytes written unchanged |
| SerialReceiver.Receiver.StopCalibration | src/uwb_line_tracker/serial_receiver.py:274-280 | calibration off; returns everything collected in order and empties the buffer; the port and the bytes written are unchanged |
| SerialReceiver.Receiver.ReceiveChunk | src/uwb_line_tracker/serial_receiver.py:128-156 | every complete CRLF frame of buffer plus data is stripped, parsed and handled in order (queue, callback count, calibration samples); the incomplete tail is the new buffer |
| SerialReceiver.Receiver.HandleFrames | src/uwb_line_tracker/serial_receiver.py:143-150 | handling a run of frames equals offering their parsed items in order, calling back once per item and recording one sample per item in calibration mode |
| SerialReceiver.Receiver.HandleFrame | src/uwb_line_tracker/serial_receiver.py:145-150 | a blank or unparsable frame changes nothing; a parsed one is handled once |
| SerialReceiver.FrameItems | src/uwb_line_tracker/serial_receiver.py:145-150 | a frame contributes at most one item |
| SerialReceiver.Samples | src/uwb_line_tracker/serial_receiver.py:244-249 | one calibration sample per handled item |
| SerialReceiver.PrefixStep | src/uwb_line_tracker/serial_receiver.py:143-150 | the items of one more frame extend those of the frames before it |
| SerialReceiver.SamplesStep | src/uwb_line_tracker/serial_receiver.py:143-249 | recording one more batch after a run records the samples of the whole run |
| SerialReceiver.SamplesAppend | src/uwb_line_tracker/serial_receiver.py:244-249 | the samples of consecutive batches concatenate |
| SerialComm.Cut | src/uwb_line_tracker/serial_comm.py:235-240 | a cut always leaves a strictly shorter buffer, so the framing loop ends |
| SerialComm.CutProperties | src/uwb_line_tracker/serial_comm.py:235-242 | the loop runs exactly while the buffer holds an LF or a CR; a cut line stops at the first LF, and at a CR only when there is no LF, holding no CR then |
| SerialComm.Lines | src/uwb_line_tracker/serial_comm.py:235-246 | the buffer left after framing is no longer than the input |
| SerialComm.LinesProperties | src/uwb_line_tracker/serial_comm.py:235-246 | no cut line holds an LF; the leftover buffer holds neither LF nor CR and is a suffix of the input |
| SerialComm.LinesMatchSplit | src/uwb_line_tracker/serial_comm.py:235-238 | without any CR the framing agrees with splitting on LF: every piece but the last is a line, the last is the leftover |
| SerialComm.RunEndMaximal | src/uwb_line_tracker/serial_comm.py:308 | each `+` run of the pattern is maximal: all of it is in its character class and the next character is not |
| SerialComm.MatchAt | src/uwb_line_tracker/serial_comm.py:308-319 | the pattern gives three numbers at a position exactly when every group and separator is non-empty there |
| SerialComm.SearchFromSound | src/uwb_line_tracker/serial_comm.py:309 | the search reports only a position where the pattern matches |
| SerialComm.SearchFromLeftmost | src/uwb_line_tracker/serial_comm.py:309 | every matching position at or after the start is the reported one or follows it, so the search is leftmost and fails only when nothing matches |
| SerialComm.LineItems | src/uwb_line_tracker/serial_comm.py:245-328 | a cut line contributes at most one measurement, none when it is empty |
| SerialComm.JsonWins | src/uwb_line_tracker/serial_comm.py:277-287 | an object holding the three keys as integers gives that measurement, whatever the CSV or pattern readings would be |
| SerialComm.ScalarSwallowsLine | src/uwb_line_tracker/serial_comm.py:279-328 | a decoded number, boolean or null makes the `in` test raise, and the line gives nothing |
| SerialComm.CsvRoundTrip | src/uwb_line_tracker/serial_comm.py:274-302 | a line "i,j,d" that the decoder rejects is read back as (i, j, d), whatever further comma fields follow |
| SerialComm.CsvMeasureRoundTrip | src/uwb_line_tracker/serial_comm.py:292-301 | the CSV branch reads back the first three fields of "i,j,d" |
| SerialComm.CommaFreeNotCsv | src/uwb_line_tracker/serial_comm.py:292-293 | text without a comma has too few fields for the CSV branch |
| SerialComm.PatternExample | src/uwb_line_tracker/serial_comm.py:306-318 | the text "A0-A1: 25000" gives anchors 0 and 1 at 25000 mm |
| SerialComm.Comm.constructor | src/uwb_line_tracker/serial_comm.py:38-60 | not connected, empty queue, no callback, calibration mode off |
| SerialComm.Comm.SendCommand | src/uwb_line_tracker/serial_comm.py:151-172 | succeeds exactly when connected and the write succeeds; then the bytes are written as given, with no terminator added; nothing else changes |
| SerialComm.Comm.EnterCalibrationMode | src/uwb_line_tracker/serial_comm.py:174-199 | sends CALIBRATE with CRLF; the mode flag is raised exactly when the send succeeded; connection, queue and callback unchanged |
| SerialComm.Comm.ExitCalibrationMode | src/uwb_line_tracker/serial_comm.py:201-215 | sends EXIT_CAL with CRLF; the mode flag is lowered exactly when the send succeeded; connection, queue and callback unchanged |
| SerialComm.Comm.HandleRangeData | src/uwb_line_tracker/serial_comm.py:330-345 | drop-oldest enqueue at capacity 100, and the callback fires exactly when set |
| SerialComm.Comm.ProcessLine | src/uwb_line_tracker/serial_comm.py:244-328 | one line: its measurement, if any, is enqueued and called back; an empty or unreadable line changes nothing |
| SerialComm.Comm.ReceiveData | src/uwb_line_tracker/serial_comm.py:228-246 | one pass of the receive loop equals offering, in order, the measurements of every line framed from buffer plus data, calling back once per measurement; the leftover buffer is returned |
| SerialComm.Comm.GetLatestRange | src/uwb_line_tracker/serial_comm.py:347-355 | drains the queue and returns its newest item, or None when empty; the callback and the bytes written are unchanged |
| SerialComm.Comm.GetAllRanges | src/uwb_line_tracker/serial_comm.py:357-365 | every queued item in FIFO order; the queue is left empty; the callback and the bytes written are unchanged |
| SerialComm.SplitOnce | src/uwb_line_tracker/serial_comm.py:237-240 | the split at the head of the loop body is the framing step Cut |
| SerialComm.FramingStep | src/uwb_line_tracker/serial_comm.py:235-240 | the lines cut so far grow by the line just cut, and the leftover is unchanged |
| SerialComm.LinesStep | src/uwb_line_tracker/serial_comm.py:235-246 | the measurements of the lines so far grow by those of the next line |
| UdpReceiver.UpLinkRecord | src/uwb_line_tracker/udp_receiver.py:149-155 | a tag record read from an UpLink carries the datagram's timestamp |
| UdpReceiver.RangeRecord | src/uwb_line_tracker/udp_receiver.py:174-204 | a range record read from an object carries the datagram's timestamp |
| UdpReceiver.RangeElements | src/uwb_line_tracker/udp_receiver.py:197-198 | iterating a list visits exactly its items |
| UdpReceiver.ElementRecords | src/uwb_line_tracker/udp_receiver.py:198-218 | the RangeData loop enqueues no more records than there are elements |
| UdpReceiver.TagItems | src/uwb_line_tracker/udp_receiver.py:148-170 | a datagram yields at most one tag record |
| UdpReceiver.OneCommand | src/uwb_line_tracker/udp_receiver.py:145-196 | a payload matches at most one of UpLink, AnchorRange and RangeData |
| UdpReceiver.OtherCommandsIgnored | src/uwb_line_tracker/udp_receiver.py:145-196 | any other or missing command leaves both queues alone |
| UdpReceiver.NonObjectIgnored | src/uwb_line_tracker/udp_receiver.py:145-223 | a payload that is not an object yields nothing (its missing `get` raises) |
| UdpReceiver.CommandsExclusive | src/uwb_line_tracker/udp_receiver.py:148-196 | an UpLink yields no range record, and a range command no tag record |
| UdpReceiver.UpLinkDefaults | src/uwb_line_tracker/udp_receiver.py:149-155 | an UpLink with no other field gives tag 0 at the origin with the datagram's timestamp |
| UdpReceiver.UpLinkFields | src/uwb_line_tracker/udp_receiver.py:149-155 | an UpLink with numeric fields gives exactly those values |
| UdpReceiver.AnchorRangeOne | src/uwb_line_tracker/udp_receiver.py:173-179 | an AnchorRange with integer or absent fields gives exactly one record, absent fields read as 0 |
| UdpReceiver.AnchorRangeAtMostOne | src/uwb_line_tracker/udp_receiver.py:173-193 | an AnchorRange never yields more than one record |
| UdpReceiver.ElementRecordsInOrder | src/uwb_line_tracker/udp_receiver.py:198-204 | record k of a RangeData list is read from element k |
| UdpReceiver.ElementRecordsComplete | src/uwb_line_tracker/udp_receiver.py:198-218 | when every element reads without raising, every element yields a record |
| UdpReceiver.ElementRecordsStop | src/uwb_line_tracker/udp_receiver.py:198-223 | an element that raises ends the loop: nothing from it on is enqueued |
| UdpReceiver.Receiver.constructor | src/uwb_line_tracker/udp_receiver.py:67-77 | both queues empty, no callbacks, not running |
| UdpReceiver.Receiver.Start | src/uwb_line_tracker/udp_receiver.py:91-110 | true at once when already running; otherwise running, and true, exactly when the socket could be bound |
| UdpReceiver.Receiver.Stop | src/uwb_line_tracker/udp_receiver.py:112-123 | no longer running |
| UdpReceiver.Receiver.SetCallback | src/uwb_line_tracker/udp_receiver.py:83-85 | a tag callback is set |
| UdpReceiver.Receiver.SetRangeCallback | src/uwb_line_tracker/udp_receiver.py:87-89 | a range callback is set |
| UdpReceiver.Receiver.PutTag | src/uwb_line_tracker/udp_receiver.py:158-166 | drop-oldest enqueue on the tag queue at capacity 100 |
| UdpReceiver.Receiver.PutRange | src/uwb_line_tracker/udp_receiver.py:182-189 | drop-oldest enqueue on the range queue at capacity 100 |
| UdpReceiver.Receiver.ProcessData | src/uwb_line_tracker/udp_receiver.py:139-223 | the datagram's tag and range records are offered to their queues in order, and the callbacks see exactly those records when set |
| UdpReceiver.Receiver.PutElements | src/uwb_line_tracker/udp_receiver.py:198-218 | the RangeData loop offers each element's record in order until one raises, calling back on each when set |
| UdpReceiver.Receiver.PutDelivered | src/uwb_line_tracker/udp_receiver.py:206-218 | one more record is enqueued and then handed to the callback |
| UdpReceiver.Receiver.GetLatestData | src/uwb_line_tracker/udp_receiver.py:225-233 | drains the tag queue and returns its newest item, or None |
| UdpReceiver.Receiver.GetAllData | src/uwb_line_tracker/udp_receiver.py:235-243 | every queued tag record, oldest first; the queue is left empty |
| UdpReceiver.Receiver.GetLatestRange | src/uwb_line_tracker/udp_receiver.py:245-253 | drains the range queue and returns its newest item, or None |
| UdpReceiver.Receiver.GetAllRanges | src/uwb_line_tracker/udp_receiver.py:255-263 | every queued range record, oldest first; the queue is left empty |
| UdpReceiver.RecordsGrow | src/uwb_line_tracker/udp_receiver.py:198-204 | while the elements so far read without raising, the next one that reads extends the records |
| UdpReceiver.RecordsStop | src/uwb_line_tracker/udp_receiver.py:198-204 | the first element that raises ends the records |
| GnssReceiver.ReadMessage | src/uwb_line_tracker/gnss_receiver.py:129-141 | a record read from a message carries the receive timestamp |
| GnssReceiver.MissingFieldRejected | src/uwb_line_tracker/gnss_receiver.py:131-133 | a message without client_id, lat or lng is rejected |
| GnssReceiver.NumericMessageAccepted | src/uwb_line_tracker/gnss_receiver.py:135-141 | a message with numeric fields is stored with exactly those values; a missing alt reads as 0.0 |
| GnssReceiver.NonObjectNotStored | src/uwb_line_tracker/gnss_receiver.py:131-162 | only an object is ever stored |
| GnssReceiver.Receiver.constructor | src/uwb_line_tracker/gnss_receiver.py:13-59 | empty table and queue, no callback, not running; whether pyzmq is present is fixed |
| GnssReceiver.Receiver.Start | src/uwb_line_tracker/gnss_receiver.py:69-92 | false without pyzmq; true at once when running; otherwise running, and true, exactly when the connect succeeded |
| GnssReceiver.Receiver.Stop | src/uwb_line_tracker/gnss_receiver.py:94-110 | no longer running |
| GnssReceiver.Receiver.SetCallback | src/uwb_line_tracker/gnss_receiver.py:65-67 | a callback is set |
| GnssReceiver.Receiver.ProcessData | src/uwb_line_tracker/gnss_receiver.py:127-162 | a rejected message changes nothing; an accepted one overwrites its client's entry, is offered drop-oldest to the queue and handed to the callback when set |
| GnssReceiver.Receiver.GetLatestData | src/uwb_line_tracker/gnss_receiver.py:164-179 | with a client id, that client's entry or None and the queue untouched; without one, the queue is drained and its newest item returned |
| GnssReceiver.Receiver.GetAnchorData | src/uwb_line_tracker/gnss_receiver.py:181-183 | the entry of that anchor id, or None; the queue is untouched |
| GnssReceiver.Receiver.AllAnchors | src/uwb_line_tracker/gnss_receiver.py:185-192 | exactly the ids 0, 1 and 2 that have an entry, each with that entry |
| GnssReceiver.Receiver.HasAllAnchorsIffComplete | src/uwb_line_tracker/gnss_receiver.py:185-197 | has_all_anchors holds exactly when all three ids have entries, i.e. when get_all_anchors returns all three |
| TcpServer.FramesMatchSplit | src/uwb_line_tracker/tcp_server.py:98-99 | the framing loop is splitting on LF: every piece but the last is a line, the last stays buffered |
| TcpServer.FramesRejoin | src/uwb_line_tracker/tcp_server.py:95-99 | nothing is lost or invented: the lines and the kept tail, joined with LF, are the buffer, and none of them holds an LF |
| TcpServer.FramesAppend | src/uwb_line_tracker/tcp_server.py:92-99 | data arriving in pieces is framed as if it had arrived at once |
| TcpServer.CutLine | src/uwb_line_tracker/tcp_server.py:99 | one split at the first LF: the buffer shrinks, and the line is the first frame and the first piece of the split |
| TcpServer.BlankSkipped | src/uwb_line_tracker/tcp_server.py:100-101 | a line is skipped exactly when it is all whitespace |
| TcpServer.ForwardedIff | src/uwb_line_tracker/tcp_server.py:103-113 | a line is forwarded exactly when it is not blank and decodes to an object holding client_id, lat and lng whose lat and lng accept the fixed-point format; the decoded message itself is what goes out |
| TcpServer.MissingKeyDropped | src/uwb_line_tracker/tcp_server.py:107-115 | a decoded object missing a required key is dropped, not forwarded |
| TcpServer.UndecodableDropped | src/uwb_line_tracker/tcp_server.py:116-117 | a line that is not JSON is dropped and the connection goes on |
| TcpServer.FailureCases | src/uwb_line_tracker/tcp_server.py:104-123 | bytes that are not UTF-8, a message on which `in` raises and a string lat each end the connection |
| TcpServer.RunSticky | src/uwb_line_tracker/tcp_server.py:88-123 | after a failure no later line has any effect |
| TcpServer.RunMatchesForwardedBy | src/uwb_line_tracker/tcp_server.py:98-113 | the messages sent are, in order, those of the lines forwarded before any failure |
| TcpServer.RunFailsIff | src/uwb_line_tracker/tcp_server.py:88-123 | a run of lines fails exactly when one of its lines fails |
| TcpServer.RunPrepend | src/uwb_line_tracker/tcp_server.py:98-123 | a failing first line ends everything; a forwarded one is sent before the rest; a skipped or dropped one changes nothing |
| TcpServer.ForwardedAreValid | src/uwb_line_tracker/tcp_server.py:107-113 | every forwarded message is an object holding client_id, lat and lng |
| TcpServer.StreamEnd | src/uwb_line_tracker/tcp_server.py:89-94 | the loop reads no more receives than there are |
| TcpServer.StreamEndSpec | src/uwb_line_tracker/tcp_server.py:92-94 | the loop ends at the first empty receive: every receive before it is non-empty |
| TcpServer.AfterEmptyIgnored | src/uwb_line_tracker/tcp_server.py:93-94 | nothing is read after an empty receive |
| TcpServer.FailureEndsConnection | src/uwb_line_tracker/tcp_server.py:120-123 | once the lines so far have failed, the run of the whole connection is theirs |
| TcpServer.Server.constructor | src/uwb_line_tracker/tcp_server.py:21-45 | no PUSH socket, nothing sent, no stop requested; whether pyzmq is present is fixed |
| TcpServer.Server.Start | src/uwb_line_tracker/tcp_server.py:47-67 | the PUSH socket exists exactly when pyzmq does, and the stop flag is cleared |
| TcpServer.Server.Stop | src/uwb_line_tracker/tcp_server.py:126-128 | a stop is requested |
| TcpServer.Server.SendLine | src/uwb_line_tracker/tcp_server.py:100-117 | one more line is handled: sent when forwarded and the socket exists; the failure flag is that of the run |
| TcpServer.Server.DrainBuffer | src/uwb_line_tracker/tcp_server.py:98-117 | every complete line of the buffer is handled in order until one fails; without a failure the tail after the last LF remains |
| TcpServer.Server.HandleClient | src/uwb_line_tracker/tcp_server.py:83-124 | the messages sent are those of the run of every line of the bytes read before the first empty receive or the first failure; without a failure the bytes after the last LF stay buffered |
| Terminal.MapAllStops | src/uwb_line_tracker/terminal.py:24-48 | once an item of the loop raises, the whole conversion raises that exception |
| Terminal.MapAllOk | src/uwb_line_tracker/terminal.py:24-48 | a successful conversion keeps length and order: element i is what item i gave |
| Terminal.MapAllOfValues | src/uwb_line_tracker/terminal.py:24-48 | conversely, items that each convert make the conversion give the list of their values |
| Terminal.AnchorsFromPayload | src/uwb_line_tracker/terminal.py:20-31 | the loop builds, in order, one anchor per payload item from its id and converted position, or the first exception |
| Terminal.MeasurementsFromPayload | src/uwb_line_tracker/terminal.py:34-48 | the loop builds, in order, one measurement per payload item from its two ids and five float fields, or the first exception |
| Terminal.AnchorsRoundTrip | src/uwb_line_tracker/terminal.py:20-31 | the anchor list that frame serialisation writes reads back as the frame's anchors, in order |
| Terminal.MeasurementsRoundTrip | src/uwb_line_tracker/terminal.py:34-48 | the measurement list that frame serialisation writes reads back as the frame's measurements with all seven fields |
| Terminal.ReadAllPointwise | src/uwb_line_tracker/terminal.py:24-48 | a converted list has one element per payload item, each converted from that item |
| Terminal.HandleFrameBookkeeping | src/uwb_line_tracker/terminal.py:80-123 | handling a frame leaves the frame count alone; the history gains exactly one record at its end when the frame is reported, and is untouched when a step raises |
| Terminal.RecordBookkeeping | src/uwb_line_tracker/terminal.py:99-123 | the steps after the estimate append one history record exactly when they all succeed |
| Terminal.FirstFrameAtZero | src/uwb_line_tracker/terminal.py:99-102 | the first reported frame fixes the zero at its own timestamp and is reported at 0 ms |
| Terminal.LaterFrameRelative | src/uwb_line_tracker/terminal.py:99-102 | once fixed the zero stays, and a frame is reported (t - t0) / 1e6 ms after it |
| Terminal.HandledFrame | src/uwb_line_tracker/terminal.py:84-123 | a reported frame shows the anchor list exactly when none was shown before, marks it shown, and records frame id, timestamp, estimate and crossing |
| Terminal.FrameHandlerBehaves | src/uwb_line_tracker/terminal.py:80-123 | the frame handler counts and records as above, and shows the anchors once, for every state and frame |
| Terminal.RunCounts | src/uwb_line_tracker/terminal.py:61-78 | every reported frame is counted and recorded once; a closed connection has reported every line; the frame limit, when it ends the run, has just been reached and not before |
| Terminal.StopsAtLimit | src/uwb_line_tracker/terminal.py:72-75 | with a positive frame limit m a fresh client stops after exactly m frames, and closes first only when fewer than m lines arrived |
| Terminal.AnchorsShownOnce | src/uwb_line_tracker/terminal.py:84-92 | only the first frame of a run can show the anchor list, and it does when none was shown before |
| Terminal.Client.constructor | src/uwb_line_tracker/terminal.py:52-59 | no zero timestamp, anchors not shown, no frames seen, empty history, the given frame limit |
| Terminal.Client.ReadLists | src/uwb_line_tracker/terminal.py:81-82 | the frame's anchor and measurement lists, or the first exception |
| Terminal.Client.HandleFrame | src/uwb_line_tracker/terminal.py:80-123 | the new state and the report are those of the frame handling function, whose properties are the lemmas above |
| Terminal.Client.Record | src/uwb_line_tracker/terminal.py:99-123 | the steps after the estimate, as specified by the record function |
| Terminal.Client.HandleWith | src/uwb_line_tracker/terminal.py:80-123 | handling a frame is the handler that the run specification threads |
| Terminal.Client.Consume | src/uwb_line_tracker/terminal.py:67-75 | one loop pass: the line's exception ends the run, or the frame is handled, counted and reported and the frame limit tested |
| Terminal.Client.Run | src/uwb_line_tracker/terminal.py:61-78 | the final state, the reports printed and how the connection ended are those of the run specification |
| Terminal.ReplayedTail | src/uwb_line_tracker/terminal.py:126-138 | nothing for an empty history; everything without a limit or with 0; the last min(limit, len) records for a positive limit; a negative limit skips that many records at the front |
| Simulator.SetupSucceeds | src/uwb_line_tracker/simulator.py:24-47 | construction succeeds exactly with at least two anchors whose first two differ in XY and a non-negative history limit; fewer than two anchors is ValueError; the line runs from the first anchor to the second |
| Simulator.PerpendicularUnit | src/uwb_line_tracker/simulator.py:37-45 | the perpendicular is a unit vector orthogonal to the line |
| Simulator.SignedDistanceAgrees | src/uwb_line_tracker/simulator.py:80-83 | the phase logic's signed distance equals the signed distance to the line of ds_twr, so "above" is "left of A to B" |
| Simulator.AlongShifts | src/uwb_line_tracker/simulator.py:88-97 | moving d along the perpendicular changes the signed distance by exactly d |
| Simulator.StartBelowLine | src/uwb_line_tracker/simulator.py:56-62 | the tag starts approach_distance_m below the line |
| Simulator.Velocity | src/uwb_line_tracker/simulator.py:204-211 | the velocity times max(dt, 1 ms) is the move just made, and vz is 0 |
| Simulator.MovingStep | src/uwb_line_tracker/simulator.py:85-109 | the approach and crossing steps put the tag approach_speed * dt further along the perpendicular |
| Simulator.TagMoves | src/uwb_line_tracker/simulator.py:204-211 | each tick keeps the tag id and sets the velocity from the move over max(dt, 1 ms) |
| Simulator.ApproachStep | src/uwb_line_tracker/simulator.py:85-101 | approach moves the tag along the perpendicular and turns to crossing, starting now at the new position, exactly when the new signed distance is non-negative; otherwise nothing but the tag changes |
| Simulator.CrossingStep | src/uwb_line_tracker/simulator.py:103-125 | crossing keeps moving and turns to semicircle, starting at the new position with no centre, exactly when the XY distance from the crossing start reaches crossing_to_anchor_line_m (default 12.5) |
| Simulator.SemicircleStep | src/uwb_line_tracker/simulator.py:127-202 | the semicircle returns to approach, at the approach start and with centre and start cleared, exactly when the arc's progress reaches 1; before that the tag is at the interpolated point and the centre, anchor A moved left by 0.3 radius, stays fixed |
| Simulator.PhaseCycle | src/uwb_line_tracker/simulator.py:85-202 | each tick keeps its phase or moves on along approach, crossing, semicircle, approach |
| Simulator.UpdateKeepsValid | src/uwb_line_tracker/simulator.py:115-132 | every tick keeps the crossing and semicircle start positions set in their phases, so the fallbacks for a missing start are never taken |
| Simulator.Measurements | src/uwb_line_tracker/simulator.py:221-231 | one measurement per anchor |
| Simulator.MeasurementPerAnchor | src/uwb_line_tracker/simulator.py:221-231 | measurement i is taken by anchor i of the tag, at the true distance plus noise sample i, with the configured reply time |
| Simulator.RegattaSimulator.constructor | src/uwb_line_tracker/simulator.py:24-68 | frame 0, empty history bounded by history_limit, phase approach with no start position, the tag at rest at the approach start, which is also the previous position |
| Simulator.RegattaSimulator.UpdateTagState | src/uwb_line_tracker/simulator.py:74-211 | the new motion state is that of the tick function, whose steps are the lemmas above |
| Simulator.RegattaSimulator.ApproachTick | src/uwb_line_tracker/simulator.py:85-101 | the approach branch gives the phase step's state and position |
| Simulator.RegattaSimulator.CrossingTick | src/uwb_line_tracker/simulator.py:103-125 | the crossing branch gives the phase step's state and position |
| Simulator.RegattaSimulator.SemicircleTick | src/uwb_line_tracker/simulator.py:127-202 | the semicircle branch gives the phase step's state and position |
| Simulator.RegattaSimulator.GenerateFrame | src/uwb_line_tracker/simulator.py:213-256 | the clock advances by the tick, the tag moves by one tick, the frame carries the anchors, the tag, one measurement per anchor and a crossing record exactly when detect_line_crossing fires from the previous position; it is appended to the bounded history and the frame id grows by one |
| Simulator.RegattaSimulator.EmitFrame | src/uwb_line_tracker/simulator.py:221-256 | the frame for the current tag, recorded in the bounded history, with the previous position updated |
| Simulator.HistoryKeepsNewest | src/uwb_line_tracker/simulator.py:33-254 | the history never exceeds history_limit and is the last history_limit frames generated |
| MainApp.TimingStats.constructor | src/uwb_line_tracker/main_app.py:52-57 | start, end and crossing times all unset |
| MainApp.TimingStats.Reset | src/uwb_line_tracker/main_app.py:59-62 | all three times are unset again |
| MainApp.PushSpeed | src/uwb_line_tracker/main_app.py:793-795 | the new sample is last in the history |
| MainApp.PushSpeedKeepsNewest | src/uwb_line_tracker/main_app.py:793-795 | within the window, appending and popping the front keeps exactly the ten newest samples |
| MainApp.KeepNewestTwice | src/uwb_line_tracker/main_app.py:793-795 | trimming to the ten newest twice is trimming once over the whole run |
| MainApp.SumNonNegative | src/uwb_line_tracker/main_app.py:797 | a sum of non-negative speed samples is non-negative |
| MainApp.InstantSpeed | src/uwb_line_tracker/main_app.py:785-790 | the planar speed is non-negative and, times the packet gap, is the distance moved in XY |
| MainApp.SpeedRule | src/uwb_line_tracker/main_app.py:782-800 | a packet less than 1 s (and more than 0 s) after the previous one appends its instant speed to the ten newest and the readout becomes their mean; the first packet resets the readout to 0; any other packet leaves both alone |
| MainApp.PacketFields | src/uwb_line_tracker/main_app.py:767-803 | a packet records its position, the previous one, its time and one more packet, and its speed fields follow the speed rule |
| MainApp.PacketInTwoSteps | src/uwb_line_tracker/main_app.py:767-825 | the packet update is the recording half followed by the crossing half |
| MainApp.PacketLatch | src/uwb_line_tracker/main_app.py:809-819 | once set, the crossing latch and both recorded times stay; while clear it is set exactly when a previous position exists and check_line_crossing holds, with crossing and end time the packet's time |
| MainApp.PacketKeepsValid | src/uwb_line_tracker/main_app.py:767-825 | every packet keeps the window at most ten non-negative samples with the readout their mean (0 when empty), the latch set exactly when a crossing time is, and end time equal to crossing time |
| MainApp.ReplayKeepsValid | src/uwb_line_tracker/main_app.py:765-825 | any run of packets keeps that invariant |
| MainApp.ReplayKeepsLatch | src/uwb_line_tracker/main_app.py:810 | once the latch is set no run of packets clears it or moves the recorded crossing and end times |
| MainApp.ReplayWindow | src/uwb_line_tracker/main_app.py:793-795 | after any run the speed history is exactly the ten newest samples ever recorded |
| MainApp.OnGnssSlots | src/uwb_line_tracker/main_app.py:395-416 | an anchor id 0-2 fills its own slot and touches nothing else; any other id only replaces the direct tag position; calibration is scheduled exactly when the flag goes from clear to set, which needs all three slots filled, and the flag never clears |
| MainApp.ScheduledOnce | src/uwb_line_tracker/main_app.py:407-411 | over any run of GNSS messages auto-calibration is scheduled at most once, exactly when the flag goes from clear to set, and the flag ends set exactly when it was set or all three slots are filled |
| MainApp.SlotsStayFilled | src/uwb_line_tracker/main_app.py:398-401 | slots are only ever filled, never emptied |
| MainApp.Present | src/uwb_line_tracker/main_app.py:435 | the filled slots in order: all of them when all are filled, fewer otherwise |
| MainApp.TimeToLine | src/uwb_line_tracker/main_app.py:848-855 | a time to the line is shown only above 0.01 m/s, below 1000 s, and is distance over speed |
| MainApp.TimeToLineShown | src/uwb_line_tracker/main_app.py:848-855 | the time is shown exactly when the speed exceeds 0.01 and the distance is under 1000 s at that speed, and is then non-negative |
| MainApp.App.constructor | src/uwb_line_tracker/main_app.py:295-358 | the default anchors (0,0,0), (25,0,0), (12.5,10,0), three empty GNSS slots, flag clear, no tag, speed 0, latch clear, no start time, an uncalibrated transformer |
| MainApp.App.OnGnssData | src/uwb_line_tracker/main_app.py:395-416 | the slot update and scheduling decision of the GNSS rule above |
| MainApp.App.AutoCalibrate | src/uwb_line_tracker/main_app.py:427-444 | nothing unless the flag is set and all three slots are filled; otherwise the transformer is calibrated from the three UWB anchors and the three slots, with anchor 0 as reference, and the result is whether the fit succeeded |
| MainApp.App.ManualCalibrate | src/uwb_line_tracker/main_app.py:705-712 | refused until all three slots are filled; then the flag is set and the transformer is calibrated from the UWB anchors and the three slots, its transform becoming the fit exactly when the fit succeeds; the slots are unchanged |
| MainApp.App.SetGnssAnchors | src/uwb_line_tracker/main_app.py:925-932 | the first three given positions fill the slots in order, the rest keep their value; when all are filled the flag is set and the transformer takes the UWB anchors and the slots, its transform becoming the fit exactly when the fit succeeds; otherwise the transformer is unchanged |
| MainApp.App.ApplyAnchorSettings | src/uwb_line_tracker/main_app.py:584-593 | the dialog's three anchors replace the UWB anchors, and calibration reruns exactly when the flag is set and the slots are filled, the transformer then taking the new anchors and the slots with its transform the fit when it succeeds; otherwise the transformer is unchanged; the slots and the flag are unchanged |
| MainApp.App.ResetTiming | src/uwb_line_tracker/main_app.py:714-721 | all times unset and the latch cleared |
| MainApp.App.StartTiming | src/uwb_line_tracker/main_app.py:723-727 | a reset, then the start time is the current time |
| MainApp.App.RecordPacket | src/uwb_line_tracker/main_app.py:767-803 | the counter, the previous and new position, the speed history and readout under the speed rule, and the packet's time |
| MainApp.App.LatchCrossing | src/uwb_line_tracker/main_app.py:809-825 | with a previous position and the latch clear, a crossing sets the latch and records the packet's time as crossing and end time; the duration is shown when a start time is set (0.0 counts as unset) |
| MainApp.App.ProcessUwbData | src/uwb_line_tracker/main_app.py:765-825 | the tracking state follows the packet rule; with a calibrated transformer the GNSS tag position is the transform of the new position; the duration is shown exactly when this packet sets the latch and a start time is set |
| MainApp.App.TransformTag | src/uwb_line_tracker/main_app.py:806-807 | with a calibrated transformer the GNSS tag position becomes the transform of the new position, otherwise it stays |
| MainApp.App.UpdateMetrics | src/uwb_line_tracker/main_app.py:827-855 | without a tag, speed 0 and two placeholders; otherwise the current speed, the absolute distance to the line through anchors 0 and 1, and the time to the line shown exactly when the speed exceeds 0.01 and it is under 1000 s |
| Visualizer.ExtendedXs | src/uwb_line_tracker/visualizer.py:194-200 | the anchors' x coordinates in order, followed by the two sideways extremes |
| Visualizer.ExtendedYs | src/uwb_line_tracker/visualizer.py:195-201 | the anchors' y coordinates in order, followed by the approach and post-crossing extremes |
| Visualizer.Setup | src/uwb_line_tracker/visualizer.py:144-207 | the start fails with IndexError exactly when fewer than two anchors are configured |
| Visualizer.InitialBoundsContainAnchors | src/uwb_line_tracker/visualizer.py:194-207 | every anchor lies inside the initial bounds with at least 5 m to spare on each side |
| Visualizer.InitialBoundsExtents | src/uwb_line_tracker/visualizer.py:197-207 | with non-negative extents the bounds are the anchor extremes pushed out by the semicircle radius sideways, by the approach distance below and the post-crossing distance above, plus 5 m |
| Visualizer.Expand | src/uwb_line_tracker/visualizer.py:287-292 | the new bounds contain the old ones and enclose the point with the 2 m margin |
| Visualizer.ExpandIsLeast | src/uwb_line_tracker/visualizer.py:287-292 | they are the smallest such bounds |
| Visualizer.ExpandEnclosed | src/uwb_line_tracker/visualizer.py:287-292 | a point already enclosed with the margin changes nothing |
| Visualizer.GrowsKeepsEnclosed | src/uwb_line_tracker/visualizer.py:287-292 | growing the bounds keeps every enclosed point enclosed |
| Visualizer.SpanX | src/uwb_line_tracker/visualizer.py:302 | at least 1 and at least the x extent |
| Visualizer.SpanY | src/uwb_line_tracker/visualizer.py:303 | at least 1 and at least the y extent |
| Visualizer.Scale | src/uwb_line_tracker/visualizer.py:304 | both spans times the scale fit inside the padded canvas |
| Visualizer.ScaleIsSmallerAxis | src/uwb_line_tracker/visualizer.py:304 | the scale is one of the two axis scales and at most either |
| Visualizer.ScalePositive | src/uwb_line_tracker/visualizer.py:295-304 | a canvas larger than twice the 40 px padding in both directions has a positive scale |
| Visualizer.ScaleNonNegative | src/uwb_line_tracker/visualizer.py:295-304 | a canvas at least twice the padding has a non-negative scale |
| Visualizer.WorldToCanvasOrientation | src/uwb_line_tracker/visualizer.py:294-307 | on a canvas larger than the padding the mapping keeps the order of x and reverses the order of y |
| Visualizer.WorldToCanvasCorner | src/uwb_line_tracker/visualizer.py:294-307 | the bottom-left corner of the bounds lands at (40, height - 40), a zero-sized canvas counting as 800 by 500 |
| Visualizer.WorldToCanvasInside | src/uwb_line_tracker/visualizer.py:294-307 | a point inside the bounds lands inside the padded canvas |
| Visualizer.PyReal | src/uwb_line_tracker/visualizer.py:257-259 | the elements hypot and the f format accept as numbers: ints, floats and bools |
| Visualizer.HypotArgs | src/uwb_line_tracker/visualizer.py:257 | the speed's arguments are the first two velocity items when both exist and are numbers; IndexError for a shorter tuple, TypeError otherwise |
| Visualizer.FormatArgs | src/uwb_line_tracker/visualizer.py:259 | the same for the position, evaluated left to right: IndexError for an empty tuple, a format error naming the first element when it is not a number |
| Visualizer.Read | src/uwb_line_tracker/visualizer.py:253-265 | a frame read succeeds only on a dictionary, and the reading carries that frame's timestamp_ns |
| Visualizer.CrossingUpdate | src/uwb_line_tracker/visualizer.py:267-268 | no update exactly when line_crossing is missing or falsy; otherwise the update is that crossing's timestamp_ns |
| Visualizer.AdvanceKeepsValid | src/uwb_line_tracker/visualizer.py:274-275 | taking a position keeps the path capped and enclosed, grows the bounds and encloses the new position |
| Visualizer.StepKeepsValid | src/uwb_line_tracker/visualizer.py:252-285 | every frame keeps the path within 2000 points all enclosed with the 2 m margin and never shrinks the bounds; a handled frame appends its position (the oldest dropped beyond 2000) and one history record; a frame whose reads fail changes nothing and raises that error |
| Visualizer.AfterReadKeepsValid | src/uwb_line_tracker/visualizer.py:267-285 | the same for the part after the reads |
| Visualizer.StepCrossing | src/uwb_line_tracker/visualizer.py:267-268 | the last crossing time changes only to the timestamp_ns of a truthy line_crossing in the frame; once set it stays set in the model, holding JNull when that timestamp_ns is null (Python None) |
| Visualizer.StepFor | src/uwb_line_tracker/visualizer.py:252 | the handler for the line through anchors A and B is the frame step for that line |
| Visualizer.Poll | src/uwb_line_tracker/visualizer.py:242-246 | no more frames are handled than were queued, and all of them when none raises |
| Visualizer.PollKeepsValid | src/uwb_line_tracker/visualizer.py:236-249 | any poll keeps the path invariant and never shrinks the bounds |
| Visualizer.VisualizerApp.constructor | src/uwb_line_tracker/visualizer.py:139-210 | line anchors A and B are the first two anchors; the initial bounds, an empty path, no crossing and no records |
| Visualizer.VisualizerApp.ExpandBounds | src/uwb_line_tracker/visualizer.py:287-292 | the bounds become the expansion of the old bounds by the point |
| Visualizer.VisualizerApp.AppendPosition | src/uwb_line_tracker/visualizer.py:274-275 | the path gets the point, capped at 2000, and the bounds are expanded around it |
| Visualizer.VisualizerApp.HandleFrame | src/uwb_line_tracker/visualizer.py:252-285 | the state and the outcome are the frame step's, and the invariant holds |
| Visualizer.VisualizerApp.PollFrames | src/uwb_line_tracker/visualizer.py:236-249 | the state, the number handled and the exception are the poll's; the canvas is redrawn exactly when at least one frame was handled and none raised |
| Upload.NoStarNoGlob | upload_to_github.py:23-34 | a path without a `*` contains no glob pattern taken literally |
| Upload.GlobsInertAsWritten | upload_to_github.py:20-35 | for any path without a `*`, the patterns as written ignore exactly what the plain patterns ignore, and reading the globs as globs adds exactly the paths ending in their suffixes |
| Upload.GlobTakenLiterally | upload_to_github.py:26-34 | "a.log" is not ignored as written, although the `*.log` pattern means to ignore it |
| Upload.HistoryModuleIgnored | upload_to_github.py:25-34 | the "history" pattern also keeps the history module itself from being uploaded, under both readings |
| Upload.ShouldIgnore | upload_to_github.py:29-35 | true exactly when some pattern occurs as a substring of the path, in whatever order the set is searched |
| Upload.ShouldIgnoreAsGlobs | upload_to_github.py:20-35 | true exactly when some plain pattern occurs in the path or the path ends in the suffix of some glob pattern |
| Upload.Uploadable | upload_to_github.py:37-43 | never more files than entries |
| Upload.UploadableMembers | upload_to_github.py:37-43 | a path is collected exactly when some entry with that path is a file and is not ignored |
| Upload.LogFileCollected | upload_to_github.py:37-43 | a tree holding only "a.log" uploads it |
| Upload.GetAllFiles | upload_to_github.py:37-43 | the files are the collected paths in rglob order |
| Upload.GithubPath | upload_to_github.py:190 | same length, no backslash left, and every other character unchanged |
| Upload.GithubPathIdentity | upload_to_github.py:190 | a path without backslashes keeps its name, and converting twice is converting once |
| Upload.CreateOrUpdateFile | upload_to_github.py:62-101 | the PUT body carries the message, the content and the base64 encoding, and the existing sha exactly when a 200 lookup returned a JSON object with a truthy sha; the upload succeeds exactly when the PUT answered 200 or 201 |
| Upload.Tally | upload_to_github.py:178-200 | every file is counted once, as a success, a failure or a skip |
| Upload.TallyAllReadable | upload_to_github.py:183-200 | when every file can be read nothing is skipped, and when moreover every PUT answers 201 all of them succeed |
| Upload.RunUpload | upload_to_github.py:135-203 | an empty user name after strip ends the run, then an empty token; a raised repository request ends it with that exception, a status other than 201 or 422 ends it; otherwise the counts are the tally over the collected files and add up to their number |
| Upload.UploadAll | upload_to_github.py:178-200 | the success, failure and skip counts are the tally |

## Left out

- Floating point is modelled as `real`. There is no rounding, NaN or Infinity, although `json.loads` accepts `NaN` and `Infinity` literals and the receivers pass them on. Integer fields are unbounded `int`; the 32-bit range of the serial tokens is written out where the source tests it.
- The square roots, `math.atan2`, `math.cos` and `math.sin`, the arc interpolation of the simulator's semicircle, the SVD of `_mds`, `_angle_rotation`, the WGS84 LLA/ECEF/ENU conversions, the rotation and translation fit of `calibrate`, and the native `GetLocation` routine are parameters. Their results are not modelled, only what the surrounding code does with them.
- Threads, stop events, locks, the socket and serial time-outs, `print`, logging, `time.sleep` and the clocks are left out. A time or a noise sample is an input.
- Opening, closing and listing serial ports (`connect`, `disconnect`, `start`, `stop`, `list_available_ports`) reduce to a connected flag. The serial, UDP, TCP and ZMQ sockets are replaced by the data they deliver.
- Two parts of the simulator are left out: the asyncio `SimulatorServer` broadcaster (simulator.py:259-365) and its argument parser.
- In the desktop application, `TCPServerManager` (main_app.py:227-290) and `_update_loop` (main_app.py:734-763) are left out. So are `_format_time`, the settings and transform dialogs apart from what their OK button returns, the canvas mapping `_transform_uwb_to_canvas`, and all drawing, map tiles and image loading.
- In the visualiser, `_redraw_canvas`, `show_history_window` (including its time formatting at visualizer.py:400), `SimulatorController` and `FrameReceiver` (process and socket control) are left out.
- The history store module `history.py` is not part of this model. The terminal's history file is the list of records appended to it.
- The upload script's HTTP requests, interactive prompts, file reads and base64 encoding are parameters. So is the percent-encoding of the URL path.
- The native-library search and loading in `trilateration.py` and `trilateration_wrapper.py` are left out. Whether a library was found is a constructor parameter.
- `calculate_position_meters` and `get_trilateration_engine` in `trilateration_wrapper.py` are left out. The first only calls `calculate_position`; the second is a global singleton. `last_position` and `is_dll_loaded` of `trilateration.py` are field reads.
- The unused receive queue and the debug counters of `serial_handler.py` are left out.
- GnssReceiver.ProcessData and UdpReceiver.ProcessData: a datagram or message that fails UTF-8 or JSON decoding is not modelled. Such an input is caught and dropped by the source, and both members start from the decoded value.
- Models.TupleAsVector: Python's `tuple(...)` builds a tuple of any length and element type. The model represents only three numbers; anything else gives `Unsupported`. Models.AnchorFromDict inherits this, and also gives `Unsupported` for a non-string id.
- Json.ParseFloatText: any text containing `e`, `E`, `i`, `I`, `n`, `N` or `_` gives `Unsupported`. That covers the exponents, `inf`, `nan` and digit underscores whose value Python computes, and also text such as `1e` or `n1` that Python rejects with `ValueError`.
- PyText.ParseInt and SerialComm.IsAsciiDigit accept only the ASCII digits 0-9. Python's `int()` and the `\d` of `re` also accept the other Unicode decimal digits, such as Arabic-Indic ones; text made of those is rejected by the model.
- Json.Iterate: iterating a non-empty dict gives `Unsupported`, where Python yields its keys. An empty dict gives the empty sequence, as in Python.
- Terminal.AnchorItem: a non-string id, or a position with other than three coordinates, gives `Unsupported`. Python would build such an anchor (terminal.py:28).
- Terminal.MeasurementItem: non-string anchor or tag ids give `Unsupported`.
- Terminal.CrossingSeconds: the `ValueError`, `OverflowError` and `OSError` that `datetime.fromtimestamp` raises for a time out of range (terminal.py:106) are not modelled. The conversion is taken to succeed.
- Terminal.Replayed: only which records a replay shows is modelled. Printing each one is left out, including its `datetime.fromtimestamp` range errors (terminal.py:135) and the unpacking of `estimate_xy`.
- Visualizer.Step: the same range errors of `datetime.fromtimestamp` in the crossing display (visualizer.py:271) are not modelled. Only the `TypeError` of dividing a value that is not a number is.
- CoordinateTransform.Transformer.Calibrate: the fit is one parameter returning `None` when the source's `try` block raises. The model then keeps the previous rotation and translation whole. The source assigns `_R` before `_t`, so a raise between the two would leave a new rotation with the old translation; with NumPy arithmetic that step cannot raise. The determinant warning is `print` only.
- AnchorCalibration.Calibrator.constructor: the anchor count is a `nat`. A negative count, for which `np.zeros` raises `ValueError` in `build_distance_matrix`, is not modelled.
- AnchorCalibration.NdarrayTruth: a 0x0 matrix (no anchors) gives `Unsupported`. Depending on the NumPy version, `not` on an empty array returns True with a deprecation warning or raises `ValueError`.
- UdpReceiver.Receiver.ProcessData: a range callback that raises part-way through a `RangeData` message is not modelled. In the source the exception ends the loop, the outer `except Exception` drops it, and the records already enqueued stay queued; the model hands every record to a callback that always returns.
- TrilaterationWrapper.Engine.CalculatePosition: an exception raised inside the native `GetLocation` call, which the source catches and turns into None (trilateration_wrapper.py:212-214), is not modelled. The native routine is a total parameter that always returns a status code and a location.
- MainApp.App.ApplyAnchorSettings requires exactly three anchors. The settings dialog always returns three (main_app.py:121-131).

## Findings

| source | as written | input that shows it | evidently intended | confidence | as-written member | corrected member |
|---|---|---|---|---|---|---|
| src/uwb_line_tracker/anchor_calibration.py:224 | `if not self.build_distance_matrix():` applies `not` to the NumPy matrix that a successful build returns. For two or more anchors the truth value of an array is ambiguous, and it raises `ValueError` outside the `try` block. | Two anchors, each pair measured once each way at 1000 mm. The build succeeds, and the guard raises instead of calibrating. | Test the result against `None`: return None only when building failed, otherwise calibrate from the built matrix. | not executed | AnchorCalibration.Calibrator.CalibrateAsWritten, AnchorCalibration.AsWrittenGuardRaises | AnchorCalibration.Calibrator.Calibrate |
| upload_to_github.py:29-35 | `should_ignore` tests each pattern of `IGNORE_PATTERNS` (lines 20-27) as a substring of the path. The glob patterns `*.swp`, `*.swo`, `*.jsonl`, `*.log`, `*.tmp` and `*.bak` contain a `*`, which no ordinary path does, so they never match. | The file `a.log`: no pattern occurs in it, so it is collected and uploaded. | Read `*X` as a glob and ignore every path ending in X; keep the substring test for the other patterns. | not executed | Upload.ShouldIgnore, Upload.GlobTakenLiterally, Upload.LogFileCollected | Upload.ShouldIgnoreAsGlobs, Upload.GlobsInertAsWritten |

The script as written is what `Upload.Uploadable`, `Upload.GetAllFiles` and `Upload.RunUpload` model. The corrected reading is `Upload.Ignored`, which `Upload.ShouldIgnoreAsGlobs` computes. `Upload.GlobsInertAsWritten` shows that the correction adds exactly the paths ending in a glob suffix, and changes nothing else for paths without a `*`. Under both readings the plain pattern `history` also keeps the module `src/uwb_line_tracker/history.py` out of the upload (`Upload.HistoryModuleIgnored`).
