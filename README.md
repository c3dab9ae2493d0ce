# Scanned-image edge detector, modelled in Dafny

This project models the core of `detect-scanned-image-edge-position`. For a photo of a scanned
document lying on a plain background, that tool finds the document's four corners and its
axis-aligned bounding box, and crops the image to that box. The batch driver runs the detector
over a directory of images, saves the images under the input's stem, and writes the corner and
box coordinates to a CSV file.

Modules, following the two core source files:

- `Wrappers`: `Option` and `Result`.
- `Sequences`: the list operations the detector relies on: built-in `max` and `list.index` on the arc lengths, `np.min` and `np.max` on the vertex coordinates, and the sum behind `np.average`.
- `Text`: `str` of an integer, `",".join`, and `str.split(",")` to read the CSV back.
- `Pixels`: images as grids of 8-bit samples, the HSV foreground rule of lines 31-41, and `np.bitwise_not`.
- `Geometry`: points, `calcOrthant`, the centroid, the bounding box, and Python slicing for the crop.
- `Detector`: `detect_scanned_image_edge_position`. It covers the longest contour, the
  simplification loop (`SimplifyContour`, a `while` loop proved against `Simplified`), the
  area filter, the corner lookup by quadrant, the twelve-field record, and the whole detector
  (`DetectScannedImageEdgePosition`, proved equal to the function `Detect`).
- `Batch`: `process_images_and_save`. The output directory is a class whose fields are the CSV
  file's text and the image files by name. Its method `ProcessImagesAndSave` runs the loop of
  `util.py`, reopening the CSV file in truncating mode on every iteration.

The OpenCV routines are not modelled. The detector takes them as the function values of a
`Library`: colour conversion, Otsu's threshold, external contours, arc length, polygon
approximation, contour area, and the drawing of the annotations. Every failure the source can
reach is a `Failure` value:

- `NoContours`: `max` of an empty list.
- `StillSimplifying`: the loop has not finished within the passes looked at.
- `NotQuadrilateral`: the early `(None, None)` return.
- `FilteredOut`: `contours[0]` of an empty filtered list.
- `MissingOrthant`: `orthants.index` raises.

Facts about the code that the model keeps:

- The area filter decides which contour the bounding box and corners come from. When the
  filter removes the quadrilateral, the detector fails.
- The code writes no `NaN` rows for failed files. Nothing catches a failure, so the first one ends the batch.
- The code names output images `stem + out_suffix`, with no numeric index.
- The code puts no iteration cap on the simplification loop.

## Model

| member | source | states |
|---|---|---|
| Sequences.MaxReal | src/detect_scanned_image_edge_position.py:56 | `max` of a non-empty list is one of its elements and no element exceeds it |
| Sequences.MinInt | src/detect_scanned_image_edge_position.py:79-80 | `np.min` is an element and a lower bound of every element |
| Sequences.MaxInt | src/detect_scanned_image_edge_position.py:81-82 | `np.max` is an element and an upper bound of every element |
| Sequences.IndexOf | src/detect_scanned_image_edge_position.py:57 | `list.index` fails exactly when the value is absent; otherwise it gives the first position holding the value |
| Text.NatString | src/detect_scanned_image_edge_position.py:114-127 | the digits of `str(n)` are non-empty, all decimal, and without a leading zero |
| Text.DecimalRoundTrip | src/detect_scanned_image_edge_position.py:114-127 | every integer written with `str` reads back as that same integer, negative ones included |
| Text.DecimalString | src/detect_scanned_image_edge_position.py:115-126 | `str` of an int: never empty, never contains a comma; its canonical form is stated by `DecimalStringCanonical` and its value by `DecimalRoundTrip` |
| Text.DecimalStringCanonical | src/detect_scanned_image_edge_position.py:115-126 | `str(n)` has a minus sign exactly when n is negative, then a non-empty run of digits with no leading zero, which is "0" exactly when n is 0 (no "-0", no "05") |
| Text.Join | src/util.py:40-42 | definition (`",".join`); characterised by `SplitJoin` and `SplitAtComma` |
| Text.SplitLength | src/util.py:40-42 | a line splits at commas into one more field than it has commas |
| Text.SplitAtComma | src/util.py:41-42 | splitting `a + "," + b` splits `a` and `b` independently |
| Text.SplitJoin | src/util.py:40-42 | `",".join` of comma-free fields splits back into exactly those fields |
| Pixels.MaskValue | src/detect_scanned_image_edge_position.py:31-41 | the integer mask sample is 0 or 255, and 255 exactly when the pixel passes the rule written with channel/255 against 0.3 and 0.7 |
| Pixels.ForegroundMask | src/detect_scanned_image_edge_position.py:31-41 | the grey image has the input's shape, and each sample is 255 exactly on foreground pixels and 0 elsewhere |
| Pixels.InvertInvolutive | src/detect_scanned_image_edge_position.py:48 | applying `bitwise_not` twice gives the image back |
| Pixels.Invert | src/detect_scanned_image_edge_position.py:48 | `np.bitwise_not` over the image (255 - v per sample); keeps the shape, characterised by `InvertInvolutive` and `InvertSwapsBinary` |
| Pixels.InvertSwapsBinary | src/detect_scanned_image_edge_position.py:46-48 | on a 0/255 image, `bitwise_not` keeps the image 0/255 and swaps foreground and background |
| Geometry.CalcOrthant | src/detect_scanned_image_edge_position.py:6-28 | the chain always yields a label in 1..4, never None; each label holds exactly when its pair of comparisons holds, with ties counted as left and top |
| Geometry.CompareWithMean | src/detect_scanned_image_edge_position.py:94-95 | comparing a coordinate with the mean of four is comparing four times it with their sum |
| Geometry.XCenter | src/detect_scanned_image_edge_position.py:94 | definition (`np.average` of the x column); characterised by `OrthantByIntegers` |
| Geometry.YCenter | src/detect_scanned_image_edge_position.py:95 | definition (`np.average` of the y column); characterised by `OrthantByIntegers` |
| Geometry.OrthantByIntegers | src/detect_scanned_image_edge_position.py:94-100 | the quadrant of a point around the average of four vertices is decided in integers by `4x` against the sum of x and `4y` against the sum of y |
| Geometry.BoundingBox | src/detect_scanned_image_edge_position.py:79-84 | width and height are non-negative, every vertex lies inside the box, and each of the four bounds is attained by a vertex |
| Geometry.PySlice | src/detect_scanned_image_edge_position.py:159 | a Python slice with in-range bounds is the plain subsequence |
| Geometry.Crop | src/detect_scanned_image_edge_position.py:159 | definition (`image[top:bottom, left:right]` with Python slicing); characterised by `CropExtent` and `CropOfBoundingBox` |
| Geometry.CropExtent | src/detect_scanned_image_edge_position.py:159 | a box inside the image crops to height rows of width pixels; pixel (i, j) of the crop is pixel (top+i, left+j), so the bottom row and right column are excluded |
| Geometry.CropOfBoundingBox | src/detect_scanned_image_edge_position.py:159 | the bounding box of vertices on a rectangular image crops to exactly height x width pixels |
| Detector.BinarizedMaskPolarity | src/detect_scanned_image_edge_position.py:43-48 | contours are found on Otsu's output as is when the background is black, and on its inverse when the background is white |
| Detector.BinarizedMask | src/detect_scanned_image_edge_position.py:31-48 | definition; characterised by `BinarizedMaskPolarity` and `LightBackgroundSwapsMask` |
| Detector.LightBackgroundSwapsMask | src/detect_scanned_image_edge_position.py:46-48 | on a white background, a 0/255 Otsu output reaches contour finding with 0 and 255 swapped and the shape unchanged |
| Detector.ArcLengths | src/detect_scanned_image_edge_position.py:55 | one `cv2.arcLength` per contour, in order; characterised by `LongestContourIsLongest` |
| Detector.LongestIndex | src/detect_scanned_image_edge_position.py:55-57 | an empty list fails with `NoContours`; otherwise the result indexes a greatest length and is the first such index |
| Detector.LongestContourIsLongest | src/detect_scanned_image_edge_position.py:50-58 | the detector fails at `max` exactly when there is no contour; otherwise the kept contour is an external contour of greatest arc length, the first of them, paired with that length |
| Detector.LongestContour | src/detect_scanned_image_edge_position.py:50-58 | definition; characterised by `LongestContourIsLongest` |
| Detector.Simplified | src/detect_scanned_image_edge_position.py:61-63 | a contour the loop exits with has at most 4 vertices |
| Detector.SimplifiedIsFirstExit | src/detect_scanned_image_edge_position.py:61-63 | the exit contour is the result of k passes at the one fixed tolerance, where k is the first pass count that leaves at most 4 vertices |
| Detector.SimplifiedNoExit | src/detect_scanned_image_edge_position.py:61-63 | when there is no exit within the passes looked at, every one of those passes left more than 4 vertices |
| Detector.SimplifiedMoreFuel | src/detect_scanned_image_edge_position.py:61-63 | looking further ahead never changes an exit already reached |
| Detector.SimplificationStalls | src/detect_scanned_image_edge_position.py:61-63 | if approximation leaves a contour of more than 4 vertices unchanged, the loop never exits |
| Detector.SimplifyContour | src/detect_scanned_image_edge_position.py:60-63 | the `while` loop, with epsilon recomputed as 10% of the longest arc length on each pass, ends in the outcome that `Simplified` specifies |
| Detector.AreaThreshold | src/detect_scanned_image_edge_position.py:71 | definition (`int(sum(image.shape[:2]) / 2)`); used by `AreaFilter` and `FinishOutcomes` |
| Detector.AreaFilter | src/detect_scanned_image_edge_position.py:70-72 | the filter keeps the quadrilateral exactly when its area exceeds `int((h + w) / 2)`, and otherwise keeps nothing |
| Detector.Orthants | src/detect_scanned_image_edge_position.py:97-100 | the four vertices get four labels, each in 1..4 and none None |
| Detector.CornerOf | src/detect_scanned_image_edge_position.py:101-103 | a lookup fails with `MissingOrthant(label)` exactly when no vertex has the label; otherwise it gives the first vertex with that label |
| Detector.LookupCorners | src/detect_scanned_image_edge_position.py:101-112 | the corners are found exactly when all four labels occur; otherwise the error names the first missing label in lookup order 1, 2, 3, 4 |
| Detector.LocateCorners | src/detect_scanned_image_edge_position.py:97-112 | definition (the orthant list, then the lookups for 1, 2, 3, 4); characterised by `CornersFoundIffDistinct`, `SharedQuadrantFails`, `CornerIndices` and `CornersArePermutedVertices` |
| Detector.CoverIffDistinct | src/detect_scanned_image_edge_position.py:97-112 | four labels from 1..4 cover all four values exactly when they are pairwise distinct |
| Detector.CornersFoundIffDistinct | src/detect_scanned_image_edge_position.py:97-112 | four vertices yield corners exactly when no two of them share a quadrant |
| Detector.SharedQuadrantFails | src/detect_scanned_image_edge_position.py:101-112 | two vertices in one quadrant make the lookup raise |
| Detector.CornerIndices | src/detect_scanned_image_edge_position.py:97-112 | found corners are taken from four different vertex positions, each labelled with its own quadrant |
| Detector.LabelledQuadrant | src/detect_scanned_image_edge_position.py:94-100 | a vertex labelled k passes quadrant k's test against the sums of the coordinates |
| Detector.CornersArePermutedVertices | src/detect_scanned_image_edge_position.py:94-112 | found corners are the four vertices, each used once, and each lies in the quadrant its name says, measured from the centroid |
| Detector.ResultRecord | src/detect_scanned_image_edge_position.py:114-127 | the record's keys are the twelve keys in the source's order |
| Detector.RecordReadsBack | src/detect_scanned_image_edge_position.py:114-127 | the twelve values read back as the corner coordinates, then left, top, width and height |
| Detector.RecordCommaFree | src/detect_scanned_image_edge_position.py:114-127 | no key and no value contains a comma |
| Detector.BoxOfPermutedCorners | src/detect_scanned_image_edge_position.py:79-112 | the bounding box of the vertices bounds the four corners, and each of its bounds is attained by a corner |
| Detector.RecordIntsConsistent | src/detect_scanned_image_edge_position.py:79-127 | corners around their centroid and a tight box give a record whose integers satisfy the consistency predicate |
| Detector.DetectScannedImageEdgePosition | src/detect_scanned_image_edge_position.py:5-161 | the detector, run step by step with the simplification loop as a method, ends in the outcome that `Detect` specifies |
| Detector.Detect | src/detect_scanned_image_edge_position.py:5-161 | definition of the whole detector; characterised by `DetectWithoutContours`, `DetectSimplified` with `FinishOutcomes`, `DetectedRecordConsistent` and `DetectedCropMatchesBox` |
| Detector.Finish | src/detect_scanned_image_edge_position.py:65-161 | definition of everything after the loop; characterised by `FinishOutcomes` and `FinishParts` |
| Detector.FinishFiltered | src/detect_scanned_image_edge_position.py:70-161 | definition, reading the filtered list's first contour; characterised by `FinishOutcomes` and `FinishParts` |
| Detector.DetectSimplified | src/detect_scanned_image_edge_position.py:54-65 | once a longest contour exists, the detector's outcome is the finish of the loop's outcome on it at 10% of its length |
| Detector.FinishOfLoopOutcome | src/detect_scanned_image_edge_position.py:61-65 | the finish of the outcome the loop method returns is the detector's outcome |
| Detector.FinishParts | src/detect_scanned_image_edge_position.py:65-161 | a detection comes from a 4-vertex contour above the area threshold with found corners; it consists of the annotation of that contour and its box, the crop to the box, and the record of the corners and box |
| Detector.FinishOutcomes | src/detect_scanned_image_edge_position.py:61-112 | after the loop the outcome is, case by case and each an if-and-only-if: still looping, not four vertices, filtered out, a shared quadrant, or a detection |
| Detector.DetectWithoutContours | src/detect_scanned_image_edge_position.py:50-56 | the detector fails with the `max` error exactly when the mask has no external contour |
| Detector.FinishedRecordConsistent | src/detect_scanned_image_edge_position.py:79-127 | a detection's record has the twelve keys, and its values read back as integers whose corners lie in their quadrants around their centroid inside a tight box |
| Detector.DetectedRecordConsistent | src/detect_scanned_image_edge_position.py:79-127 | `FinishedRecordConsistent` holds for every successful detection |
| Detector.FinishedCropMatchesBox | src/detect_scanned_image_edge_position.py:159 | with vertices on a rectangular image, the crop has `bbox_height` rows of `bbox_width` pixels as the record states them |
| Detector.DetectedCropMatchesBox | src/detect_scanned_image_edge_position.py:159 | `FinishedCropMatchesBox` holds for every successful detection whose simplified vertices lie on the image |
| Batch.LastDot | src/util.py:29 | definition of `rfind('.')`; characterised by `LastDotFinds` |
| Batch.LastDotFinds | src/util.py:29 | the position found holds a dot with no dot after it, and none is found exactly when the name has no dot |
| Batch.StemAndSuffix | src/util.py:29 | the stem followed by the suffix is the name; a suffix is empty or a dot followed by at least one character and no further dot |
| Batch.Stem | src/util.py:29 | definition (`PurePath.stem`); characterised by `StemAndSuffix` |
| Batch.Suffix | src/util.py:29 | definition (`PurePath.suffix`); characterised by `StemAndSuffix` |
| Batch.OutputName | src/util.py:29 | definition (`stem + out_suffix`); characterised by `SameStemSameOutput` and `LastWriteWins` |
| Batch.SameStemSameOutput | src/util.py:29 | two inputs with one stem are saved under one output name |
| Batch.Completed | src/util.py:21-26 | the loop gets through a prefix of files that all succeed, and the file after it, if any, fails |
| Batch.CompletedStopsAt | src/util.py:21-26 | that prefix is the only one with this property |
| Batch.SavedImages | src/util.py:28-30 | definition of the image files after a sequence of iterations; characterised by `LastWriteWins` and `OtherNamesUntouched` |
| Batch.LastWriteWins | src/util.py:28-30 | the image under a name is the one from the last input, among those processed, written to that name |
| Batch.OtherNamesUntouched | src/util.py:28-30 | names that no input writes to keep what the directory held before |
| Batch.HeaderLine | src/util.py:39-40 | definition; characterised by `HeaderFields` and `RecordCsvLines` |
| Batch.RowLine | src/util.py:41-42 | definition; characterised by `RowFields`, `CsvLineFields` and `RecordCsvLines` |
| Batch.IterationText | src/util.py:36-42 | definition of what one iteration leaves in the truncated file; written by `WriteIteration` |
| Batch.HeaderFields | src/util.py:37-40 | the header line ends in a newline and splits into `file_name` followed by the keys |
| Batch.RowFields | src/util.py:41-42 | a row ends in a newline and splits into the pieces of the file name followed by the values |
| Batch.CsvLineFields | src/util.py:37-42 | a row has as many fields as the header exactly when the file name has no comma |
| Batch.CommaFreeCsvLines | src/util.py:37-42 | for a comma-free name and record, the row splits into the name followed by the values |
| Batch.RecordCsvLines | src/util.py:37-42 | for a file name without commas, the header is `file_name` plus the twelve keys, the row is the name plus the values, and the values read back as the record's integers (a name with commas: see `CsvLineFields`) |
| Batch.FinishedCsvLines | src/util.py:37-42 | for a file name without commas, a finished detection's row has 13 fields: the name, then twelve integers (a name with commas: see `CsvLineFields`) |
| Batch.DetectedCsvLines | src/util.py:37-42 | for a file name without commas, a successful detection's CSV lines have 13 fields, the header names them, and the values are integers; a name with commas gives more row fields than header fields (`CsvLineFields`) |
| Batch.WriteIteration | src/util.py:36-42 | one iteration writes the header only when i is 0, then the row |
| Batch.OutputDirectory.SaveIteration | src/util.py:28-42 | one completed iteration adds its image pair under the output name, and the truncated CSV then holds exactly that iteration's text |
| Batch.OutputDirectory.ProcessImagesAndSave | src/util.py:21-42 | the run stops at the first failure and returns it; the images are those of the completed prefix; the CSV holds only what the last completed iteration wrote, or is unchanged if none completed |
| Batch.TruncatedCsv | src/util.py:36-42 | definition of the text a file reopened with mode "wt" at every iteration holds: what the last processed file's iteration wrote; characterised by `TruncationLosesRows` |
| Batch.AppendedCsv | src/util.py:36-42 | definition of the text a file created at iteration 0 and appended to afterwards holds; characterised by `AppendedCsvLayout` and `TruncationLosesRows` |
| Batch.AppendedCsvLayout | src/util.py:37-42 | appending leaves the first record's header once, followed by every processed file's row in order |
| Batch.TruncationLosesRows | src/util.py:36-42 | with two or more files, the truncating writes leave just the last row, which is shorter than the appended text |
| Batch.OutputDirectory.AppendIteration | src/util.py:28-42 | the corrected iteration: the same image update; the CSV holds this iteration's text at iteration 0 and gains it at the end afterwards |
| Batch.OutputDirectory.ProcessImagesAndAppend | src/util.py:21-42 | the corrected loop has the same stopping rule and images; the CSV is unchanged if no file completed, and otherwise holds exactly the header once and every completed file's row, nothing from before the run |

## Findings

| source | as written | input that shows it | evidently intended | confidence | as-written member | corrected member |
|---|---|---|---|---|---|---|
| src/util.py:36 | The CSV file is reopened with mode `"wt"` on every iteration, which truncates it. The header, written only when `i == 0` under the comment "create csv and save header", is therefore lost, and so are all earlier rows. | Two input files that are both detected. The file ends up holding only the second file's row, with no header. This is observable only once `cv2.imwrite` at line 30 accepts what it is given (for instance `result_image[0]`); with the (annotated, cropped) tuple of line 26 it most likely raises on the first detected file, before line 36. | The CSV is created once, at the first iteration (replacing any earlier file), and later iterations append to it, so it holds the header once and then every file's row. | high, not executed | Batch.TruncationLosesRows | Batch.OutputDirectory.ProcessImagesAndAppend |

`Batch.OutputDirectory.ProcessImagesAndSave` keeps the behaviour as written. Its partner lemma,
`Batch.TruncationLosesRows`, shows that with two or more files the truncating writes leave just
the last row, while a file created once and then appended to keeps the header and every row.
That loop is `Batch.OutputDirectory.ProcessImagesAndAppend`, and its text is described by
`Batch.AppendedCsvLayout`.

## Left out

- OpenCV: `cvtColor`, `threshold` with Otsu, `findContours`, `arcLength`, `approxPolyDP` and `contourArea` are given functions of `Library`. The model states nothing about what they compute.
- Drawing: `drawContours`, `rectangle` and the two `putText` calls are one given function, `annotate`, applied to the image, the filtered contours and the box. Their pixels are not modelled.
- Detector.SimplifyContour: looks at most `fuel` passes ahead, because the source loop has no iteration cap and Dafny requires termination. A loop that has not exited yet is reported as `StillSimplifying`, and `SimplificationStalls` shows when the source would loop forever.
- Detector.Detect: takes the same `fuel`, with the same meaning.
- Pixels.Foreground: uses exact rational division of 8-bit channels by 255 in place of the source's float64. For 8-bit values, 0.3 and 0.7, both give the same comparisons (s >= 77, v >= 77, v <= 178).
- Geometry.XCenter: the average of four integer coordinates is exact in float64 within image sizes, so it is modelled as an exact real. The same holds for Geometry.YCenter.
- Pixels.BitwiseNot: defined as `255 - v`, which equals flipping the 8 bits of a `uint8`. The bit-level form is not modelled.
- `np.float`: this alias was removed from recent NumPy, and the model assumes a NumPy in which it still exists.
- I/O: `cv2.imread`, directory creation, `glob` and its listing order are left out. Input files are a given sequence of names and decoded pixels; the model does not check whether the names match `in_suffix`.
- The `print` calls are left out: the progress line of util.py:32 and the error message of detect_scanned_image_edge_position.py:66.
- `cv2.imwrite`: receives the detector's (annotated, cropped) tuple, because line 26 unpacks the returned pair that way. The model records the pair under the output name, and what OpenCV does when given a tuple is not modelled. OpenCV's Python bindings accept a tuple as an image only when its items are numbers, so the unmodified program most likely raises at line 30 on the first detected file, before the CSV file is opened; the model describes the run as if `imwrite` accepted what it is given (for instance `result_image[0]`). A failed detection returns `None` images, and `imwrite` raises on them; the model treats this, like every other detector failure, as ending the run.
- A CSV file that does not exist yet is modelled as empty text. The encoding of the written text is not modelled.
- Batch.OutputDirectory.ProcessImagesAndSave: `process_function` is a parameter, so the model covers any detector, not only `Detect`. The batch lemmas about the detector's record (`DetectedCsvLines`) connect the two.
- Detector.DetectedCropMatchesBox: requires the simplified vertices to lie on the image and the rows to have equal length. The source does not check this; it is what OpenCV's contours satisfy.
- `src/cli.py` (argument parsing, `strtobool`) is not part of this model.
- The test file is not part of this model.
