# plitter tracker — a Dafny model

This project models the logic of the `pTrack` litter tracker that can be
separated from its libraries. The tracker takes a file path. It rejects a path
that is not an existing file. Otherwise it routes the path by its
case-insensitive extension:

- `.jpg`, `.jpeg` and `.png` go to image processing;
- `.mp4`, `.avi` and `.mov` go to video processing;
- anything else is an "Unsupported file type" error.

For an image, it reads the GPS fix from the EXIF tags and converts
degrees-minutes-seconds to decimal degrees. It counts the detector's class-0
("plastic") boxes and builds one record `{filename, latitude, longitude,
plastic_count}`. It exports that record as a GeoJSON FeatureCollection. Any
failure is swallowed and gives an absent result.

For a video, it walks the decoded frames with a counter and runs the detector
on every fifth frame. It collects `{frame, plastic_count}` records.

The YOLO detector, the OpenCV decoder, the EXIF reader and the file system
are not modelled. They become inputs:

- the detector is a function from a frame to its detection rows, or the
  given detection rows of an image;
- a video is the finite sequence of frames its decoder yields;
- the EXIF reader's view of an image is an `ExifImage` record;
- "is an existing file" is a boolean.

Modules, one per component:

- `Wrappers`: `Option` and `Result`.
- `Paths`: ASCII lower-casing, suffix tests, `/`-separated base name.
- `Dispatch`: classification of a path by extension.
- `Detections`: detection rows and the class-0 count.
- `Gps`: DMS to decimal conversion and GPS extraction from EXIF tags.
- `Records`: image and frame records.
- `GeoJson`: the FeatureCollection the exporter builds (RFC 7946 sections
  3.1.1, 3.2 and 3.3), plus a reader for the same shape. The reader states
  what the export preserves.
- `Video`: the frame-sampling loop (`ProcessVideo`) and its closed form
  (`Sampled`).
- `Images`: the image pipeline.
- `Tracker`: `load`.

The model follows the code as written:

- No hemisphere sign is applied to latitude or longitude. A southern or
  western fix comes out non-negative (`Gps.ExtractGpsIgnoresHemisphere`,
  `Gps.SouthWestStaysNonNegative`).
- The target class is the literal 0, not a configuration value.
- The GeoJSON exporter does not filter records. Image records always carry
  both coordinates, because a record is only built after GPS extraction
  succeeds.
- The frame counter starts at 0 and is incremented before the test. The first
  frame is frame 1, and the first record is for frame 5.

## Model

| member | source | states |
|---|---|---|
| Tracker.Load | plitter/spatial.py:20-29 | A path that is not an existing file is rejected with an invalid-path error whatever its extension. Otherwise an image extension leads to image processing and a video extension to video processing. Any other extension leads to "Unsupported file type", and only then. |
| Tracker.LoadOutcomeIgnoresCase | plitter/spatial.py:24-29 | Whether a path is accepted, and as image or video, does not depend on letter case. |
| Dispatch.Classify | plitter/spatial.py:24-29 | A path is an image exactly when its lower-case form ends with `.jpg`, `.jpeg` or `.png`. It is a video exactly when its lower-case form ends with `.mp4`, `.avi` or `.mov`. It is unsupported exactly when neither holds. |
| Dispatch.ExtensionsExclusive | plitter/spatial.py:24-27 | No path ends with both an image and a video extension, so the order of the two tests is immaterial. |
| Dispatch.ClassifyIgnoresCase | plitter/spatial.py:24-26 | Two paths that agree character by character up to ASCII letter case are classified alike. |
| Dispatch.ClassifyOfLower | plitter/spatial.py:24-26 | Classifying a path and classifying its lower-case form agree. |
| Dispatch.ImageSuffixRoutesToImage | plitter/spatial.py:24-25 | Any stem followed by an image extension, in any case, is an image. |
| Dispatch.VideoSuffixRoutesToVideo | plitter/spatial.py:26-27 | Any stem followed by a video extension, in any case, is a video. |
| Dispatch.ClassifyUpperCaseImage | plitter/spatial.py:24-25 | `input/2_4CCPW.JPG` is an image. |
| Dispatch.ClassifyMixedCaseVideo | plitter/spatial.py:26-27 | `clip.Mov` is a video. |
| Dispatch.ClassifyTextFile | plitter/spatial.py:28-29 | `notes.txt` is unsupported. |
| Paths.LowerChar | plitter/spatial.py:24-26 | An upper-case ASCII letter becomes the letter 32 code points above it, which is lower-case; every other character is kept. |
| Paths.ToLower | plitter/spatial.py:24-26 | Lower-casing keeps the length and lower-cases each character in place. The result has no upper-case letter, and a string without one comes back unchanged. |
| Paths.LowerCharIgnoresCase | plitter/spatial.py:24-26 | Two characters lower-case alike exactly when they are equal or one is an upper-case letter and the other its lower-case partner. |
| Paths.ToLowerIgnoresCase | plitter/spatial.py:24-26 | Two strings have the same lower-case form exactly when they agree character by character up to ASCII letter case. |
| Paths.EndsWithIff | plitter/spatial.py:24-26 | A string ends with a suffix exactly when it is some prefix followed by that suffix. |
| Paths.Basename | plitter/spatial.py:45 | The base name contains no `/`, is a suffix of the path, and is preceded by a `/` when it is not the whole path. |
| Paths.BasenameUnique | plitter/spatial.py:45 | Those three properties determine the base name uniquely. |
| Detections.Classes | plitter/spatial.py:41 | The class column has one entry per detection row, equal to that row's class id; it is empty when there are no rows. |
| Detections.PlasticCount | plitter/spatial.py:41-42 | The plastic count never exceeds the number of detections and is 0 when there are none. |
| Detections.PlasticCountSpec | plitter/spatial.py:41-42 | The plastic count is the multiplicity of class 0 in the class column. It is 0 exactly when no row has class 0. It equals the number of rows exactly when every row has class 0. |
| Detections.CountIsMultiplicity | plitter/spatial.py:42 | Counting entries equal to a target gives the target's multiplicity in the multiset of entries. |
| Detections.CountZeroIff | plitter/spatial.py:42 | The count is zero exactly when no entry equals the target. |
| Detections.CountFullIff | plitter/spatial.py:42 | The count equals the length exactly when every entry equals the target. |
| Detections.CountEqual | plitter/spatial.py:42 | The number of entries equal to the target never exceeds the number of entries; `Detections.CountIsMultiplicity` fixes its value as the target's multiplicity. |
| Gps.ExtractGps | plitter/spatial.py:82-88 | GPS extraction succeeds exactly when both the latitude and longitude tags are present. A missing tag gives the missing-GPS error. On success each coordinate is `d + m/60 + s/3600` of its tag. |
| Gps.ToDecimal | plitter/spatial.py:84-85 | The decimal value times 3600 is the angle's total arc-seconds `3600d + 60m + s`, and with non-negative minutes and seconds it is at least the degrees. |
| Gps.ToDecimalBounds | plitter/spatial.py:84-85 | With non-negative components the decimal value is at least the degrees. When minutes and seconds make up less than a degree, it is below degrees + 1. |
| Gps.ToDecimalSteps | plitter/spatial.py:84-85 | One more second adds 1/3600 degree and one more minute adds 1/60 degree. Sixty seconds equal one minute. |
| Gps.ToDecimalExample | plitter/spatial.py:84-86 | 13°45′30″ is exactly 1651/120 degrees, which rounds to 13.758333. |
| Gps.ExtractGpsIgnoresHemisphere | plitter/spatial.py:84-85 | The N/S and E/W reference tags never change the extracted coordinates. |
| Gps.SouthWestStaysNonNegative | plitter/spatial.py:84-85 | A south-west fix with non-negative components gives non-negative coordinates, because no sign is applied. |
| GeoJson.ToFeature | plitter/spatial.py:94-104 | Each record becomes a Feature with a two-dimensional Point geometry. Its properties hold exactly the keys `filename` and `plastic_count`. |
| GeoJson.ExportGeoJson | plitter/spatial.py:91-106 | The document is a FeatureCollection with exactly one Point Feature per input record. |
| GeoJson.FeatureRoundTrip | plitter/spatial.py:94-104 | A Feature's coordinates are `[longitude, latitude]`. Its `filename` and `plastic_count` equal the record's. Reading the Feature back gives the record. |
| GeoJson.FromFeaturesRoundTrip | plitter/spatial.py:93-105 | A list of Features, each written from the matching record, reads back as that record list. |
| GeoJson.ExportRoundTrip | plitter/spatial.py:91-106 | The exported document reads back as exactly the input records in input order: nothing is lost, added, reordered or altered. |
| GeoJson.ExportInjective | plitter/spatial.py:91-106 | Different record lists never give the same document. |
| Video.ProcessVideo | plitter/spatial.py:61-76 | The loop emits exactly n/5 records for n frames (integer division). The k-th record (1-based) is for frame 5k and carries the class-0 count of that frame. Frame numbers are positive multiples of 5, at most n, and strictly increasing. The result equals the closed form `Video.Sampled`. |
| Video.SampledFrameNumbers | plitter/spatial.py:69-76 | In the closed form, every frame number is a positive multiple of 5 and at most the frame total, and frame numbers strictly increase. |
| Video.ThirtyFrameVideo | plitter/spatial.py:69-76 | A 30-frame video gives six records, for frames 5, 10, 15, 20, 25 and 30. |
| Video.TrailingFramesIgnored | plitter/spatial.py:64-76 | Adding fewer than five frames after a whole number of groups of five changes nothing. |
| Images.ProcessImage | plitter/spatial.py:31-57 | An image gives a record exactly when it has EXIF data and both GPS tags. The record holds the base file name, the converted latitude and longitude, and the plastic count. A document is written exactly when a record is returned, and that document reads back as the one-record list. |

## Left out

- YOLO model loading and inference (`plitter/spatial.py:18`, `39-40`, `71-72`): a foreign library. The detector's output is an input, and the `size=1280` option for images has no effect in the model.
- OpenCV capture, frame decoding and release (`plitter/spatial.py:60-67`, `78`): I/O. A video is the finite sequence of frames it decodes to. A video that cannot be opened decodes to no frames and gives an empty record list.
- EXIF parsing and `has_exif` (`plitter/spatial.py:33-36`): a foreign library. Its result is the `Gps.ExifImage` record. An EXIF GPS tag with fewer than three components (an `IndexError` in the source) is not modelled; a tag always has degrees, minutes and seconds.
- `round(…, 6)` (`plitter/spatial.py:86`): floating-point rounding. Coordinates are exact reals, and class ids are exact reals compared with `== 0` (no NaN).
- JSON serialisation, file writes and prints (`plitter/spatial.py:108-115`): I/O. `export_json` writes the video record list unchanged, so the model only returns that list. `export_geojson` is modelled as the document it would write.
- The catch-all `except` in `process_image` (`plitter/spatial.py:55-57`): it is modelled as an absent result. Exceptions raised by the foreign libraries themselves, such as an unreadable file or a detector failure, are not modelled.
- Exceptions raised during video processing (a decoder or detector failure mid-stream) are not modelled.
- Paths.ToLower: models only ASCII `A`–`Z` lower-casing, not Python's full Unicode `str.lower`, whose case mappings are outside the model.
- Paths.Basename: models the POSIX `os.path.basename`, which splits on `/`. It does not model the Windows form, which also splits on `\` and strips a drive prefix.
- The directory check in the constructor and the module-level usage script (`plitter/spatial.py:14-15`, `118-130`): file-system and script glue.
- `plitter/run_detection.py`: a driver script that calls `load()` with no argument and calls `detect`/`export` methods that `pTrack` does not have, so it has no behaviour to model.
