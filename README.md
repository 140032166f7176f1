# Motion-sickness logger: a verified model of its data handling

The logger runs on a vehicle computer and records three sensor streams:
- face samples: blendshape weights and the mean RGB of the face, sent as JSON lines over a local socket by a camera process;
- inertial samples: acceleration and heading read from a BNO055 over I2C;
- GPS fixes: `$GPRMC` sentences read from a serial port.

Each sensor thread keeps a bounded history of recent samples. Two consumers read copies of those histories:
- an aggregator that, once a second, forwards only the samples newer than the last one it forwarded to an SQLite logger;
- a CSV logger that writes one summary row per second, holding the toggle states, the RGB channel means, the per-axis RMS of the inertial data and one mean per blendshape key.

A separate heart-rate estimator turns RGB series into beats per minute with the POS projection, a band-pass filter and a spectral peak search.

This project models that sequential logic in Dafny and proves its properties. One module per source file:

| module | models |
|---|---|
| `SocketReceiver` | newline framing of the socket stream, decode-or-skip, push into the face history |
| `BoundedHistory` | the push-back-then-evict-oldest buffer used by all three sensor threads (`History` class) |
| `GpsThread` | line reading without `\r`, `getline` field splitting, ddmm.mmmm conversion, RMC validation, knots to km/h |
| `ImuThread` | little-endian int16 register decode, heading scale, heading-delta wrap with the persistent previous heading, axis remap |
| `CsvLogger` | RMS, channel means, blendshape grouping in a sorted map, row layout and row text |
| `HeartRate` | robust standard deviation, POS projection, band-pass guard and recurrence, mean removal, peak search, rounding, the length guard |
| `Database` | blendshape text, INSERT statements, null-handle guard (`DatabaseLogger` class) |
| `Aggregator` | the three per-sensor timestamp watermarks and the forwarding loops (`Aggregator` class) |

Supporting modules:
- `Shared`: the sample records.
- `Text`: search, split and join.
- `Numbers`: sums, truncation toward zero, round-half-away-from-zero.
- `StringOrder`: the `std::string` ordering that `std::map` uses.
- `OrderedMap`: `std::map<string, vector<float>>` as a sorted association list.
- `OrderStatistics`: the k-th smallest element that `nth_element` selects.
- `SeqFacts`: small sequence lemmas.

All floating-point quantities are `real`. Library numerics and text conversions are parameters of the model:
- `sqrt`;
- the Butterworth pre-warp `ita` and `q = sqrt(2)`;
- the DFT magnitude;
- `std::stod`, `std::to_string` and the stream's `<<`;
- JSON decoding.

Each stateful loop is an imperative method proved against a specification function. The properties of that function are proved as lemmas.

## Model

| member | source | states |
|---|---|---|
| SocketReceiver.LinesHaveNoSeparator | sensors/socket_receiver.cpp:49-52 | no extracted line contains the newline |
| SocketReceiver.RemainderHasNoSeparator | sensors/socket_receiver.cpp:49-53 | once the inner loop ends, the kept buffer contains no newline |
| SocketReceiver.FramingConserves | sensors/socket_receiver.cpp:46-53 | the extracted lines, each followed by a newline, then the kept buffer, concatenate back to the buffer plus the new bytes |
| SocketReceiver.FramingUnique | sensors/socket_receiver.cpp:50-52 | text built from newline-free lines, each terminated, plus a newline-free tail frames back into exactly those lines, in order, and that tail; so each line is the text before the first newline |
| SocketReceiver.FramingAppend | sensors/socket_receiver.cpp:46-53 | framing after more bytes arrive equals the earlier lines followed by the framing of the kept tail plus the new bytes |
| SocketReceiver.PushLine | sensors/socket_receiver.cpp:54-76 | a line that fails to decode leaves the face history as it was; a decoded line appends exactly its sample |
| SocketReceiver.ReadStep | sensors/socket_receiver.cpp:46-53 | handling one read on top of the kept tail gives the same history and tail as framing all bytes so far at once |
| SocketReceiver.HandleLine | sensors/socket_receiver.cpp:54-76 | the face history is unchanged when decoding fails and gains the decoded sample (with eviction) otherwise |
| SocketReceiver.ReceiveChunk | sensors/socket_receiver.cpp:46-77 | after one read: the kept buffer is the unterminated tail, and the history has had every decodable complete line pushed in stream order |
| SocketReceiver.ReadsTakenStops | sensors/socket_receiver.cpp:43-45 | the reads taken are exactly those before the first read that delivers nothing |
| SocketReceiver.ReceiveLoop | sensors/socket_receiver.cpp:42-78 | the receive loop stops at the first empty read; the history, capped at 100 samples, equals pushing every decodable line of the bytes received until then |
| BoundedHistory.Appended | sensors/socket_receiver.cpp:69-73 | after an append the size is at most the cap and grows by one until the cap; the new sample is last; the result is the newest elements of old-plus-new, so at most the single oldest is dropped and order is kept |
| BoundedHistory.WindowSnoc | sensors/imu_thread.cpp:107-113 | appending to the newest-cap window of a run gives the newest-cap window of the longer run |
| BoundedHistory.AppendedAllKeepsNewest | sensors/gps_thread.cpp:97-102 | any run of appends leaves exactly the newest cap samples of everything appended, in arrival order |
| BoundedHistory.History.constructor | sensors/gps_thread.cpp:20-22 | a buffer starts empty with its cap |
| BoundedHistory.History.Append | sensors/gps_thread.cpp:99-101 | push back, then erase the front when over the cap, keeping the size bound |
| BoundedHistory.History.Snapshot | main.cpp:71-83 | the copy taken under the lock equals the buffer |
| GpsThread.ReadLine | sensors/gps_thread.cpp:48-56 | the line is the input before the first newline (or all of it) with every carriage return removed; the consumed count includes the newline |
| GpsThread.StripCRHasNoCR | sensors/gps_thread.cpp:53 | the line never contains a carriage return |
| GpsThread.StripCRKeeps | sensors/gps_thread.cpp:53 | every other character occurs in the line iff it occurs in the input |
| GpsThread.StripCRIdentity | sensors/gps_thread.cpp:51-54 | input without carriage returns is copied unchanged |
| GpsThread.LineIsClean | sensors/gps_thread.cpp:48-56 | the returned line contains neither carriage return nor newline |
| GpsThread.SplitFields | sensors/gps_thread.cpp:80-86 | the field loop produces the `getline(',')` pieces of the line |
| GpsThread.FieldsFromIsGetline | sensors/gps_thread.cpp:84-86 | from any position, the fields read are the comma pieces of the rest of the line, without a trailing empty piece |
| GpsThread.FieldsAreGetline | sensors/gps_thread.cpp:84-86 | the loop's fields are the comma pieces of the line without a trailing empty piece |
| GpsThread.FieldsRebuildLine | sensors/gps_thread.cpp:84-86 | no field contains a comma, and the comma pieces join back into the line |
| GpsThread.NmeaToDecimal | sensors/gps_thread.cpp:58-66 | an empty coordinate gives 0.0; otherwise the conversion fails exactly when the number does not parse |
| GpsThread.DegreesMinutesSplit | sensors/gps_thread.cpp:60-62 | the raw value is 100 times the truncated degrees plus the minutes; minutes lie in (-100, 100) with the sign of the raw value |
| GpsThread.WholeDegreesKept | sensors/gps_thread.cpp:61-63 | for a northern or eastern coordinate with minutes below 60, the result lies in [deg, deg + 1) |
| GpsThread.HemisphereSymmetry | sensors/gps_thread.cpp:64 | "S" and "W" negate the value that "N" and "E" give |
| GpsThread.DecodeRmc | sensors/gps_thread.cpp:88-95 | a fix is stamped with the current clock reading |
| GpsThread.FixedOnlyWhenValid | sensors/gps_thread.cpp:79-95 | a fix is produced iff the line contains `$GPRMC`, has more than 8 fields, field 2 is `A` and the three numbers convert |
| GpsThread.FixedSampleFields | sensors/gps_thread.cpp:93-95 | latitude from fields 3-4, longitude from fields 5-6, speed equals field 7 times 1.852 |
| GpsThread.HandleLine | sensors/gps_thread.cpp:77-103 | a fix is appended to the GPS history, capped at 100 samples, with eviction; any other line leaves the history unchanged |
| ImuThread.Word | sensors/imu_thread.cpp:28 | the two bytes form an unsigned 16-bit word |
| ImuThread.OrIsSum | sensors/imu_thread.cpp:28 | `lo \| hi << 8` equals `lo + 256 * hi` |
| ImuThread.Read16 | sensors/imu_thread.cpp:24-29 | the decoded value lies in [-32768, 32767] and equals the word or the word minus 65536 |
| ImuThread.Read16OfEncode | sensors/imu_thread.cpp:28 | splitting any int16 into its low and high byte and decoding returns it |
| ImuThread.EncodeOfRead16 | sensors/imu_thread.cpp:28 | decoding then splitting returns the same register bytes |
| ImuThread.HeadingDegrees | sensors/imu_thread.cpp:83-84 | the heading is the raw value in sixteenths of a degree, within [-2048, 2048) |
| ImuThread.WrapDeltaIsChangeModTurns | sensors/imu_thread.cpp:95-101 | the wrapped delta is the raw change plus -1, 0 or 1 full turns |
| ImuThread.WrapDeltaBounded | sensors/imu_thread.cpp:95-101 | with both headings in [0, 360) the delta lies in [-180, 180] |
| ImuThread.WrapDeltaAntisymmetric | sensors/imu_thread.cpp:95-101 | swapping the headings negates the delta |
| ImuThread.WrapDeltaSmall | sensors/imu_thread.cpp:96 | a change of at most 180 degrees is kept as it is |
| ImuThread.Accel | sensors/imu_thread.cpp:87-91 | acceleration is stored as (-az, ax, ay) divided by 100 |
| ImuThread.ImuSample | sensors/imu_thread.cpp:70-105 | the sample carries the clock reading and a gyro of (delta, 0, 0) |
| ImuThread.DeltasTelescope | sensors/imu_thread.cpp:93-102 | the deltas of a run sum to the last heading minus the starting one plus whole turns |
| ImuThread.HeadingTracker.constructor | sensors/imu_thread.cpp:94 | the previous heading starts at 0 |
| ImuThread.HeadingTracker.Delta | sensors/imu_thread.cpp:94-102 | the delta is the wrapped change from the previous heading, which then becomes the new heading |
| ImuThread.ImuStep | sensors/imu_thread.cpp:70-113 | one sample is built from the registers and the previous heading and appended to the history, capped at 100 samples, with eviction; the previous heading becomes this heading |
| ImuThread.SamplesCarryDeltas | sensors/imu_thread.cpp:102-105 | the gyro x values of a run of samples are the wrapped deltas of its headings from the starting heading |
| ImuThread.LastHeading | sensors/imu_thread.cpp:102 | after a run the previous heading is the last sample's heading, or the start for an empty run |
| ImuThread.ImuLoop | sensors/imu_thread.cpp:54-117 | the history is the newest 100 of the old samples plus the run's samples; the previous heading is the last heading |
| CsvLogger.ComputeRms | logger/csv_logger.cpp:20-25 | the loop computes the specified RMS |
| CsvLogger.RmsIsRootMeanSquare | logger/csv_logger.cpp:21-24 | an empty list gives 0; otherwise the RMS is non-negative and its square is the mean of the squares |
| CsvLogger.SumSquaresNonNegative | logger/csv_logger.cpp:23 | the sum of squares is never negative |
| CsvLogger.MeanProperties | logger/csv_logger.cpp:70-72 | the mean divides by max(1, count): 0 for an empty list, otherwise mean times count is the sum |
| CsvLogger.ChannelLength | logger/csv_logger.cpp:59-64 | each colour list has one entry per face sample with at least three channels, so the three lists have equal length |
| CsvLogger.LookupsAtMostOne | logger/csv_logger.cpp:65-67 | a sample with distinct keys contributes at most one value per key, and one exactly when it has the key |
| CsvLogger.PushAllSpec | logger/csv_logger.cpp:65-67 | pushing a sample's pairs keeps the map sorted and appends to each key's list exactly that sample's value for it |
| CsvLogger.GroupSpec | logger/csv_logger.cpp:57-68 | the map is sorted by key and each key's list holds one value per snapshot sample containing the key, in snapshot order |
| CsvLogger.GroupKeys | logger/csv_logger.cpp:65-67 | a key is in the map iff some sample carries it |
| CsvLogger.CollectFaces | logger/csv_logger.cpp:56-68 | the face loop builds the three colour lists and the blendshape map as specified |
| CsvLogger.AxisValuesAt | logger/csv_logger.cpp:75-78 | each axis list holds one value per inertial sample, at the same position |
| CsvLogger.CollectAxes | logger/csv_logger.cpp:74-78 | the inertial loop builds the six axis lists as specified |
| CsvLogger.GroupMeansAt | logger/csv_logger.cpp:92-95 | the i-th trailing cell is the mean of the i-th key's list |
| CsvLogger.RowLayout | logger/csv_logger.cpp:87-95 | the row has 13 + (number of distinct keys) cells; cell 13 + i is the mean of key i's values; the keys are in ascending order |
| CsvLogger.MeanColumns | logger/csv_logger.cpp:92-95 | the map loop emits one mean per key in map order |
| CsvLogger.SummaryTick | logger/csv_logger.cpp:56-95 | one tick produces the specified row |
| CsvLogger.RowTextSplits | logger/csv_logger.cpp:87-97 | the row text ends with a newline and, with comma-free cells, splits back into the rendered cells |
| StringOrder.Irreflexive | logger/csv_logger.cpp:57 | no key orders before itself |
| StringOrder.Transitive | logger/csv_logger.cpp:57 | the key order is transitive |
| StringOrder.Total | logger/csv_logger.cpp:57 | distinct keys are ordered one way or the other |
| StringOrder.Asymmetric | logger/csv_logger.cpp:57 | the key order is asymmetric |
| OrderedMap.LowerBound | logger/csv_logger.cpp:66 | the lookup position has every smaller key before it and no smaller key at it |
| OrderedMap.PushBackSorted | logger/csv_logger.cpp:66 | `map[k].push_back(v)` keeps the keys strictly ascending and every list non-empty |
| OrderedMap.PushBackGet | logger/csv_logger.cpp:66 | after `map[k].push_back(v)`, k's list gains v at the end and every other key's list is unchanged |
| OrderedMap.HasKeyIffValues | logger/csv_logger.cpp:66 | a key is present iff its list is non-empty |
| OrderedMap.GetAt | logger/csv_logger.cpp:92 | iterating the map yields each key with its own list |
| OrderStatistics.SortSpec | logger/estimate_heart_rate_from_rgb.cpp:40 | the ordering `nth_element` works against is ascending and a permutation of the data |
| OrderStatistics.NthSmallestSpec | logger/estimate_heart_rate_from_rgb.cpp:40-41 | the selected element is a data element with no larger element before it and no smaller one after it in sorted order |
| HeartRate.ComputeRobustStd | logger/estimate_heart_rate_from_rgb.cpp:38-50 | the loop computes 1.4826 times the middle absolute deviation from the middle element |
| HeartRate.RobustStdNonNegative | logger/estimate_heart_rate_from_rgb.cpp:38-50 | the robust standard deviation is never negative |
| HeartRate.MedianIsSample | logger/estimate_heart_rate_from_rgb.cpp:40-41 | the middle element is one of the data |
| HeartRate.Clamp | logger/estimate_heart_rate_from_rgb.cpp:66 | the result lies in the range and equals the input when the input does |
| HeartRate.Alpha | logger/estimate_heart_rate_from_rgb.cpp:61-66 | alpha always lies in [0.3, 3.0], including when std_y is 0 |
| HeartRate.AlphaUnclamped | logger/estimate_heart_rate_from_rgb.cpp:63-66 | in range, alpha is std_x / std_y |
| HeartRate.PulseSignalAt | logger/estimate_heart_rate_from_rgb.cpp:56-70 | s[i] = x[i] - alpha y[i] with x = 3r - 2g, y = 1.5r + g - 1.5b and alpha in [0.3, 3.0] |
| HeartRate.Chrominance | logger/estimate_heart_rate_from_rgb.cpp:56-59 | the loop builds the x and y series |
| HeartRate.Project | logger/estimate_heart_rate_from_rgb.cpp:68-70 | the loop builds the projection, one value per frame |
| HeartRate.PosAlgorithm | logger/estimate_heart_rate_from_rgb.cpp:53-73 | POS produces the band-passed projection of its input |
| HeartRate.DenominatorPositive | logger/estimate_heart_rate_from_rgb.cpp:22 | the coefficient denominator is at least 0.5, so b0 is defined |
| HeartRate.Butterworth | logger/estimate_heart_rate_from_rgb.cpp:22-27 | b1 = 2 b0 and b2 = b0 |
| HeartRate.ButterBandpassShape | logger/estimate_heart_rate_from_rgb.cpp:9-35 | a normalised cut-off at or above 1, or fewer than 5 samples, returns the input; otherwise the output has y[0] = y[1] = 0 |
| HeartRate.FilterStep | logger/estimate_heart_rate_from_rgb.cpp:30-33 | every later output follows the second-order recurrence |
| HeartRate.Recurrence | logger/estimate_heart_rate_from_rgb.cpp:29-34 | the array the loop fills equals the recurrence's output |
| HeartRate.ButterBandpassFilter | logger/estimate_heart_rate_from_rgb.cpp:9-35 | the filter returns the specified output, with the guard |
| HeartRate.RemoveMean | logger/estimate_heart_rate_from_rgb.cpp:95-97 | in place, every sample has the old mean subtracted |
| HeartRate.RemovedMeanSumsToZero | logger/estimate_heart_rate_from_rgb.cpp:95-97 | after mean removal the signal sums to 0 |
| HeartRate.ScanSpec | logger/estimate_heart_rate_from_rgb.cpp:116-126 | the peak is none with magnitude 0, or an in-band bin with positive magnitude that is maximal among in-band bins and strictly above every earlier in-band bin |
| HeartRate.PeakFreqInBand | logger/estimate_heart_rate_from_rgb.cpp:111-126 | the peak frequency is 0 or i·fps/len for an in-band bin |
| HeartRate.PeakSearch | logger/estimate_heart_rate_from_rgb.cpp:111-126 | the loop over bins returns the specified peak frequency |
| HeartRate.BpmRange | logger/estimate_heart_rate_from_rgb.cpp:128 | 0 maps to 0; an in-band peak maps into [42, 240]; the result is within 0.05 of peak·60 |
| HeartRate.EmptyWindowPassesGuard | logger/estimate_heart_rate_from_rgb.cpp:79-80 | as written, the guard lets an empty window through at 0.1 frames per second |
| HeartRate.GuardsAgree | logger/estimate_heart_rate_from_rgb.cpp:79-80 | at 0.2 frames per second or more the corrected guard equals the written one; any window it admits is non-empty |
| HeartRate.DetrendedCentered | logger/estimate_heart_rate_from_rgb.cpp:82-91 | each detrended channel is its first \|r\| samples minus the mean of the whole channel; red sums to 0, and green and blue sum to 0 when they are as long as red |
| HeartRate.Detrend | logger/estimate_heart_rate_from_rgb.cpp:82-91 | the loop builds the detrended frames |
| HeartRate.Centre | logger/estimate_heart_rate_from_rgb.cpp:95-97 | the copy has its mean removed |
| HeartRate.HeartRateRange | logger/estimate_heart_rate_from_rgb.cpp:75-129 | the estimate is 0 or within [42, 240]; a window the guard rejects gives 0 |
| HeartRate.HeartRateUnfold | logger/estimate_heart_rate_from_rgb.cpp:82-128 | an admitted window's estimate is the rounded BPM of the spectral peak of the centred POS signal |
| HeartRate.EstimateHeartRate | logger/estimate_heart_rate_from_rgb.cpp:75-129 | the estimator returns the specified heart rate |
| Numbers.TruncToZero | sensors/gps_thread.cpp:61 | the integer cast truncates toward zero |
| Numbers.Round | logger/estimate_heart_rate_from_rgb.cpp:128 | rounding is to the nearest integer, halves away from zero |
| Numbers.SumShift | logger/estimate_heart_rate_from_rgb.cpp:96-97 | subtracting c from every sample lowers the sum by n·c |
| Numbers.CenteredSumsToZero | logger/estimate_heart_rate_from_rgb.cpp:83-91 | a series minus its mean sums to 0 |
| Database.BlendshapeJson | logger/database_logger.cpp:44-51 | the column text opens with `{` and closes with `}` |
| Database.StreamedIsJoin | logger/database_logger.cpp:46-50 | before `pop_back` the stream holds the comma-joined entries plus one comma |
| Database.BlendshapeText | logger/database_logger.cpp:44-51 | the stream loop with the trailing comma removed yields `{` + entries joined by single commas + `}` |
| Database.EmptyIsBraces | logger/database_logger.cpp:44-51 | the text is exactly `{}` iff the table is empty |
| Database.BlendshapeJsonSplits | logger/database_logger.cpp:45-51 | with comma-free keys and numbers, the text between the braces splits into the `"key":value` entries in iteration order, with no trailing empty piece |
| Database.EntryKeyVerbatim | logger/database_logger.cpp:47 | the key is written unescaped: between an entry's first two quotes stands the key itself |
| Database.FaceInsertColumns | logger/database_logger.cpp:53-58 | the face INSERT lists timestamp, r, g, b, then the quoted blendshape text, and ends with `);` |
| Database.ImuInsertColumns | logger/database_logger.cpp:71-74 | the inertial INSERT's values split into timestamp, accel x y z, gyro x y z, in that order |
| Database.FaceRow | logger/database_logger.cpp:53-60 | one statement for a sample with three channels and none otherwise |
| Database.FaceRowsCount | logger/database_logger.cpp:53-60 | at most one statement per face sample, exactly one each when all have three channels |
| Database.ImuRowsAt | logger/database_logger.cpp:71-76 | the i-th inertial statement is the INSERT of the i-th sample |
| Database.DatabaseLogger.constructor | logger/database_logger.cpp:5-12 | a failed open leaves a null handle; a successful one creates both tables |
| Database.DatabaseLogger.InsertFaceData | logger/database_logger.cpp:39-65 | with a null handle nothing is executed; otherwise the face INSERT is, for a sample with three channels |
| Database.DatabaseLogger.InsertImuData | logger/database_logger.cpp:67-80 | with a null handle nothing is executed; otherwise the inertial INSERT is |
| Aggregator.PassStep | main.cpp:85-91 | one loop step raises the watermark to a newer timestamp and forwards exactly the newer sample |
| Aggregator.WatermarkIsMax | main.cpp:85-104 | the watermark never decreases and ends at the maximum of its old value and the snapshot's timestamps |
| Aggregator.ForwardedBounds | main.cpp:86-89 | every forwarded sample is strictly newer than the old watermark and no newer than the new one |
| Aggregator.ForwardedIncreasing | main.cpp:85-104 | samples forwarded within one pass have strictly increasing timestamps |
| Aggregator.ForwardedFromSnapshot | main.cpp:85-104 | everything forwarded comes from the snapshot, at most as often as it occurs there |
| Aggregator.NothingNewer | main.cpp:86 | a snapshot with nothing newer than the watermark forwards nothing and keeps the watermark |
| Aggregator.PassIdempotent | main.cpp:85-104 | running the same pass again over the same snapshot forwards nothing |
| Aggregator.InOrderForwardsAll | main.cpp:85-104 | a snapshot in strictly increasing time order above the watermark is forwarded whole |
| Aggregator.ShortColourListForwarded | main.cpp:85-87 | a face sample with no colour channels passes a fresh watermark to the face insert |
| Aggregator.Aggregator.constructor | main.cpp:61-63 | all three watermarks start at 0 |
| Aggregator.Aggregator.ForwardFaces | main.cpp:85-91 | the face loop inserts exactly the forwarded faces, in order, and raises only the face watermark |
| Aggregator.Aggregator.ForwardImus | main.cpp:92-98 | the inertial loop inserts exactly the forwarded samples, in order, and raises only the inertial watermark |
| Aggregator.Aggregator.ForwardGps | main.cpp:99-104 | the position loop forwards the newer fixes, in order, and raises only the position watermark |
| Aggregator.Aggregator.Tick | main.cpp:65-108 | one tick: each watermark becomes its own snapshot's maximum; the database receives the face statements, then the inertial ones; the position fixes are handed on |

## Left out

- Socket, serial-port and I2C set-up and reads. The bytes read are inputs: a sequence of chunks for the socket, the available text for the GPS line, register bytes for the IMU.
- The clock: timestamps are inputs.
- Threads, mutexes, the thread-safe queues, the sleeps and the `running` flags. The sensor threads' `queue.push` calls are not modelled.
- JSON decoding is a parameter `decode` that may fail; a failure stands for the exception the receiver catches.
- `std::stod` is a parameter that may fail. In the GPS thread a failure throws and nothing catches it; the model reports `ConversionFailure` and stores nothing.
- Floating point: every float and double is a real. Float accumulation and the `0.0f` initial values do not matter in this model.
- `sqrt`, `tan` (the pre-warp `ita`), `sqrt(2)` and the complex DFT magnitudes are parameters. The DFT is a magnitude per bin.
- Text formatting (`std::to_string`, stream `<<`, `put_time`) is a parameter. The CSV cells are abstract values.
- The CSV file, the SQLite library and the database destructor. The database is the list of statements it receives; their result codes are ignored, as in the source.
- The `catch` blocks in the database logger, which only allocation failure could reach.
- `insertGpsData` and `insertToggleState` are declared but not defined anywhere in the repository. The aggregator's position loop therefore returns the fixes it would pass on.
- The blendshape `unordered_map` is a sequence in its iteration order, with distinct keys where a lemma needs them.
- GpsThread.NmeaToDecimal: `static_cast<int>` of a value outside the int range is undefined; the model truncates without a bound.
- HeartRate.ButterBandpass: requires a non-zero sample rate or a positive cut-off. With rate 0 and non-positive cut-offs the source compares NaN. The estimator always passes cut-offs 0.8 and 2.5.
- HeartRate.EstimateHeartRate: runs the corrected length guard, which returns 0 for an empty window. The source's guard lets an empty window through whenever fps < 0.2 (see "## Findings"), and the source would then read element 0 of an empty vector; the model does not follow that path.
- HeartRate.EstimateHeartRate: requires fps >= 0. For fps <= -0.2, converting `fps * 5` to `size_t` is undefined. For fps in (-0.2, 0) the value truncates to 0, which is defined and behaves like fps = 0; the model excludes those frame rates too. It also requires the green and blue series to be at least as long as the red one, since the source indexes them by the red length.
- Database.DatabaseLogger.InsertFaceData: takes the corrected path of "## Findings". With an open handle it executes nothing for a sample with fewer than three channels, where the source always builds the INSERT and reads `avg_rgb[0..2]` out of bounds.
- The Qt toggle window, the Python camera scripts, process management in `main`, and the unused rotation and translation fields of the samples.

## Findings

| source | as written | input that shows it | evidently intended | confidence | as-written member | corrected member |
|---|---|---|---|---|---|---|
| logger/estimate_heart_rate_from_rgb.cpp:79-80 | `if (n < static_cast<size_t>(fps * 5)) return 0.0;` | n = 0 at fps = 0.1: `(size_t)0.5` is 0 and `0 < 0` is false, so an empty window reaches `robust_std`, which reads element 0 of an empty vector | return 0.0 for an empty window as for any window shorter than five seconds | medium, not executed | HeartRate.EmptyWindowPassesGuard | HeartRate.GuardsAgree |
| logger/database_logger.cpp:53-58 | `std::to_string(data.avg_rgb[0])` … `avg_rgb[2]` with no size check | the line `{"timestamp":1.0,"blendshapes":{},"avg_rgb":[]}` decodes to a sample with no channels; its timestamp passes the fresh 0.0 watermark, and the insert reads past the end of the empty vector | skip a sample with fewer than three channels, as the CSV logger does at logger/csv_logger.cpp:60 | medium, not executed | Aggregator.ShortColourListForwarded | Database.FaceRow |
