# Wildfire counts per continent — a Dafny model

This repository has three small Python scripts. Each one pulls the NASA FIRMS
list of VIIRS fire detections (a CSV body, one detection per line) and counts
the detections per continent:

- `fires_mqtt.py` publishes the counts to an MQTT broker, in a reconnect loop with exponential backoff.
- `fires.py` serves them from a Flask endpoint behind a five-minute cache.
- `fires_mqtt_2.py` is a minimal publisher.

All three share one pipeline:

1. Skip blank lines.
2. Discard the first non-blank line as the header.
3. Split every later line on `,` and parse its first two fields as latitude and longitude. Skip a line that has fewer than two fields or does not parse.
4. Classify the point with a first-match search over a table of closed latitude/longitude rectangles.
5. Increment the counter of the label when it is one of the six continent keys.

The three classifiers differ:

- `fires_mqtt.py` tests a Greenland exclusion box first.
- `fires.py` shifts the longitude by 360 once each way and sorts each bound pair. It counts Greenland as north_america and answers "unknown" for no match.
- `fires_mqtt_2.py` uses a differently ordered table with a wider Australia box.

The model keeps the three side by side:

- `regions.dfy` (module `Regions`): the rectangle, the containment test and the generic first-match classifier with an optional exclusion box.
- `feed.dfy` (module `Feed`): the line decoder (`str.split` as `Split`, with `Join` as its inverse), the data-line filter, and `Aggregate`. `Aggregate` is the reference definition of the counts: a tally over the labels of the decoded points of the data lines. `Scan` is the same counts, read one line at a time. The lookback clamp is here too.
- `fires_mqtt.dfy`, `fires_flask.dfy`, `fires_mqtt_2.dfy`: each script's tables, its classifier, its counting loop as a method proved equal to `Aggregate`, and its surrounding state. That state is the reconnect backoff for `fires_mqtt.py` and the cache for `fires.py`, whose `_cache` becomes the class `Cache`.
- `variants.dfy`: points on which the three classifiers disagree, and one five-line body that all three count identically.

Coordinates are `real`. Python's `float()` is a parameter `parse: string -> Option<real>`, where `None` stands for its `ValueError`. A classifier is a function value.

Three consequences of the code that are easy to miss:

- (-9.9, -9.9) lies in the africa box of all three tables, so the five-line body of `Variants.ExampleCounts` counts africa 1.
- `norm_lon` shifts at most once each way. Its result lies in [-180, 180] only for longitudes in [-540, 540], and applying it twice equals applying it once only there (`FiresFlask.NormLonNotIdempotent`).
- `fires.py` stores `int(time.time())` as the cache time. A snapshot built at time T is therefore served for between 299 and 300 seconds after T, not a full 300 (`FiresFlask.CacheWindow`).

## Model

| member | source | states |
|---|---|---|
| Regions.InBox | fires_mqtt.py:46-47 | a point can be inside only a box whose ranges are stored low end first |
| Regions.FirstName | fires_mqtt_2.py:36-39 | the name of the first containing row, or "" when no row contains the point |
| Regions.InBoxBounds | fires_mqtt.py:46-47 | both ends of each range are inside; a range stored high end first contains no point, since `in_box` does not sort |
| Regions.FirstMatch | fires_mqtt.py:53-56 | the result is None iff no row contains the point; otherwise it is a containing row with no containing row before it |
| Regions.FirstMatchAt | fires_mqtt_2.py:36-39 | a containing row with no containing row before it is the one the search stops at |
| Regions.Classify | fires_mqtt.py:49-56 | a point in the exclusion box gets no label; otherwise the label is None iff no row contains the point, and any label is a row's name |
| Regions.ClassifyFirst | fires_mqtt.py:53-55 | outside the exclusion box, the first containing row names the point |
| Regions.ClassifyUnique | fires_mqtt.py:53-55 | a point in exactly one row, not excluded, gets that row's name whatever the order of the table |
| Feed.Split | fires_mqtt.py:70 | `split(",")` yields one field more than there are commas in the line (`Occurrences`), so exactly one field iff the line has no comma |
| Feed.DecodeLine | fires_mqtt.py:70-76 | a line is skipped iff it has no comma or one of its first two fields does not parse |
| Feed.DecodeLinePoint | fires_mqtt.py:74 | a decoded line's point is its first two fields, parsed as latitude and longitude |
| Feed.JoinSplit | fires_mqtt.py:70 | `split(",")` loses nothing: joining its fields with "," gives the line back |
| Feed.SplitFieldsFree | fires_mqtt.py:70 | no field of `split(",")` contains a comma |
| Feed.SplitJoin | fires_mqtt.py:70 | splitting comma-free fields joined by "," gives back exactly those fields |
| Feed.DecodeFields | fires_mqtt.py:70-76 | a line decodes to its first two fields when both parse, and is skipped when either does not, whatever fields follow |
| Feed.DecodeNoComma | fires_mqtt.py:70-72 | a line without a comma has fewer than two fields and is skipped |
| Feed.NonBlank | fires_mqtt.py:64-66 | the kept lines are no more than the input lines, and none of them is blank |
| Feed.NonBlankIdempotent | fires_mqtt.py:65-66 | dropping blank lines first changes neither the non-blank lines nor the data lines |
| Feed.DataLines | fires_mqtt.py:63-69 | the non-blank lines are the header followed by the data lines; with no non-blank line there is no data |
| Feed.HeaderDiscarded | fires_mqtt.py:63-69 | the first non-blank line is the header however many blank lines precede it, and every later non-blank line is data |
| Feed.DataLinesSnoc | fires_mqtt.py:63-69 | one more line: a blank line or the header adds no data line, any later non-blank line is appended |
| Feed.Points | fires_mqtt.py:70-76 | there are at most as many decoded points as lines |
| Feed.Zeros | fires_mqtt.py:62 | `{k: 0 for k in keys}` has exactly the keys, all zero |
| Feed.TallyKeys | fires_mqtt.py:62 | the counts have exactly the keys, and with no labels every counter is zero |
| Feed.AggregateEmpty | fires_mqtt.py:62 | an empty body yields all-zero counters |
| Feed.AggregateKeys | fires_mqtt.py:62 | the counts of any body have exactly the keys |
| Feed.Bump | fires.py:62 | `counts[c] += 1` guarded by membership: the keys stay the same, `c`'s counter goes up by one if it is a key, and every other counter is unchanged |
| Feed.Aggregate | fires_mqtt.py:62-80 | the reference counts have exactly the keys, and no counter exceeds the number of data lines |
| Feed.TallySnoc | fires_mqtt.py:77-79 | one more label increments its own counter by one if it is a key and changes nothing else |
| Feed.CountMultiplicity | fires_mqtt.py:64-79 | a counter is the multiplicity of its key among the labels |
| Feed.TallyPermutation | fires_mqtt.py:77-79 | the counts depend only on the multiset of labels, not on their order |
| Feed.LabelsPermutation | fires_mqtt.py:77 | labelling a reordering of the points gives a reordering of the labels |
| Feed.PointsPermutation | fires_mqtt.py:77-79 | reordering the decoded points does not change the counts |
| Feed.PointsOfPermutation | fires_mqtt.py:70-76 | decoding a reordering of the lines gives a reordering of the points |
| Feed.PointsNonBlank | fires_mqtt.py:65-76 | a blank line never decodes, so dropping blank lines first keeps the same points |
| Feed.PointsAppend | fires_mqtt.py:70-76 | decoding is line by line: the points of two bodies one after the other are their points one after the other |
| Feed.LinesPermutation | fires_mqtt.py:63-80 | after the header, any reordering of the remaining lines yields the same counts |
| Feed.TotalBump | fires_mqtt.py:78-79 | an increment adds one to the total exactly when its label is a key |
| Feed.TotalTally | fires_mqtt.py:77-80 | with distinct keys, the counters sum to the number of labels that are keys |
| Feed.AggregateTotal | fires_mqtt.py:77-80 | each data line is counted at most once: the total equals the number of key labels and is at most the number of data lines |
| Feed.AggregateSnoc | fires_mqtt.py:64-79 | a blank line, the header or an undecodable line leaves the counts alone; any other line bumps exactly its label's counter |
| Feed.Scan | fires_mqtt.py:62-80 | the line-at-a-time counts always have exactly the keys |
| Feed.ScanIsAggregate | fires_mqtt.py:63-80 | reading the lines one at a time with the header flag yields the tally of the labels of the data lines |
| Feed.ClampDays | fires_mqtt.py:95 | the window is in [1, 7], unchanged when already in range, 1 below and 7 above |
| FiresMqtt.KeysFacts | fires_mqtt.py:37-62 | the keys are the CONTINENTS names in order, as `CONTINENTS.keys()` gives them; they are distinct and none is the empty "ignore" label |
| FiresMqtt.ContinentFor | fires_mqtt.py:49-56 | the result is "" or a key; a point in the Greenland box gets ""; the result is "" iff the point is in the Greenland box or in no box |
| FiresMqtt.ContinentForFirst | fires_mqtt.py:53-55 | outside Greenland, the first CONTINENTS row containing the point names it |
| FiresMqtt.ContinentForNone | fires_mqtt.py:56 | a point in none of the six boxes is ignored |
| FiresMqtt.FetchCounts | fires_mqtt.py:58-80 | the loop returns exactly the six keys, equal to the reference counts, and their total is at most the number of data lines |
| FiresMqtt.NextBackoff | fires_mqtt.py:155 | the delay after a failure is at most 30, grows until it reaches 30, and stays in [1, 30] when it starts there |
| FiresMqtt.NextBackoffAfter | fires_mqtt.py:155 | `min(backoff * 2, 30)` of the delay in force is the delay after one more failure |
| FiresMqtt.SleepScheduleBounds | fires_mqtt.py:154-155 | the delay is always in [1, 30], and one sleep in [1, 30] is taken per failed connect |
| FiresMqtt.FailureRun | fires_mqtt.py:112-155 | from a fresh start, consecutive failures sleep 1, 2, 4, 8, 16, 30, 30, ... seconds |
| FiresMqtt.Reconnect | fires_mqtt.py:112-155 | the loop's delay equals 2^(failures since the last success) capped at 30, and its sleeps are the reference schedule, each in [1, 30] |
| FiresFlask.FlaskKeysDistinct | fires.py:50 | the six counter keys are distinct |
| FiresFlask.NormLon | fires.py:18-21 | above 180 shift down by 360, below -180 shift up by 360, otherwise unchanged; on [-540, 540] the result is in [-180, 180] |
| FiresFlask.NormLonIdempotent | fires.py:18-21 | on [-540, 540] normalising twice equals normalising once |
| FiresFlask.NormLonNotIdempotent | fires.py:18-21 | outside [-540, 540] it is not idempotent: 600 gives 240, and 240 gives -120 |
| FiresFlask.Sorted | fires.py:24 | the result holds the same two bounds, smaller first |
| FiresFlask.InsideSymmetric | fires.py:23-25 | giving either bound pair reversed gives the same answer |
| FiresFlask.InsideOrdered | fires.py:23-25 | with bounds written smaller first, `inside` is the closed stored-order test and both corners are inside |
| FiresFlask.Detect | fires.py:27-35 | the label is "unknown" or one of the six counter keys |
| FiresFlask.Inside | fires.py:23-25 | a point is inside iff each coordinate lies between its two bounds, given in either order, ends included |
| FiresFlask.DetectIsFirstMatch | fires.py:27-35 | `detect` is the first match over (europe, asia, africa, australia, north_america, Greenland as north_america, south_america) on the normalised longitude, "unknown" when none matches |
| FiresFlask.DetectUnknown | fires.py:35 | "unknown" iff no box contains the normalised point |
| FiresFlask.DetectGreenland | fires.py:33 | a point in the Greenland box is north_america iff none of europe, asia, africa, australia contains it |
| FiresFlask.CountDetections | fires.py:50-62 | the loop returns exactly the six keys, equal to the reference counts with `detect` ("unknown" never counted), total at most the data lines |
| FiresFlask.Trunc | fires.py:64 | `int()` truncates toward zero: the result is within one below a non-negative argument and within one above a negative one |
| FiresFlask.RequestedDays | fires.py:44 | an absent argument means 1 day; the argument is rejected iff `int()` rejects its text; an accepted argument gives the clamp of its integer, in [1, 7] |
| FiresFlask.Cache.Fresh | fires.py:42 | the cache is fresh iff it holds a snapshot and less than 300 seconds have passed since the stored time; it is stale from then on |
| FiresFlask.Cache.constructor | fires.py:37 | the cache starts with time 0 and no data, so it is never fresh |
| FiresFlask.Fires | fires.py:40-66 | a fresh cache is answered as stored and left alone, whatever the days argument; a bad argument or failed fetch answers an error and leaves the cache alone; otherwise the new snapshot holds the reference counts, `int` of the clock and the clamped days, and replaces both cache fields |
| FiresFlask.CacheWindow | fires.py:42 | a snapshot built at T is fresh before T+299 and never at or after T+300 |
| FiresMqtt2.BoxKeysFacts | fires_mqtt_2.py:13-25 | the keys of `c` are the BOX names in order, distinct, none empty |
| FiresMqtt2.Label | fires_mqtt_2.py:36-39 | the counter hit is "" (none) iff no BOX row contains the point as stored, and otherwise a BOX key |
| FiresMqtt2.LabelFirst | fires_mqtt_2.py:36-39 | the first BOX row containing the point names its counter |
| FiresMqtt2.CountPoint | fires_mqtt_2.py:36-39 | the inner loop with `break` increments exactly the counter of the first containing row, or nothing |
| FiresMqtt2.CountsLastDays | fires_mqtt_2.py:22-40 | the loop returns exactly the six BOX keys, equal to the reference counts, total at most the data lines |
| Variants.GreenlandInterior | fires.py:33 | (72, -40) is ignored by fires_mqtt.py, north_america in fires.py, in no box of fires_mqtt_2.py |
| Variants.Iceland | fires_mqtt.py:51-52 | (64, -19) is excluded as Greenland by fires_mqtt.py but europe in the other two |
| Variants.AfricaEuropeOverlap | fires_mqtt.py:37-44 | (36, 10) lies in two boxes: africa by CONTINENTS order, europe by the order of `detect` and BOX |
| Variants.AustraliaSouth | fires_mqtt_2.py:19 | (-47, 170) is counted as australia only by the wider BOX row |
| Variants.AustraliaEdge | fires.py:16 | (-44.5, 130) is australia in fires.py and fires_mqtt_2.py but outside the australia box of fires_mqtt.py |
| Variants.LongitudeBeyond180 | fires.py:28 | longitude 200 is north_america only where it is normalised first |
| Variants.ExamplePoints | fires_mqtt.py:63-76 | of the example body, the header and the comma-less last line are skipped and three points remain, in order |
| Variants.ExampleLabelsMqtt | fires_mqtt.py:49-56 | fires_mqtt.py labels the three example points europe, asia, africa |
| Variants.ExampleLabelsFlask | fires.py:27-35 | so does fires.py |
| Variants.ExampleLabelsMqtt2 | fires_mqtt_2.py:36-39 | so does fires_mqtt_2.py |
| Variants.ExampleKeys | fires_mqtt.py:62 | the three scripts count under the same six keys |
| Variants.ExampleCounts | fires_mqtt.py:58-80 | for the example body all three scripts report europe 1, asia 1, africa 1 and 0 elsewhere |

## Left out

- HTTP: `requests.get`, `raise_for_status` and `iter_lines`. The body is a given sequence of lines. In `fires.py`, the fetch is an outcome, either the lines or a raised error.
- The MQTT client (connect, publish, last will, `loop_start`/`loop_stop`, disconnect), JSON encoding of the payloads, Flask routing and `jsonify`. These are foreign library calls. `fires.py` answers with a `Snapshot` datatype instead.
- The publish loops, signal handlers, the `stop` flag, `argparse`, `time.sleep`, and the remainder-of-period sleep with its float arithmetic. These are process, clock and concurrency concerns.
- `time.time()` is a real-valued parameter (`now` at the freshness test, `doneAt` when the payload is built).
- Python's `float()` and `int()` on text are abstract partial parameters, so NaN, infinities and IEEE rounding are not modelled.
- Concurrent requests to `/fires`: the model is single-threaded and does not capture two requests both refreshing a stale cache.
- FiresMqtt.Reconnect: the connect attempts are given as a sequence of outcomes, since the outcome of `client.connect` is outside the model. The failures of the inner fetch loop, which sleep a fixed 5 seconds without touching the backoff, are not modelled.
- FiresMqtt.Reconnect: in `fires_mqtt.py` a successful connect ends the reconnect loop for good. The inner publish loop catches every error and leaves only when `stop` is set, and then the outer loop ends too. So the code only produces failures followed by at most one success. Sequences with attempts after a success have no counterpart in the code, and the model does not capture reconnects after a later broker drop, which the MQTT library handles on its own thread.
- The inner loop over BOX in `counts_last_days` is a separate method, `CountPoint`, with the same effect as the code's inline loop.
- The counting loops use `if`/`else` where the code uses `continue`. The control flow is the same.
- The hard-coded API keys, URL templating and the fixed `DAYS = 1` of `fires_mqtt_2.py` are left out; they are constants that never reach the counting.
