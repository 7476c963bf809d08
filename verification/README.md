# disk-io-healthcheck, modelled in Dafny

A model of the core of a disk-I/O health monitor. The monitor reads the
kernel's per-block-device counter file (`/proc/diskstats`: one line per
device, 14 positional fields in the kernel's iostats layout, later fields
ignored). It keeps the latest reading of each device and the field-wise delta
from the reading before it. From the delta of one device it derives read,
write and total KB/s. Each of these goes through a moving average. The check
is unhealthy when an average exceeds a configured nonzero ceiling.

Modules (one per source file, plus the pieces of Go's standard library the
core relies on):

- `Wrappers` (`wrappers.dfy`): `Option` (Go's nil pointer) and `Result` (Go's `(value, error)`).
- `Uint64` (`uint64.dfy`): `uint64` as `U64`, wrap-around `Wrap`, and Go's `int(x)` conversion `AsGoInt`.
- `Strings` (`strings.dfy`): `strings.Fields` (with `unicode.IsSpace`) and `strings.TrimPrefix`.
- `Strconv` (`strconv.dfy`): `strconv.ParseUint(s, 10, 64)` and its inverse `FormatUint`.
- `Diskstats` (`diskstats.dfy`): `Statline`, the field positions, the parser (`Parse` specifies and
  method `ParseLine` implements it with the source's 14-slot loop), the delta (`Diff`, and method
  `Subtract` with the source's inner loop), the poll (`Apply` and `Poll` specify it, and method
  `Diskstats.Update` implements it on the class's two map fields), `Rate`, `SanitizeDiskName`,
  `Get` and `GetDelta`.
- `MovingAverage` (`movingaverage.dfy`): class `MovingAverage` with its sample queue as a `seq`
  field and the incremental `average`; `Valid()` states that the average is the mean of the
  retained samples.
- `Healthchecks` (`healthchecks.dfy`): class `DiskstatsHealthcheck`, which owns three averages and
  borrows a `Diskstats`. It has the rate conversion and the threshold rule.

Behaviour of the code that a reader might not expect, which the model keeps:

- A poll that hits a malformed line stops there. The lines before it stay recorded, so the poll is
  not atomic (`ApplyPartialCommit`).
- A line with fewer than 14 fields makes the source index past the field list (see Findings).
  The model returns a `MissingField` error at the position where the source would fail.
- `SanitizeDiskName` is not idempotent: `/dev//dev/sda` becomes `/dev/sda`, and a second call
  gives `sda` (`SanitizeNotIdempotent`).
- The first sighting of a device records it but gives no delta. A device missing from a poll
  keeps its old reading and delta. Nothing is ever removed.

## Model

| member | source | states |
|---|---|---|
| `Uint64.Wrap` | diskstats/diskstats.go:141 | a `uint64` result is the exact value when it is in range and agrees with it modulo 2^64 otherwise |
| `Uint64.AsGoInt` | healthchecks/diskstats.go:44 | `int(x)` of a `uint64` is a 64-bit signed value congruent to x; it is negative exactly when x ≥ 2^63 |
| `Strings.Fields` | diskstats/diskstats.go:112 | every field that `strings.Fields` yields is non-empty and free of white space; `FieldsOfSpaced` shows they are exactly the maximal non-space runs, in order |
| `Strings.FieldsOfJoinWords` | diskstats/diskstats.go:112 | splitting a space-separated line of words gives back exactly those words, in order |
| `Strings.FieldsSkipsLeadingSpace` | diskstats/diskstats.go:112 | leading white space does not change the fields |
| `Strings.FieldsOfSpace` | diskstats/diskstats.go:112 | a string of white space alone (any `unicode.IsSpace` character) has no fields, so trailing white space adds none |
| `Strings.FieldsWordThenSpace` | diskstats/diskstats.go:112 | a word followed by a run of white space of any length yields that word and then the fields of the rest |
| `Strings.FieldsOfSpaced` | diskstats/diskstats.go:112 | a line of leading white space, words separated by white-space runs of any length, and optional trailing white space splits into exactly those words, in order |
| `Strings.TrimPrefix` | diskstats/diskstats.go:166 | the prefix followed by the result is the input when the input starts with the prefix; otherwise the input is returned unchanged |
| `Strconv.ParseUint` | diskstats/diskstats.go:118 | succeeds exactly on non-empty all-digit strings whose value is below 2^64, and then yields that value; the empty string is a syntax error; otherwise a failure is a range error exactly when the leading run of digits is 2^64 or more |
| `Strconv.ParseFormatRoundTrip` | diskstats/diskstats.go:118 | reading back the decimal numeral of any `uint64` gives that number |
| `Strconv.ParseOverflowIsRange` | diskstats/diskstats.go:118-121 | any all-digit numeral of 2^64 or more, leading zeros or not, is a range error; it is not wrapped |
| `Strconv.OverflowBeforeJunkIsRange` | diskstats/diskstats.go:118-121 | digits worth 2^64 or more followed by a non-digit are a range error, not a syntax error |
| `Diskstats.ParseFrom` | diskstats/diskstats.go:113-124 | the corrected field loop: a success had all 14 positions and takes the name from field 3 without writing the name slot; a failure names a position from the start up to 13, a missing field exactly at the end of the field list, a bad number never at the name |
| `Diskstats.ParseFromUnchecked` | diskstats/diskstats.go:113-124 | the loop as written, defined only on 14 or more fields: a success takes the name from field 3; a failure is always a bad number at a numeric position |
| `Diskstats.Parse` | diskstats/diskstats.go:109-126 | a successful parse comes from a line of at least 14 fields, is named by field 3 and has 0 in the name slot; a failure names one of the 14 positions, a missing field exactly at the line's field count |
| `Diskstats.ParseFromSucceeds` | diskstats/diskstats.go:113-124 | the field loop from any position succeeds iff every remaining position up to the 14th exists and, except the name, parses as a `uint64` |
| `Diskstats.ParseFromValue` | diskstats/diskstats.go:113-125 | a successful loop keeps the slots already filled, copies field 3 into the name, fills each later numeric slot from its field and never writes the name slot |
| `Diskstats.ParseFromError` | diskstats/diskstats.go:118-121 | a failed loop reports the first missing or non-numeric position, with that field's text and error kind |
| `Diskstats.ParseSuccess` | diskstats/diskstats.go:109-125 | a line parses iff it has at least 14 fields and all 13 numeric ones are `uint64`s; then the name is field 3, slot i holds field i+1, and slot 2 is 0 |
| `Diskstats.ParseFailure` | diskstats/diskstats.go:113-121 | a failed parse names the first of the 14 positions that is missing or not a `uint64` |
| `Diskstats.ParseOfColumns` | diskstats/diskstats.go:109-112 | a line laid out in columns as the kernel writes it (leading blanks, blank runs of any length, trailing newline) parses exactly as its words do |
| `Diskstats.ParseIgnoresExtraFields` | diskstats/diskstats.go:112-114 | fields after the 14th do not change the parse |
| `Diskstats.CheckedAgreesWithUnchecked` | diskstats/diskstats.go:113-124 | on lines of at least 14 fields, the checked loop and the source's unchecked loop give the same result |
| `Diskstats.ShortLineMissesField` | diskstats/diskstats.go:113-114 | the three-field line `8 0 sda` is outside the unchecked loop; the model reports field 3 missing |
| `Diskstats.ParseLine` | diskstats/diskstats.go:109-126 | the 14-slot array loop returns exactly `Parse(line)`, the parse characterised by the lemmas above |
| `Diskstats.Diff` | diskstats/diskstats.go:139-142 | a delta record has no name; its slots are fixed by `DiffInverse` |
| `Diskstats.DiffInverse` | diskstats/diskstats.go:139-142 | adding the delta back to the older reading in `uint64` gives the newer one; where a counter did not decrease the delta is the plain difference |
| `Diskstats.Subtract` | diskstats/diskstats.go:139-142 | the inner loop builds exactly the delta record `Diff`: an empty name and each slot's wrapped difference |
| `Diskstats.Rate` | diskstats/diskstats.go:154-156 | each byte count is a multiple of 512 and, divided by 512, gives the sector count modulo 2^55 |
| `Diskstats.RateExact` | diskstats/diskstats.go:154-156 | below 2^55 sectors the byte counts are sectors × 512 exactly (e.g. 10 and 20 sectors give 5120 and 10240) |
| `Diskstats.SanitizeDiskName` | diskstats/diskstats.go:158-168 | the result is the resolved name (the input if resolution fails) with at most one leading `/dev/` removed |
| `Diskstats.SanitizeStripsOnce` | diskstats/diskstats.go:166 | an unresolvable `/dev/` + rest yields rest, even when rest starts with `/dev/` |
| `Diskstats.SanitizeKeepsShortName` | diskstats/diskstats.go:162-167 | an unresolvable name without `/dev/` is its own key |
| `Diskstats.SanitizeNotIdempotent` | diskstats/diskstats.go:158-168 | sanitizing twice can differ from sanitizing once |
| `Diskstats.Record` | diskstats/diskstats.go:136-149 | one parsed line becomes the device's reading; a known device's delta becomes the difference from its previous reading; an unknown device gets no delta |
| `Diskstats.Apply` | diskstats/diskstats.go:128-152 | the poll over parsed lines ends without an error iff every line parsed, and an error it returns is that of one of the lines; `ApplyTracksReadings` and `ApplyPartialCommit` give its effect on the maps |
| `Diskstats.Poll` | diskstats/diskstats.go:128-152 | a poll of lines ends without an error iff every line parses, and an error it returns is the parse error of one of the lines |
| `Diskstats.ApplyKeepsConsistent` | diskstats/diskstats.go:136-149 | after any poll every reading is filed under its own name, deltas have an empty name, and only devices with a reading have a delta |
| `Diskstats.ApplyNeverRemoves` | diskstats/diskstats.go:144-148 | a poll never removes a device from either map |
| `Diskstats.ApplyTracksReadings` | diskstats/diskstats.go:131-150 | after a complete poll a device's reading is its last reading; its delta is the difference of its last two readings; with fewer than two readings its delta entry is unchanged (so none on first sight) |
| `Diskstats.ApplyLastReading` | diskstats/diskstats.go:131-148 | after a complete poll a device has a reading iff it had one or was read, and the reading is the last of those |
| `Diskstats.ApplyLastDelta` | diskstats/diskstats.go:137-145 | after a complete poll a device's delta is the difference of its last two readings, or its old delta entry when it has fewer than two |
| `Diskstats.SuccessivePolls` | diskstats/diskstats.go:137-145 | a device read once in each of two successive polls gets the field-wise difference of the two readings as its delta |
| `Diskstats.FirstSighting` | diskstats/diskstats.go:137-149 | the first reading of a device is filed, and no delta is created for it |
| `Diskstats.ApplyPartialCommit` | diskstats/diskstats.go:131-135 | a poll stopped by a parse error keeps what the records before it did and applies nothing after it |
| `Diskstats.PollPartialCommit` | diskstats/diskstats.go:131-135 | on lines: the first unparseable line ends the poll with its error, after the lines before it were recorded |
| `Diskstats.ApplyAppend` | diskstats/diskstats.go:131-150 | polling a concatenation of lines is polling its parts in turn |
| `Diskstats.Diskstats.Empty` | diskstats/diskstats.go:102-103 | a new source starts with two empty maps |
| `Diskstats.Diskstats.New` | diskstats/diskstats.go:91-107 | a fresh source holds the result of one poll of the lines, and that poll's error is returned beside it |
| `Diskstats.Diskstats.Update` | diskstats/diskstats.go:128-152 | the loop over lines leaves the maps and returns the error exactly as `Poll` says, and keeps the maps consistent |
| `Diskstats.Diskstats.Store` | diskstats/diskstats.go:137-148 | one parsed line changes the maps exactly as `Record` says and keeps them consistent |
| `Diskstats.Diskstats.Get` | diskstats/diskstats.go:170-176 | yields a reading iff the sanitized name is a key, and that reading is the device's own |
| `Diskstats.Diskstats.GetDelta` | diskstats/diskstats.go:178-184 | yields a delta iff the sanitized name has one; such a device also has a reading |
| `MovingAverage.MeanOfNonNegative` | movingaverage/average.go:30-43 | samples that are never negative have a non-negative sum and mean |
| `MovingAverage.Slide` | movingaverage/average.go:31-41 | the window length becomes min(old length + 1, capacity), and the slid window is the newest `capacity` elements of the old window followed by the sample, in FIFO order |
| `MovingAverage.Replay` | movingaverage/average.go:30-43 | feeding any samples into an empty window never makes it exceed its capacity |
| `MovingAverage.ReplayIsNewest` | movingaverage/average.go:30-43 | after any sequence of updates the window holds exactly the newest `maxSize` samples, oldest first |
| `MovingAverage.EvictStep` | movingaverage/average.go:32-43 | full window: subtracting oldest/n and adding new/n turns the old mean into the mean of the slid window |
| `MovingAverage.GrowStep` | movingaverage/average.go:36-43 | growing window: subtracting avg/(n+1) and adding new/(n+1) turns the mean of n samples into the mean of n+1 (from an empty window, exactly the new sample) |
| `MovingAverage.MovingAverage.constructor` | movingaverage/average.go:18-28 | a size of 0 or less is clamped to 1; no samples, average 0 |
| `MovingAverage.MovingAverage.Update` | movingaverage/average.go:30-54 | the window slides, its length is min(old length + 1, `maxSize`), the average is again the mean of the retained samples, it is the new sample itself when the window was empty, and it is returned |
| `MovingAverage.WorkedExample` | movingaverage/average.go:30-53 | capacity 3 fed 10, 20, 30, 0 gives averages 10, 15, 20 and 50/3 |
| `Healthchecks.WindowSize` | healthchecks/diskstats.go:44-46 | averages get capacity `AverageCount` when it is between 1 and 2^63 − 1, and 1 when it is 0 or, through the `int` conversion, 2^63 or more |
| `Healthchecks.DivNoLarger` | healthchecks/diskstats.go:74-75 | dividing by a positive interval never increases a count |
| `Healthchecks.KBps` | healthchecks/diskstats.go:74-75 | the KB/s value never exceeds the KB moved |
| `Healthchecks.KBpsIsWholeRate` | healthchecks/diskstats.go:74-75 | the two rounding divisions give the largest k with k × 1024 × interval ≤ bytes |
| `Healthchecks.Throughput` | healthchecks/diskstats.go:72-76 | read and write are the KB/s of the delta's byte counts; the `uint64` total never wraps and equals read + write |
| `Healthchecks.ThroughputOfSectors` | healthchecks/diskstats.go:72-75 | read KB/s is ⌊⌊sectors read / 2⌋ / interval⌋ (512-byte sectors), and write likewise |
| `Healthchecks.VerdictWithinCeilings` | healthchecks/diskstats.go:83-87 | `Verdict`, the source's disjunction of exceeded ceilings, is healthy iff every axis has a zero ceiling or a truncated average within its ceiling |
| `Healthchecks.ZeroCeilingIgnored` | healthchecks/diskstats.go:83-85 | an axis with ceiling 0 cannot change the verdict, whatever its average |
| `Healthchecks.ReadCeilingExample` | healthchecks/diskstats.go:83-87 | with a 100 KB/s read ceiling and no others, an average of 150 is unhealthy and 50 is healthy |
| `Healthchecks.DiskstatsHealthcheck.constructor` | healthchecks/diskstats.go:44-46 | three distinct empty averages of capacity `WindowSize(AverageCount)`; the check starts unhealthy (Go's zero value) |
| `Healthchecks.DiskstatsHealthcheck.Update` | healthchecks/diskstats.go:63-90 | without a delta: unhealthy, averages untouched. With one: each average takes one sample of its KB/s, and the check is healthy iff every nonzero ceiling holds its truncated average. Returns the stored verdict |
| `Healthchecks.DiskstatsHealthcheck.Healthy` | healthchecks/diskstats.go:92-94 | returns the stored verdict and changes nothing |

## Findings

| source | as written | input that shows it | evidently intended | confidence | as-written member | corrected member |
|---|---|---|---|---|---|---|
| diskstats/diskstats.go:113-114 | `ParseLine` reads `fields[i]` for every i < 14 and never checks how many fields the line has | `8 0 sda`: the major and minor numbers parse and the name is copied, then `fields[3]` is out of range and the polling goroutine panics | report a parse error, as it does for a bad number | medium; not executed | `Diskstats.ParseFromUnchecked`, with `Diskstats.ShortLineMissesField` | `Diskstats.ParseFrom`, with `Diskstats.ParseFailure` and `Diskstats.CheckedAgreesWithUnchecked` |

## Left out

- Opening and re-reading the counter file (`os.Open`, `Seek`, `bufio.Scanner`) is not modelled. The model takes the file's lines as a `seq<string>`. Not modelled with it: that `New` ignores its `path` argument, the scanner's 64 KiB line limit, and its unchecked scanner error.
- Goroutine workers, timers and `context` cancellation (`StartWorker`, `Start`) are left out: they are concurrency only. Each `Update` is one call.
- The `sync.RWMutex` locks around the two maps are left out. The maps are plain fields of the class.
- `filepath.EvalSymlinks` is a filesystem call. It is the `resolve` parameter, a fixed partial function from names to resolved paths.
- `Print` and the log lines in `Update` are console output only.
- Flag registration in `Init` is configuration. The check's configuration is a `Config` value given to the constructor. Because the source sizes the averages before flags are parsed, the averages actually get the flag's default count; the model takes whatever count it is given.
- `Init`'s early return when the statistics source reports an error is not modelled. In the source it leaves the three averages nil. The model's constructor takes an existing source and always creates the averages.
- The HTTP probe check, the server's AND over all checks, the legacy handler in `main.go` and the interface declaration are outside this core.
- Generic sample types: the moving average is modelled for integer samples only. The check feeds it `uint64`; float samples are not modelled.
- MovingAverage.MovingAverage.Update: the average is exact over `real`, not `float64`. Rounding and drift are not modelled.
- Healthchecks.KBps: the source divides in `float64` and truncates. The model divides integers, rounding down. The two agree while the kilobyte count is below 2^53.
- Healthchecks.DiskstatsHealthcheck.Update: requires a poll interval above 0. The source would divide by a zero `float64` and convert infinity to `uint64`.
- Healthchecks.Verdict: the source's `uint64(average)` conversion is modelled as `Floor`, which is the same for the non-negative averages the check maintains.
- Strings.Fields: strings are sequences of code points. Go's UTF-8 decoding, including invalid byte sequences, is not modelled.
