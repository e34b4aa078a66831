# heat_sensor: a verified model of the per-sensor monitor

The repository watches DS18B20 one-wire temperature sensors on a Raspberry Pi.
One `TemperatureSensor` object per sensor samples its `w1_slave` device file,
keeps the samples in a pandas Series indexed by datetime, and every
`check_interval` seconds checks the last `check_period` seconds of samples
against an optional minimum and maximum, sending a Telegram message when more
than 66% of the window lies beyond a bound, or when the window is empty.

This project models that class in Dafny:

- `wrappers.dfy` (`Wrappers`): the `Option` type used for Python's `None`.
- `decimal.dfy` (`Decimal`): decimal integers as text, the `[+-]?[0-9]+` group
  of the second device line and Python's `str(int)`, with their round trip.
- `w1_slave.dfy` (`W1Slave`): the two regular expressions of `_read_sensor` as
  character-level predicates, the reader itself (`ReadSensor`, milli-degrees),
  and the driver's line format with the proofs that the reader accepts exactly
  the YES lines of that format and returns the temperature written in them.
- `readings.dfy` (`Readings`): the Series as its entries in index order;
  `series[t] = v`, the closed-window `truncate`, `interval[-1]`, the
  sorted-index requirement of `truncate`, and the intended
  `truncate(before=...)` of `remove_data_before`.
- `thresholds.dfy` (`Thresholds`): the 0.66 breach rule, compared exactly as
  `100 * k > 66 * n`, and the exact mean.
- `messages.dfy` (`Messages`): the two messages as values, their pieces and
  their text, in particular the "Soll:" suffix.
- `sensor.dfy` (`Sensor`): the `TemperatureSensor` class (fields `last_check`
  and `data` updated in place by its methods), the outbox that stands for
  `send_telegram` (whose request may raise a connection error), and one
  iteration of `monitor`.

Conventions: instants are integers in microseconds (the resolution of
`datetime`); `check_interval` and `check_period` are seconds; temperatures and
bounds are integer milli-degrees Celsius; the device file, the clock and
whether each `send_telegram` call meets a connection error are method
parameters.

Three behaviours of the code are easy to misread, and the model states them
as the code has them. The check fires only when strictly more than
`check_interval` seconds have passed, not when exactly that much has. A clock
that steps back between samples is not tolerated once the index holds both a
rise and a fall (samples at 10, 30 and then 20, say; a single step back after
one sample still leaves a descending index): the index is then neither
ascending nor descending, pandas' `truncate` raises `ValueError`, the
exception leaves the `while True` loop and the sensor's thread ends
(`Readings.ClockBackwardUnsortsIndex`, `Sensor.TemperatureSensor.MonitorStep`).
The same `ValueError` is raised for a negative `check_period`, where the
window's start lies after its end; the constructor's assertion does not rule
that out. And `send_telegram` calls `requests.get` without a `try`: a
connection error propagates out of `check_temperature` and out of the loop,
so the thread ends and the messages after the failing one are not sent
(`Sensor.FailedLowSendSkipsHigh`); an HTTP status other than 200 is only
logged.

## Model

| member | source | states |
|---|---|---|
| `Decimal.LeadingDigits` | temperature_sensor.py:56 | the greedy `[0-9]+` run: every character before the result is a digit and the next one is not |
| `Decimal.ParseSigned` | temperature_sensor.py:56 | `[+-]?[0-9]+` matches at the start exactly when the text begins with a digit, or with a sign followed by a digit |
| `Decimal.NatToDecimal` | temperature_sensor.py:34 | `str(n)` is a non-empty run of digits without a leading zero |
| `Decimal.IntToDecimal` | temperature_sensor.py:34 | `str(i)` starts with a minus sign exactly for negative i, and is all digits otherwise |
| `Decimal.DecimalRoundTrip` | temperature_sensor.py:58 | the value of the digits of n is n |
| `Decimal.LeadingDigitsOfRun` | temperature_sensor.py:56 | a digit run followed by a non-digit or nothing is exactly what the greedy match takes |
| `Decimal.SignedRoundTrip` | temperature_sensor.py:56-58 | parsing `str(i)` followed by any non-digit text gives back i |
| `Decimal.PlusSignAccepted` | temperature_sensor.py:56-58 | an explicit `+` is accepted and does not change the value |
| `W1Slave.MatchesLine1` | temperature_sensor.py:54 | the first-line pattern, anchored at the start and open at the end; `W1Slave.Line1Accepted` and `W1Slave.Line1Complete` prove it accepts exactly the driver's YES lines |
| `W1Slave.ParseLine2` | temperature_sensor.py:56-58 | line 2 yields a value exactly when it has nine hex-byte fields, then `t=`, then a signed integer |
| `W1Slave.ReadSensor` | temperature_sensor.py:49-63 | a reading exists only for a readable file whose first line has the valid-CRC marker and whose second line matches; otherwise absent, and line 2 is not consulted when line 1 fails |
| `W1Slave.HexValue` | temperature_sensor.py:54 | the value of a lowercase hex digit, inverse of its rendering |
| `W1Slave.PairByte` | temperature_sensor.py:54 | two hex digits spell a byte whose rendering is those two digits |
| `W1Slave.Line1Accepted` | temperature_sensor.py:54 | a first line in the driver's format, with any trailing text, matches exactly when its marker is YES and not NO |
| `W1Slave.Line2RoundTrip` | temperature_sensor.py:56-58 | a second line in the driver's format gives back the milli-degree integer written into it |
| `W1Slave.ReadSensorRoundTrip` | temperature_sensor.py:52-58 | a whole device file in the driver's format reads as its temperature with YES and as absent with NO |
| `W1Slave.Line1Complete` | temperature_sensor.py:54 | every first line that matches is the driver's YES format followed by some trailing text |
| `W1Slave.ValidReadingExample` | temperature_sensor.py:52-58 | the all-zero bytes with `t=21500` read as 21500 milli-degrees (21.5 degrees) |
| `W1Slave.CrcFailureExample` | temperature_sensor.py:53-55 | a first line ending in NO gives no reading whatever the second line holds |
| `Readings.Store` | temperature_sensor.py:74 | `data[t] = v` on an existing label overwrites that entry in place and leaves every other entry and every position's label as it was; on a new label it keeps the old entries as they were and appends `(t, v)` |
| `Readings.StoreUpdatesMap` | temperature_sensor.py:74 | as a dictionary the Series afterwards is `data[t := v]`: every other timestamp is untouched, and timestamps stay distinct |
| `Readings.Window` | temperature_sensor.py:78-80 | the window holds exactly the entries with `period_start <= t <= period_end`, and no more entries than the Series |
| `Readings.WindowConcat` | temperature_sensor.py:80 | the window keeps index order: windowing a concatenation concatenates the windows |
| `Readings.Latest` | temperature_sensor.py:81 | `latest` is absent exactly for an empty window, and is otherwise its last entry in index order, which for an ascending index carries the newest timestamp |
| `Readings.StoreAfterAll` | temperature_sensor.py:74 | a sample newer than every stored one is appended and the index stays strictly ascending, hence sorted |
| `Readings.LatestIsNewest` | temperature_sensor.py:74-81 | the sample just stored under the newest timestamp is the `latest` of a window that covers it |
| `Readings.ClockBackwardUnsortsIndex` | temperature_sensor.py:74-80 | samples at 10, 30 and then 20 leave an index that is neither ascending nor descending, so truncate raises |
| `Readings.TruncateBefore` | temperature_sensor.py:111-112 | the intended truncation keeps exactly the entries at or after the cutoff |
| `Readings.TruncateKeepsDistinct` | temperature_sensor.py:111-112 | the intended truncation keeps timestamps distinct |
| `Readings.TruncateNothingOlder` | temperature_sensor.py:111-112 | a Series with nothing older than the cutoff is left unchanged |
| `Readings.TruncateIdempotent` | temperature_sensor.py:111-112 | truncating twice at the same cutoff is truncating once |
| `Readings.RemoveDataBeforeKeepsOldEntries` | temperature_sensor.py:111-112 | an entry older than the index survives the as-written call but not the intended truncation |
| `Thresholds.CountBelow` | temperature_sensor.py:89-90 | `mask.sum()` for `interval < min_value`: at most the window's size |
| `Thresholds.CountAbove` | temperature_sensor.py:95-96 | `mask.sum()` for `interval > max_value`: at most the window's size |
| `Thresholds.LowBreach` | temperature_sensor.py:88-90 | the low alert fires only with a minimum set, a non-empty window and at least one entry below the minimum |
| `Thresholds.HighBreach` | temperature_sensor.py:94-96 | the high alert fires only with a maximum set, a non-empty window and at least one entry above the maximum |
| `Thresholds.Mean` | temperature_sensor.py:92 | `interval.mean()` in degrees; `Thresholds.MeanBetween` and `Thresholds.MeanOfConstant` state its bounds and its value for a constant window |
| `Thresholds.SumBetween` | temperature_sensor.py:92 | readings between lo and hi sum to between n * lo and n * hi |
| `Thresholds.MeanBetween` | temperature_sensor.py:92 | `interval.mean()` lies between any lower and upper bound of the window's readings |
| `Thresholds.CountConcat` | temperature_sensor.py:88-98 | the breach counts of a concatenation are the sums of the counts |
| `Thresholds.CountBelowAll` | temperature_sensor.py:89-90 | every entry is counted below the bound exactly when all lie below it |
| `Thresholds.CountBelowNone` | temperature_sensor.py:89-90 | no entry is counted below the bound exactly when none lies below it |
| `Thresholds.CountAboveNone` | temperature_sensor.py:95-96 | no entry is counted above the bound exactly when none lies above it |
| `Thresholds.FractionOfWindow` | temperature_sensor.py:89-90 | for a window with part a below the minimum and part b not, the low alert fires exactly when 100 * \|a\| > 66 * (\|a\| + \|b\|) |
| `Thresholds.ExactThresholdDoesNotFire` | temperature_sensor.py:90 | 33 of 50 entries below the minimum, a fraction of exactly 0.66, raises no alert |
| `Thresholds.AboveThresholdFires` | temperature_sensor.py:90 | 34 of 50 entries below the minimum raises the low alert |
| `Thresholds.CountMonotone` | temperature_sensor.py:88-98 | the count below grows and the count above shrinks as the bound rises |
| `Thresholds.BreachMonotone` | temperature_sensor.py:88-98 | raising the minimum only adds low alerts; lowering the maximum only adds high alerts |
| `Thresholds.BelowAndAboveDisjoint` | temperature_sensor.py:88-98 | with min <= max the entries below min and above max together number at most the window size |
| `Thresholds.NoDoubleAlert` | temperature_sensor.py:88-98 | with min <= max a check never raises both alerts; both fire only for a minimum above the maximum |
| `Thresholds.SumOfConstant` | temperature_sensor.py:92 | a window whose entries all read v sums to n * v |
| `Thresholds.MeanOfConstant` | temperature_sensor.py:92 | a window whose entries all read v has mean v |
| `Messages.SollPieces` | temperature_sensor.py:38-45 | the "Soll:" pieces are empty exactly when no bound is set, show every configured bound and no other value, and hold no measured temperature |
| `Messages.Pieces` | temperature_sensor.py:33-47 | a warning shows the mean and the last value and ends with its "Soll:" pieces; the gap message of line 83 shows the window's start and no temperature |
| `Messages.Render` | temperature_sensor.py:33-47 | the text of a message is its pieces' texts in order, each value printed by its formatter; `Messages.RenderConcat` states that appending pieces appends texts |
| `Messages.RenderConcat` | temperature_sensor.py:34-45 | building a message by appending pieces renders as appending their texts |
| `Messages.SollSuffixTable` | temperature_sensor.py:36-45 | the "Soll:" suffix is `> min°C.` for min only, `< max°C.` for max only, `> min°C, < max°C.` for both and empty for neither |
| `Messages.WarningEndsWithSoll` | temperature_sensor.py:33-47 | every warning's text ends with the "Soll:" suffix of its bounds |
| `Sensor.CheckDue` | temperature_sensor.py:107-108 | the check is not due when exactly `check_interval` seconds have passed, and, for a non-negative interval, never at or before the last check |
| `Sensor.Record` | temperature_sensor.py:68-74 | a failed sample leaves the Series as it is; a successful one stores the value under dt, as a dictionary update that keeps timestamps distinct |
| `Sensor.TruncateRaises` | temperature_sensor.py:80 | truncate raises for a start after the end, and never for a strictly ascending index, or one of at most two entries, with start at or before end |
| `Sensor.Delivered` | util.py:12 | of n sends in a row, those before the first connection error go out: none of them fails, and the next one, if any, does |
| `Sensor.DeliveredBounds` | util.py:12 | without connection errors every message goes out; an error on the first send stops all of them |
| `Sensor.FailedLowSendSkipsHigh` | temperature_sensor.py:88-98 | with both bounds breached, a connection error on the low warning means the high warning is never sent, even if it would have gone through |
| `Sensor.RetryRead` | temperature_sensor.py:65-72 | a sample succeeds exactly when one of the two reads does; the first read wins, the retry is used only after a failed first read |
| `Sensor.CheckMessages` | temperature_sensor.py:81-98 | an empty window gives exactly one "could not measure" message and no warning; a non-empty one gives one warning per breached bound (at most two), built from the window's mean and last value, and no gap message |
| `Sensor.AllBelowMinimumWarnsOnce` | temperature_sensor.py:88-92 | readings all below the minimum, with no maximum, give exactly one warning whose mean and last value are that reading |
| `Sensor.WithinBoundsIsSilent` | temperature_sensor.py:88-98 | a non-empty window within both bounds sends nothing |
| `Sensor.Telegram.Send` | util.py:8-15 | a connection error raises and delivers nothing; otherwise the message is appended to the outbox, whatever the HTTP status |
| `Sensor.TemperatureSensor.constructor` | temperature_sensor.py:12-31 | the configuration is stored, `last_check` is the creation time and the Series is empty |
| `Sensor.TemperatureSensor.Create` | temperature_sensor.py:20 | no sensor is made unless `check_period > check_interval` |
| `Sensor.TemperatureSensor.AddSensorReading` | temperature_sensor.py:65-74 | at most two reads, the second only after a failed first; with both failed the Series is unchanged, otherwise it is `data[dt := value]` |
| `Sensor.TemperatureSensor.CheckTemperature` | temperature_sensor.py:76-98 | `last_check` becomes the check time whatever happens; the Series is not changed; truncate raises on an unsorted index or a negative period, sending nothing; otherwise the window's messages are sent in order up to the first connection error, which ends the check |
| `Sensor.TemperatureSensor.SendAlerts` | temperature_sensor.py:81-98 | the messages sent for a window are the prefix of `CheckMessages` of it before the first send that raises, and the result says whether one raised |
| `Sensor.TemperatureSensor.MonitorStep` | temperature_sensor.py:100-109 | one loop iteration samples at `now` and checks exactly when `now - check_interval > last_check`; a check that raises, in truncate or in a send, stops the loop; with a forward clock and a non-negative period the index stays sorted and only a connection error stops the loop |
| `Sensor.TemperatureSensor.RemoveDataBefore` | temperature_sensor.py:111-112 | as written, the Series is left unchanged; truncate still raises on an unsorted index |
| `Sensor.TemperatureSensor.DropDataBefore` | temperature_sensor.py:111-112 | the intended removal raises on an unsorted index and leaves the Series as it is; otherwise it keeps exactly the entries at or after the index |

## Findings

| source | as written | input that shows it | evidently intended | confidence | as-written member | corrected member |
|---|---|---|---|---|---|---|
| temperature_sensor.py:111-112 | `self.data.truncate(before=index, copy=False)` returns a new Series that is discarded, so `self.data` keeps every entry | a Series holding an entry at time 0, `remove_data_before` with index 10: the entry remains | drop every entry older than `index` | high, not executed | `Sensor.TemperatureSensor.RemoveDataBefore`, `Readings.RemoveDataBeforeKeepsOldEntries` | `Sensor.TemperatureSensor.DropDataBefore`, `Readings.TruncateBefore` |

## Left out

- File opening and `readline` are replaced by the `DeviceFile` value: "unreadable" stands for any exception while opening or reading the first line, and a missing second line for an exception on the second `readline`; closing the file is not modelled.
- `datetime.now()` is the `now` parameter of the constructor and of the loop step.
- Logging (`self._logger`) is left out: it has no effect on state or messages.
- `send_telegram` (util.py) and telegram.py perform HTTP requests; they are replaced by the `Telegram` outbox, which records every message whose request returned. Whether a request meets a connection error is a parameter (`errors`, one flag per send of a check).
- Sensor.Telegram.Send: `requests.get` has no timeout, so a stalled request blocks the sensor's thread forever; blocking is not modelled, only a request that returns or raises. A non-200 status is logged and the message then counts as handed over, since the source goes on as after a success.
- `ReadSensor`: the value is kept as integer milli-degrees; the float division by 1000 and its rounding for very large integers are not modelled.
- `Thresholds.LowBreach`, `Thresholds.HighBreach`: compare exact rationals (`100 * k > 66 * n`) where the source compares the float `k / n` with the float 0.66, and compare milli-degrees with bounds given in milli-degrees, so bounds with more than three decimals are not modelled.
- `Thresholds.Mean`: the mean is exact where pandas computes it in floating point.
- `Messages.Render`: Python's formatting is a parameter of the text (`Formats`), not modelled: one function for the floats (mean and last value, printed like `65.0`), one for the configured bounds (printed as given, integers like `70` in main.py:11-16) and one for the datetime in the gap message.
- The pandas behaviour of the initial empty Series (its index type before the first sample) is not modelled; it is treated like any empty Series.
- `monitor` is modelled as one iteration (`MonitorStep`); the unbounded `while True` loop is not.
- main.py (one thread per sensor, the rotating log file, argument parsing) is not modelled; it is concurrency and process wiring. Its call passes a `summary_interval` argument that `monitor` does not accept.
- Sensor.TemperatureSensor.Create: Python's `assert` is skipped under `python -O`; the model always checks it.
- Summaries, backups, CSV export and plots do not exist in this code and are not modelled.
