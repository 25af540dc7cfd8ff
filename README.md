# Direct data loader for TimescaleDB: a Dafny model

This project models the core of `direct_loader.py`. That script fills the
`energy_readings` hypertable of the smart energy grid monitoring system with
synthetic meter readings. The model covers three parts of it:

- **Meter identifiers** (`meter_ids.dfy`, module `Meters`). The list
  `f"{i:010d}"` for `i` in `1..meters` is built from a decimal numeral
  (`Decimal`) that is left-padded with zeros (`ZeroPad`). `Parse` reads a
  numeral back.
- **One reading** (`readings.dfy`, module `Readings`). `generate_reading`
  classifies the timestamp's hour into a peak, night or daytime band. It then
  draws the power uniformly from that band and derives current and energy from
  it. Times are whole minutes after `start_time`. The hour of a time is computed
  from the clock minute at which `start_time` falls.
- **The generate-and-batch loop of `load_data`** (`batching.dfy`, module
  `Batching`, and `loader.dfy`, module `Loader`). The outer loop
  `while current_time <= end_time` steps five minutes at a time. The inner
  loop `for meter_id in meters` appends one reading per meter to the batch.
  When `len(batch) >= batch_size` the batch is committed. A final partial batch
  is committed after the loop. The database is an append-only sink: the model
  returns the committed batches in commit order, together with
  `total_inserted`.
  - `Generated` is the whole stream of readings, specified as a function.
  - `Chunks` is the reference cutting of a stream into batches.
  - `GenerateAndInsert` and `MeterPass` are the two loops, proved against those
    two functions. A flag `guarded` says whether the progress percentage is
    computed unconditionally, as in the code (`LoadData`), or skipped when
    `total_readings` is 0 (`LoadDataGuarded`).

Randomness is a parameter. `draws(t, j)` gives the values that the
`generate_reading` call for meter position `j` at time offset `t` consumes:
- the `random()` behind `random.uniform`;
- the `random.gauss` voltage;
- the `random.gauss` frequency.

Facts about `load_data` that the model records:

- **A batch size of 0 or less flushes every reading on its own.** The flush test
  is `len(batch) >= batch_size`, so such a size behaves as 1 (`FlushSize`).
- `load_data` does not validate its arguments, does not retry a failed insert,
  and fixes the interval at five minutes.
- The loop runs one pass more than `total_readings` counts, and with zero days
  the progress line divides by zero; both are under "## Findings".

## Model

| member | source | states |
|---|---|---|
| Meters.Decimal | direct_loader.py:113 | the `d` rendering of n is a non-empty digit string that reads back as n, with a leading zero only for 0 |
| Meters.DecimalLength | direct_loader.py:113 | the numeral of n fits in k characters exactly when n < 10^k |
| Meters.ZeroPad | direct_loader.py:113 | the `0` fill of `010d`: the result is `width` long when the numeral is shorter, ends with the numeral, and is zeros before it |
| Meters.MeterId | direct_loader.py:113 | `f"{i:010d}"` is all digits, reads back as i, is at least 10 long, and exactly 10 long iff i < 10^10 |
| Meters.MeterIds | direct_loader.py:113 | the list is empty for meters <= 0, otherwise has `meters` entries and entry k is the identifier of meter k + 1, reading back as k + 1 |
| Meters.LexLessIsNumericOrder | direct_loader.py:110-113 | on equal-length numerals, string order coincides with numeric order |
| Meters.MeterIdsAscending | direct_loader.py:110-113 | identifiers are pairwise distinct; below 10^10 meters all are ten characters and the list is strictly ascending as strings |
| Readings.Classify | direct_loader.py:64-72 | on hours 0..23 the branches choose Peak iff 6-9 or 18-22, Night iff 23 or 0-5, Daytime iff 10-17 |
| Readings.ClassifyFollowsSchedule | direct_loader.py:27-31 | every hour lies in exactly one period of the documented schedule and the branch taken is that period's band |
| Readings.PowerRange | direct_loader.py:67-72 | each band's power range is positive and non-empty |
| Readings.Offset | direct_loader.py:68 | the `(b - a) * random()` part of a uniform draw lies in [0, b - a) |
| Readings.Uniform | direct_loader.py:68-72 | `random.uniform(lo, hi)` lies in [lo, hi) |
| Readings.Hour | direct_loader.py:64 | the hour is below 24 and is the clock hour of start time plus offset |
| Readings.GenerateReading | direct_loader.py:44-80 | the reading keeps meter and timestamp, its power lies in the band of its hour, voltage and frequency are the Gaussian draws |
| Readings.ReadingDerivedFields | direct_loader.py:75-78 | voltage times current is the power, and energy is the kWh of the power over five minutes |
| Batching.Chunks | direct_loader.py:148-183 | batches are non-empty, at most the flush size, all but the last full, and present iff the stream is non-empty |
| Batching.ChunksConserve | direct_loader.py:146-183 | the batches concatenated in commit order are the stream: nothing lost, duplicated or reordered |
| Batching.ChunksSnoc | direct_loader.py:148-168 | committing one more batch after full ones extends the cutting of the stream by exactly that batch |
| Loader.Steps | direct_loader.py:116-120 | number of passes of `while current_time <= end_time`: none for negative days, otherwise the last pass is at offset `days * 1440`, that is at `end_time` itself |
| Loader.StepsCountsPasses | direct_loader.py:116-120 | pass k happens iff its offset 5k is at most `days * 1440`, so there are `days * 288 + 1` passes and none for negative days |
| Loader.StepRows | direct_loader.py:143-145 | one pass yields one reading per meter in list order, each generated for that meter at that time |
| Loader.Rows | direct_loader.py:141-146 | the readings of the first `steps` passes of the nested loops in generation order; each pass adds one reading per meter |
| Loader.Generated | direct_loader.py:113-146 | the whole stream `load_data` generates from its meter and day counts; it has (meter count) * (passes) rows |
| Loader.TotalReadingsEstimate | direct_loader.py:122 | `total_readings = meters * 288 * days`, which is 0 exactly when there are no meters or no days |
| Loader.GeneratedCount | direct_loader.py:119-122 | the stream is empty for meters <= 0 or days < 0 and otherwise exceeds `total_readings` by `meters` |
| Loader.DefaultRunCount | direct_loader.py:142 | the default 1000 meters over 14 days generate 4,033,000 rows against a printed 4,032,000 |
| Loader.ExclusiveSteps | direct_loader.py:142 | the bound `current_time < end_time` that `total_readings` assumes: none for negative days, otherwise passes up to one interval before `end_time` |
| Loader.ExclusiveStepsCountsPasses | direct_loader.py:142 | under that bound pass k happens iff its offset 5k is below `days * 1440` |
| Loader.ExclusiveCount | direct_loader.py:119-122 | under that bound the stream has exactly `total_readings` rows for non-negative counts, and it is a prefix of the stream generated as written |
| Loader.RowAt | direct_loader.py:141-146 | time-major order: position n * M + j holds meter j's reading at offset 5n |
| Loader.RowIndex | direct_loader.py:141-146 | every position k holds the reading of meter k mod M at offset 5 * (k div M) |
| Loader.MeterSeries | direct_loader.py:141-171 | a meter's readings in consecutive passes are exactly five minutes apart |
| Loader.PassWellFormed | direct_loader.py:143-145 | each reading of a pass is aligned, inside the window, from the meter list, in band, and physical |
| Loader.RowsWellFormed | direct_loader.py:141-171 | every generated reading is aligned, inside the window, from the meter list, in band, and physical |
| Loader.FlushSize | direct_loader.py:149 | the batch length at which `len(batch) >= batch_size` first holds: `batch_size`, or 1 when it is 0 or less; always at least 1 |
| Loader.FlushTest | direct_loader.py:149 | for a non-empty batch `len(batch) >= batch_size` holds iff the length reaches `max(batch_size, 1)` |
| Loader.Buffered | direct_loader.py:135-169 | the buffer state between readings: generated rows = flushed rows + open batch, open batch shorter than the flush size, `total_inserted` counts the flushed rows, committed batches are the flushed rows cut into full batches |
| Loader.BufferedConserves | direct_loader.py:146-158 | in that state the committed rows followed by the open batch are everything generated so far, and `total_inserted` plus the open batch counts them |
| Loader.MeterPass | direct_loader.py:143-168 | after one meter pass the buffer holds the earlier readings plus this pass's; it aborts iff the percentage is unguarded, `total_readings` is 0 and a batch fills, committing exactly that batch |
| Loader.GenerateAndInsert | direct_loader.py:141-183 | completed runs commit the stream cut into flush-size batches with `total_inserted` its length; abort iff the percentage is unguarded, `total_readings` is 0 and the stream fills a batch |
| Loader.LoadData | direct_loader.py:113-183 | as written: the same for the stream `load_data` generates from its meter count, day count and start time, aborting iff `total_readings` is 0 and the stream fills a batch |
| Loader.ZeroDaysAborts | direct_loader.py:164 | with zero days, at least one meter and `batch_size` at most the meter count, the abort condition of `LoadData` holds |
| Loader.LoadDataGuarded | direct_loader.py:159-166 | with the percentage guarded like `rate` and `remaining`, every run completes, committing the stream cut into flush-size batches with `total_inserted` its length |

## Left out

- Database I/O: connecting, `execute_values` and `commit` are a sink that receives the batches in order. A failed insert, commit or connection is not modelled, and neither are the closing `SELECT` queries.
- Randomness: `random.uniform` and `random.gauss` become the `draws` parameter. No claim is made about their distributions or about the order in which the generator consumes them.
- Readings.Uniform: over the reals the draw lies in [lo, hi). The model does not follow IEEE-754 double rounding, under which `lo + (hi - lo) * random()` can round up to `hi`.
- Readings.GenerateReading: a voltage draw of exactly 0.0 (ZeroDivisionError in the current) is excluded by the `Draw` type. All quantities are reals, not doubles.
- Clock: `datetime.now()` becomes a start minute-of-day. Seconds and microseconds of `start_time` never change the hour of a reading taken a whole number of minutes later, so they are not modelled. Time-zone and daylight-saving effects are absent, as in the naive `datetime` arithmetic of the source.
- Progress and final statistics: `time.time`, rate, ETA and all printing are left out, except the ZeroDivisionError of the percentage. The `rate` and `remaining` expressions guard their own divisions.
- Loader.LoadData: the date range is not modelled. `end_time - timedelta(days=days)` raises OverflowError before any reading is generated when `start_time` falls outside years 1 to 9999 (for instance days = 800000). `timedelta` itself rejects |days| > 999999999. For those inputs `load_data` commits nothing, while the model completes with the whole stream, or with nothing for negative days.
- The final statistics divide `total_inserted / elapsed` without a guard. That division comes after the last commit, so it cannot change what is committed, and it is not modelled.
- Command-line parsing and defaults (`argparse`) are left out. The model takes the parsed integers.

## Findings

| source | as written | input that shows it | evidently intended | confidence | as-written member | corrected member |
|---|---|---|---|---|---|---|
| direct_loader.py:142 | `while current_time <= end_time` includes `end_time`, so there are `days * 288 + 1` passes and `meters` more rows than `total_readings` (line 122) | meters = 1000, days = 14: 4,033,000 rows against a printed 4,032,000 | `current_time < end_time`, so that the rows number exactly `total_readings` | medium, not executed | Loader.GeneratedCount | Loader.ExclusiveCount |
| direct_loader.py:164 | the percentage divides by `total_readings` with no guard, unlike `rate` and `remaining` on lines 162-163 | meters = 1, days = 0, batch_size = 1: `total_readings` is 0, the first reading is committed, then ZeroDivisionError | skip the percentage when `total_readings` is 0, so that the run completes | high, not executed | Loader.ZeroDaysAborts | Loader.LoadDataGuarded |
