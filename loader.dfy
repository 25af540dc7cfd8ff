/** The generate-and-batch loop of `load_data`. The database is an append-only sink: the
    model returns the batches committed to it, in commit order, together with the running
    `total_inserted` counter. Times are minutes after `start_time`, which is `days` whole
    days before `end_time`. */
module Loader {
  import opened Meters
  import opened Readings
  import opened Batching

  const MinutesPerDay: nat := 1440

  /** The `readings_per_day` constant: 1440 / 5. */
  const ReadingsPerDay: nat := 288

  /** How many times `while current_time <= end_time` runs its body: the offsets
      0, 5, 10, ... up to and including `days * 1440`, and none when `days` is negative. */
  function Steps(days: int): (n: nat)
    ensures days < 0 ==> n == 0
    ensures days >= 0 ==> n >= 1 && IntervalMinutes * (n - 1) == days * MinutesPerDay
  {
    if days < 0 then 0 else days * ReadingsPerDay + 1
  }

  /** A pass k of the outer loop happens exactly when its time offset `5 * k` has not yet
      passed `end_time`. */
  lemma StepsCountsPasses(days: int, k: nat)
    ensures k < Steps(days) <==> IntervalMinutes * k <= days * MinutesPerDay
  {
  }

  /** The readings one pass of `for meter_id in meters` appends: every meter, in list order,
      at time offset `time`. The draws are indexed by time offset and list position. */
  function StepRows(ids: seq<string>, startMinute: nat, draws: (nat, nat) -> Draw, time: nat): (rows: seq<Reading>)
    ensures |rows| == |ids|
    ensures forall j :: 0 <= j < |ids| ==>
      rows[j] == GenerateReading(ids[j], time, startMinute, draws(time, j))
  {
    seq(|ids|, j requires 0 <= j < |ids| => GenerateReading(ids[j], time, startMinute, draws(time, j)))
  }

  /** The readings of the first `steps` passes of the outer loop, in generation order. */
  function Rows(ids: seq<string>, startMinute: nat, draws: (nat, nat) -> Draw, steps: nat): (rows: seq<Reading>)
    ensures |rows| == steps * |ids|
  {
    if steps == 0 then []
    else Rows(ids, startMinute, draws, steps - 1) + StepRows(ids, startMinute, draws, IntervalMinutes * (steps - 1))
  }

  /** Every reading `load_data` generates, in the order it generates them. */
  function Generated(meters: int, days: int, startMinute: nat, draws: (nat, nat) -> Draw): (rows: seq<Reading>)
    ensures |rows| == RowCount(meters, days)
  {
    Rows(MeterIds(meters), startMinute, draws, Steps(days))
  }

  /** The number of meters the list comprehension produces. */
  function MeterCount(meters: int): nat {
    if meters > 0 then meters else 0
  }

  /** The `total_readings` figure `load_data` prints and divides by. */
  function TotalReadingsEstimate(meters: int, days: int): (t: int)
    ensures t == 0 <==> meters == 0 || days == 0
  {
    NonZeroProduct(meters, days);
    meters * ReadingsPerDay * days
  }

  lemma NonZeroProduct(a: int, b: int)
    ensures a * ReadingsPerDay * b == 0 <==> a == 0 || b == 0
  {
    if a != 0 && b != 0 {
      assert a * ReadingsPerDay != 0;
    }
  }

  /** The row count the loop actually produces. */
  function RowCount(meters: int, days: int): nat {
    MeterCount(meters) * Steps(days)
  }

  /** With no meters or a negative day count the stream is empty, and for non-negative arguments it has `meters` rows more than `total_readings`, one extra
      pass of the meter loop at `end_time` itself. */
  lemma GeneratedCount(meters: int, days: int, startMinute: nat, draws: (nat, nat) -> Draw)
    ensures meters <= 0 || days < 0 ==> Generated(meters, days, startMinute, draws) == []
    ensures meters >= 0 && days >= 0 ==>
      |Generated(meters, days, startMinute, draws)| == TotalReadingsEstimate(meters, days) + meters
  {
    if meters >= 0 && days >= 0 {
      calc {
        RowCount(meters, days);
        meters * (days * ReadingsPerDay + 1);
        meters * ReadingsPerDay * days + meters;
      }
    }
  }

  /** The default run of 1000 meters over 14 days generates 4,033,000 readings, while the
      printed `total_readings` is 4,032,000. */
  lemma DefaultRunCount(startMinute: nat, draws: (nat, nat) -> Draw)
    ensures TotalReadingsEstimate(1000, 14) == 4032000
    ensures |Generated(1000, 14, startMinute, draws)| == 4033000
  {
    GeneratedCount(1000, 14, startMinute, draws);
  }

  /** The loop bound `while current_time < end_time` that `total_readings` assumes: the
      offsets 0, 5, 10, ... strictly below `days * 1440`, so the last pass is one interval
      before `end_time`. */
  function ExclusiveSteps(days: int): (n: nat)
    ensures days < 0 ==> n == 0
    ensures days >= 0 ==> IntervalMinutes * n == days * MinutesPerDay
  {
    if days < 0 then 0 else days * ReadingsPerDay
  }

  /** Under the exclusive bound, pass k happens exactly when its offset lies before `end_time`. */
  lemma ExclusiveStepsCountsPasses(days: int, k: nat)
    ensures k < ExclusiveSteps(days) <==> IntervalMinutes * k < days * MinutesPerDay
  {
  }

  /** Under the exclusive bound the stream has exactly `total_readings` rows whenever the
      meter and day counts are non-negative, and it is a prefix of the stream `load_data`
      generates, which only adds the pass at `end_time`. */
  lemma ExclusiveCount(meters: int, days: int, startMinute: nat, draws: (nat, nat) -> Draw)
    ensures meters >= 0 && days >= 0 ==>
      |Rows(MeterIds(meters), startMinute, draws, ExclusiveSteps(days))| == TotalReadingsEstimate(meters, days)
    ensures Rows(MeterIds(meters), startMinute, draws, ExclusiveSteps(days)) <= Generated(meters, days, startMinute, draws)
  {
    if meters >= 0 && days >= 0 {
      assert ExclusiveSteps(days) * meters == meters * ReadingsPerDay * days;
    }
    RowsPrefix(MeterIds(meters), startMinute, draws, ExclusiveSteps(days), Steps(days));
  }

  /** With zero days and at least one meter, `total_readings` is 0 while the single pass at
      `end_time` still fills a batch of at most `meters` rows, so the as-written run aborts
      on the progress line. */
  lemma ZeroDaysAborts(meters: int, batchSize: int, startMinute: nat, draws: (nat, nat) -> Draw)
    requires meters >= 1 && batchSize <= meters
    ensures TotalReadingsEstimate(meters, 0) == 0
    ensures |Generated(meters, 0, startMinute, draws)| >= FlushSize(batchSize)
  {
  }

  /** The first passes of the loop produce a prefix of what more passes produce. */
  lemma {:induction false} RowsPrefix(ids: seq<string>, startMinute: nat, draws: (nat, nat) -> Draw, s1: nat, s2: nat)
    requires s1 <= s2
    ensures Rows(ids, startMinute, draws, s1) <= Rows(ids, startMinute, draws, s2)
    decreases s2
  {
    if s1 < s2 {
      RowsPrefix(ids, startMinute, draws, s1, s2 - 1);
    }
  }

  lemma MulMonotone(a: nat, b: nat, m: nat)
    requires a <= b
    ensures a * m <= b * m
  {
  }

  /** Time-major order: the reading at position `n * |ids| + j` is meter j's reading at time
      offset `5 * n`. All meters are visited at one time before the time advances. */
  lemma {:induction false} RowAt(ids: seq<string>, startMinute: nat, draws: (nat, nat) -> Draw, steps: nat, n: nat, j: nat)
    requires n < steps && j < |ids|
    ensures n * |ids| + j < |Rows(ids, startMinute, draws, steps)|
    ensures Rows(ids, startMinute, draws, steps)[n * |ids| + j]
      == GenerateReading(ids[j], IntervalMinutes * n, startMinute, draws(IntervalMinutes * n, j))
    decreases steps
  {
    var before := Rows(ids, startMinute, draws, steps - 1);
    MulMonotone(n + 1, steps, |ids|);
    if n < steps - 1 {
      RowAt(ids, startMinute, draws, steps - 1, n, j);
      MulMonotone(n + 1, steps - 1, |ids|);
    } else {
      assert n * |ids| + j == |before| + j;
    }
  }

  /** Every position of the stream belongs to one pass and one meter: position k holds the
      reading of meter `k % |ids|` at time offset `5 * (k / |ids|)`. */
  lemma RowIndex(ids: seq<string>, startMinute: nat, draws: (nat, nat) -> Draw, steps: nat, k: nat)
    requires k < |Rows(ids, startMinute, draws, steps)|
    ensures |ids| > 0
    ensures Rows(ids, startMinute, draws, steps)[k] ==
      GenerateReading(ids[k % |ids|], IntervalMinutes * (k / |ids|), startMinute,
                      draws(IntervalMinutes * (k / |ids|), k % |ids|))
  {
    PassPosition(k, |ids|, steps);
    RowAt(ids, startMinute, draws, steps, k / |ids|, k % |ids|);
  }

  /** A position below `steps * m` splits into a pass below `steps` and a place below `m`. */
  lemma PassPosition(k: nat, m: nat, steps: nat)
    requires k < steps * m
    ensures m > 0 && k / m < steps && k == (k / m) * m + k % m
  {
    if k / m >= steps {
      MulMonotone(steps, k / m, m);
    }
  }

  /** Per-meter series: the same meter's readings in consecutive passes are five minutes
      apart, so each meter's timestamps rise in steps of five minutes with no gaps. */
  lemma MeterSeries(ids: seq<string>, startMinute: nat, draws: (nat, nat) -> Draw, steps: nat, n: nat, j: nat)
    requires n + 1 < steps && j < |ids|
    ensures (n + 1) * |ids| + j < |Rows(ids, startMinute, draws, steps)|
    ensures Rows(ids, startMinute, draws, steps)[(n + 1) * |ids| + j].meterId
      == Rows(ids, startMinute, draws, steps)[n * |ids| + j].meterId == ids[j]
    ensures Rows(ids, startMinute, draws, steps)[(n + 1) * |ids| + j].time
      == Rows(ids, startMinute, draws, steps)[n * |ids| + j].time + IntervalMinutes
  {
    RowAt(ids, startMinute, draws, steps, n, j);
    RowAt(ids, startMinute, draws, steps, n + 1, j);
  }

  /** What every generated row satisfies: a five-minute-aligned time inside the window, a
      meter from the list, a power in the band of its hour, and the derived current and energy
      of `Physical`. */
  predicate WellFormed(r: Reading, ids: seq<string>, startMinute: nat, steps: nat) {
    && r.time % IntervalMinutes == 0
    && r.time < IntervalMinutes * steps
    && r.meterId in ids
    && InBand(r.power, Classify(Hour(startMinute, r.time)))
    && Physical(r)
  }

  /** Each reading of pass n satisfies `WellFormed` for any window that contains the pass. */
  lemma PassWellFormed(ids: seq<string>, startMinute: nat, draws: (nat, nat) -> Draw, n: nat, j: nat, steps: nat)
    requires n < steps && j < |ids|
    ensures WellFormed(StepRows(ids, startMinute, draws, IntervalMinutes * n)[j], ids, startMinute, steps)
  {
    var r := StepRows(ids, startMinute, draws, IntervalMinutes * n)[j];
    var t := IntervalMinutes * n;
    assert r == GenerateReading(ids[j], t, startMinute, draws(t, j));
    ReadingDerivedFields(ids[j], t, startMinute, draws(t, j));
  }

  /** A row well formed for a shorter window is well formed for a longer one. */
  lemma WellFormedWiden(r: Reading, ids: seq<string>, startMinute: nat, steps: nat)
    requires WellFormed(r, ids, startMinute, steps)
    ensures WellFormed(r, ids, startMinute, steps + 1)
  {
  }

  lemma {:induction false} RowsWellFormed(ids: seq<string>, startMinute: nat, draws: (nat, nat) -> Draw, steps: nat)
    ensures forall k :: 0 <= k < |Rows(ids, startMinute, draws, steps)| ==>
      WellFormed(Rows(ids, startMinute, draws, steps)[k], ids, startMinute, steps)
  {
    if steps > 0 {
      RowsWellFormed(ids, startMinute, draws, steps - 1);
      var before := Rows(ids, startMinute, draws, steps - 1);
      var pass := StepRows(ids, startMinute, draws, IntervalMinutes * (steps - 1));
      forall k | 0 <= k < |before + pass|
        ensures WellFormed((before + pass)[k], ids, startMinute, steps)
      {
        if k < |before| {
          WellFormedWiden(before[k], ids, startMinute, steps - 1);
        } else {
          PassWellFormed(ids, startMinute, draws, steps - 1, k - |before|, steps);
        }
      }
    }
  }

  /** How `load_data` ended: it ran to completion, or the progress line raised
      ZeroDivisionError because `total_readings` is 0 (after that batch was committed). */
  datatype Outcome = Completed | ProgressDivisionByZero

  /** Whether the progress line raises ZeroDivisionError: as written, the percentage divides
      by `total_readings` whenever a batch is committed; guarded, it is skipped when
      `total_readings` is 0. */
  predicate ProgressFails(guarded: bool, totalReadings: int) {
    !guarded && totalReadings == 0
  }

  /** The length at which `len(batch) >= batch_size` first holds for a growing batch:
      `batch_size` itself, or 1 when `batch_size` is 0 or negative. */
  function FlushSize(batchSize: int): (size: nat)
    ensures size >= 1
  {
    if batchSize >= 1 then batchSize else 1
  }

  lemma FlushTest(batchSize: int, n: nat)
    requires n >= 1
    ensures n >= batchSize <==> n >= FlushSize(batchSize)
  {
  }

  /** The state of the buffer between two readings: everything generated so far is the
      flushed part followed by the open batch, the open batch is shorter than the flush size,
      `total_inserted` counts the flushed rows, and the committed batches are the flushed rows
      cut into full batches. */
  ghost predicate Buffered(produced: seq<Reading>, flushed: seq<Reading>, batch: seq<Reading>,
                           committed: seq<seq<Reading>>, totalInserted: nat, size: nat)
  {
    && size >= 1
    && produced == flushed + batch
    && |flushed| == totalInserted
    && |batch| < size
    && AllFull(committed, size)
    && committed == Chunks(flushed, size)
  }

  /** In a buffered state the committed rows followed by the open batch are everything
      generated so far, and `total_inserted` plus the open batch counts them. */
  lemma BufferedConserves(produced: seq<Reading>, flushed: seq<Reading>, batch: seq<Reading>,
                          committed: seq<seq<Reading>>, totalInserted: nat, size: nat)
    requires Buffered(produced, flushed, batch, committed, totalInserted, size)
    ensures Flatten(committed) + batch == produced && totalInserted + |batch| == |produced|
  {
    ChunksConserve(flushed, size);
  }

  /** One pass of `for meter_id in meters` at time offset `currentTime`: each meter's reading
      is appended to the batch, and a batch that reaches `batch_size` is committed. Unless the
      progress line divides by a zero `total_readings`, the buffer afterwards holds the readings
      before the pass followed by the pass's readings. The division fails exactly when it is
      unguarded, `total_readings` is 0 and those readings fill a batch, right after the first
      commit. */
  method MeterPass(ids: seq<string>, currentTime: nat, startMinute: nat, draws: (nat, nat) -> Draw,
                   batchSize: int, totalReadings: int, guarded: bool, ghost before: seq<Reading>,
                   ghost flushed0: seq<Reading>, batch0: seq<Reading>,
                   committed0: seq<seq<Reading>>, totalInserted0: nat)
    returns (batch: seq<Reading>, committed: seq<seq<Reading>>, totalInserted: nat,
             aborted: bool, ghost flushed: seq<Reading>)
    requires Buffered(before, flushed0, batch0, committed0, totalInserted0, FlushSize(batchSize))
    requires ProgressFails(guarded, totalReadings) ==> totalInserted0 == 0
    ensures aborted <==>
      ProgressFails(guarded, totalReadings) && |before + StepRows(ids, startMinute, draws, currentTime)| >= FlushSize(batchSize)
    ensures !aborted ==>
      Buffered(before + StepRows(ids, startMinute, draws, currentTime), flushed, batch, committed,
               totalInserted, FlushSize(batchSize))
    ensures !aborted && ProgressFails(guarded, totalReadings) ==> totalInserted == 0
    ensures aborted ==>
      committed == [(before + StepRows(ids, startMinute, draws, currentTime))[..FlushSize(batchSize)]] &&
      totalInserted == FlushSize(batchSize)
  {
    ghost var size := FlushSize(batchSize);
    ghost var pass := StepRows(ids, startMinute, draws, currentTime);
    batch, committed, totalInserted, aborted, flushed := batch0, committed0, totalInserted0, false, flushed0;
    for j := 0 to |ids|
      invariant Buffered(before + pass[..j], flushed, batch, committed, totalInserted, size)
      invariant ProgressFails(guarded, totalReadings) ==> totalInserted == 0
    {
      var reading := GenerateReading(ids[j], currentTime, startMinute, draws(currentTime, j));
      SnocTake(before, pass, j);
      batch := batch + [reading];
      FlushTest(batchSize, |batch|);
      if |batch| >= batchSize {
        ChunksSnoc(flushed, batch, size);
        committed := committed + [batch];
        totalInserted := totalInserted + |batch|;
        flushed := flushed + batch;
        if ProgressFails(guarded, totalReadings) {
          assert |flushed| == size && committed == [flushed];
          assert flushed == before + pass[..j + 1];
          TakePrefix(before, pass, j + 1);
          assert flushed == (before + pass)[..size];
          aborted := true;
          return;
        }
        batch := [];
      }
    }
    assert pass[..|ids|] == pass;
  }

  /** Extending a pass prefix by one reading. */
  lemma SnocTake(before: seq<Reading>, pass: seq<Reading>, j: nat)
    requires j < |pass|
    ensures before + pass[..j + 1] == (before + pass[..j]) + [pass[j]]
  {
    assert pass[..j + 1] == pass[..j] + [pass[j]];
  }

  /** A prefix of the readings of a pass, after those before it, is the start of all of them. */
  lemma TakePrefix(before: seq<Reading>, pass: seq<Reading>, j: nat)
    requires j <= |pass|
    ensures before + pass[..j] == (before + pass)[..|before| + j]
  {
  }

  /** The loop of `load_data` over a given meter list, from the first reading to the last
      commit. Completed: the committed batches are the generated stream cut into batches of
      the flush size (so, concatenated, they are the stream; every batch but a final
      remainder is full; the remainder is shorter) and `total_inserted` is the stream's
      length. The run aborts exactly when the percentage is unguarded, `total_readings` is 0
      and the stream fills a batch: only that first batch is committed. */
  method GenerateAndInsert(ids: seq<string>, days: int, batchSize: int, totalReadings: int, guarded: bool,
                           startMinute: nat, draws: (nat, nat) -> Draw)
    returns (committed: seq<seq<Reading>>, totalInserted: nat, outcome: Outcome)
    ensures outcome == ProgressDivisionByZero <==>
      ProgressFails(guarded, totalReadings) && |Rows(ids, startMinute, draws, Steps(days))| >= FlushSize(batchSize)
    ensures outcome == Completed ==>
      committed == Chunks(Rows(ids, startMinute, draws, Steps(days)), FlushSize(batchSize)) &&
      totalInserted == |Rows(ids, startMinute, draws, Steps(days))|
    ensures outcome == ProgressDivisionByZero ==>
      committed == [Rows(ids, startMinute, draws, Steps(days))[..FlushSize(batchSize)]] &&
      totalInserted == FlushSize(batchSize)
  {
    var endTime := days * MinutesPerDay;
    ghost var size := FlushSize(batchSize);
    ghost var rows := Rows(ids, startMinute, draws, Steps(days));
    ghost var step: nat := 0;
    // `flushed` is the part of the readings generated so far that has been committed.
    ghost var flushed: seq<Reading> := [];

    var batch: seq<Reading> := [];
    committed, totalInserted, outcome := [], 0, Completed;
    var currentTime: nat := 0;
    while currentTime <= endTime
      invariant currentTime == IntervalMinutes * step && step <= Steps(days)
      invariant Buffered(Rows(ids, startMinute, draws, step), flushed, batch, committed, totalInserted, size)
      invariant ProgressFails(guarded, totalReadings) ==> totalInserted == 0
      decreases endTime - currentTime
    {
      StepsCountsPasses(days, step);
      var aborted;
      batch, committed, totalInserted, aborted, flushed :=
        MeterPass(ids, currentTime, startMinute, draws, batchSize, totalReadings, guarded,
                  Rows(ids, startMinute, draws, step), flushed, batch, committed, totalInserted);
      if aborted {
        RowsPrefix(ids, startMinute, draws, step + 1, Steps(days));
        ghost var passed := Rows(ids, startMinute, draws, step + 1);
        assert passed[..size] == rows[..size];
        outcome := ProgressDivisionByZero;
        return;
      }
      currentTime := currentTime + IntervalMinutes;
      step := step + 1;
    }
    StepsCountsPasses(days, step);
    assert Rows(ids, startMinute, draws, step) == rows;
    if |batch| > 0 {
      ChunksSnoc(flushed, batch, size);
      committed := committed + [batch];
      totalInserted := totalInserted + |batch|;
      flushed := flushed + batch;
    } else {
      assert flushed == rows;
    }
  }

  /** `load_data` from building the meter list to the last commit, stated on `Generated`. */
  method LoadData(meters: int, days: int, batchSize: int, startMinute: nat, draws: (nat, nat) -> Draw)
    returns (committed: seq<seq<Reading>>, totalInserted: nat, outcome: Outcome)
    ensures outcome == ProgressDivisionByZero <==>
      TotalReadingsEstimate(meters, days) == 0 &&
      |Generated(meters, days, startMinute, draws)| >= FlushSize(batchSize)
    ensures outcome == Completed ==>
      committed == Chunks(Generated(meters, days, startMinute, draws), FlushSize(batchSize)) &&
      totalInserted == |Generated(meters, days, startMinute, draws)|
    ensures outcome == ProgressDivisionByZero ==>
      committed == [Generated(meters, days, startMinute, draws)[..FlushSize(batchSize)]] &&
      totalInserted == FlushSize(batchSize)
  {
    var ids := MeterIds(meters);
    var totalReadings := TotalReadingsEstimate(meters, days);
    committed, totalInserted, outcome :=
      GenerateAndInsert(ids, days, batchSize, totalReadings, false, startMinute, draws);
  }

  /** `load_data` with the percentage guarded like `rate` and `remaining` (skipped when
      `total_readings` is 0): every run completes and commits the whole stream. */
  method LoadDataGuarded(meters: int, days: int, batchSize: int, startMinute: nat, draws: (nat, nat) -> Draw)
    returns (committed: seq<seq<Reading>>, totalInserted: nat, outcome: Outcome)
    ensures outcome == Completed
    ensures committed == Chunks(Generated(meters, days, startMinute, draws), FlushSize(batchSize))
    ensures totalInserted == |Generated(meters, days, startMinute, draws)|
  {
    var ids := MeterIds(meters);
    var totalReadings := TotalReadingsEstimate(meters, days);
    committed, totalInserted, outcome :=
      GenerateAndInsert(ids, days, batchSize, totalReadings, true, startMinute, draws);
  }
}
