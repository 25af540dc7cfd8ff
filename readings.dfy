/** One meter reading as `generate_reading` builds it: the hour of the timestamp picks a
    consumption band, the power is drawn uniformly from that band, and current and energy
    are derived from the power. Time is counted in whole minutes from the start of the run. */
module Readings {

  /** The three branches of `generate_reading`'s time-of-day test. */
  datatype Band = Peak | Night | Daytime

  /** The band the `if`/`elif`/`else` chain chooses for an hour, tested in the source's order.
      On the hours 0..23 the three branches split the day into disjoint ranges. */
  function Classify(hour: int): (b: Band)
    ensures 0 <= hour < 24 ==> (b == Peak <==> 6 <= hour <= 9 || 18 <= hour <= 22)
    ensures 0 <= hour < 24 ==> (b == Night <==> hour == 23 || hour <= 5)
    ensures 0 <= hour < 24 ==> (b == Daytime <==> 10 <= hour <= 17)
  {
    if 6 <= hour <= 9 || 18 <= hour <= 22 then Peak
    else if 23 <= hour || hour <= 5 then Night
    else Daytime
  }

  /** A named period of the documented daily schedule: the hours `first` through `last`
      inclusive, wrapping past midnight when `last < first`. */
  datatype Period = Period(band: Band, first: nat, last: nat)

  /** The schedule as the module documentation lists it: night 23:00-05:59, morning peak
      06:00-09:59, daytime 10:00-17:59, evening peak 18:00-22:59. */
  const Schedule: seq<Period> :=
    [Period(Night, 23, 5), Period(Peak, 6, 9), Period(Daytime, 10, 17), Period(Peak, 18, 22)]

  predicate Covers(p: Period, hour: int) {
    if p.first <= p.last then p.first <= hour <= p.last else hour >= p.first || hour <= p.last
  }

  /** Every hour of the day lies in exactly one period of the documented schedule, and the
      branch `generate_reading` takes for it is that period's band. */
  lemma ClassifyFollowsSchedule(hour: int)
    requires 0 <= hour < 24
    ensures exists i :: 0 <= i < |Schedule| && Covers(Schedule[i], hour)
    ensures forall i, j :: 0 <= i < j < |Schedule| ==> !(Covers(Schedule[i], hour) && Covers(Schedule[j], hour))
    ensures forall i :: 0 <= i < |Schedule| && Covers(Schedule[i], hour) ==> Classify(hour) == Schedule[i].band
  {
    if hour == 23 || hour <= 5 {
      assert Covers(Schedule[0], hour);
    } else if hour <= 9 {
      assert Covers(Schedule[1], hour);
    } else if hour <= 17 {
      assert Covers(Schedule[2], hour);
    } else {
      assert Covers(Schedule[3], hour);
    }
  }

  /** Lower and upper bound, in watts, of the `random.uniform` draw for a band. */
  datatype Range = Range(lo: real, hi: real)

  function PowerRange(b: Band): (r: Range)
    ensures 0.0 < r.lo < r.hi
  {
    match b
    case Peak => Range(1500.0, 3000.0)
    case Night => Range(200.0, 500.0)
    case Daytime => Range(800.0, 1500.0)
  }

  predicate InBand(power: real, b: Band) {
    PowerRange(b).lo <= power < PowerRange(b).hi
  }

  lemma PositiveProduct(a: real, b: real)
    requires a > 0.0 && b > 0.0
    ensures a * b > 0.0
  {
  }

  /** The part `(b - a) * random()` of a uniform draw: a fraction below one of the width. */
  function Offset(width: real, unit: real): (t: real)
    requires width > 0.0 && 0.0 <= unit < 1.0
    ensures 0.0 <= t < width
  {
    PositiveProduct(width, 1.0 - unit);
    assert width * (1.0 - unit) == width - width * unit;
    width * unit
  }

  /** `random.uniform(lo, hi)` is `lo + (hi - lo) * random()` with `random()` in [0, 1);
      over the reals the result lies in [lo, hi). */
  function Uniform(lo: real, hi: real, unit: real): (x: real)
    requires lo < hi && 0.0 <= unit < 1.0
    ensures lo <= x < hi
  {
    lo + Offset(hi - lo, unit)
  }

  /** The random values one call of `generate_reading` consumes: the `random()` behind the
      `random.uniform` power draw, then the `random.gauss` voltage and frequency. A voltage
      of exactly zero, on which the division for the current fails, is not a draw here. */
  datatype RawDraw = RawDraw(unit: real, voltage: real, frequency: real)

  type Draw = d: RawDraw | 0.0 <= d.unit < 1.0 && d.voltage != 0.0
    witness RawDraw(0.0, 230.0, 50.0)

  /** Minutes covered by one reading (the loader's step), and hence by its energy figure. */
  const IntervalMinutes: nat := 5

  /** The tuple `(timestamp, meter_id, power, voltage, current, frequency, energy)`, with the
      timestamp as minutes after the start of the run. */
  datatype Reading = Reading(
    time: nat,
    meterId: string,
    power: real,
    voltage: real,
    current: real,
    frequency: real,
    energy: real)

  /** `timestamp.hour` for the timestamp `time` minutes after a start whose clock reads
      `startMinute` minutes past midnight (its seconds never carry into the hour, because
      `time` is a whole number of minutes). */
  function Hour(startMinute: nat, time: nat): (h: nat)
    ensures h < 24
    ensures exists days: nat :: startMinute + time == (days * 24 + h) * 60 + (startMinute + time) % 60
  {
    var h := ((startMinute + time) / 60) % 24;
    assert startMinute + time == (((startMinute + time) / 60) / 24 * 24 + h) * 60 + (startMinute + time) % 60;
    h
  }

  /** `generate_reading(meter_id, timestamp)`: the reading carries the given meter and time,
      its power lies in the band of the timestamp's hour, and its voltage and frequency are
      the draws. `ReadingDerivedFields` states how current and energy follow from the power. */
  function GenerateReading(meterId: string, time: nat, startMinute: nat, d: Draw): (r: Reading)
    ensures r.time == time && r.meterId == meterId
    ensures InBand(r.power, Classify(Hour(startMinute, time)))
    ensures r.voltage == d.voltage && r.frequency == d.frequency
  {
    var range := PowerRange(Classify(Hour(startMinute, time)));
    var power := Uniform(range.lo, range.hi, d.unit);
    Reading(time, meterId, power, d.voltage, power / d.voltage, d.frequency,
            power * (5.0 / 60.0) / 1000.0)
  }

  /** Ohm's law `power = voltage * current` for the current, and the energy as the kWh that
      `power` watts deliver over the five-minute interval. */
  predicate Physical(r: Reading) {
    && r.voltage * r.current == r.power
    && r.energy * 1000.0 * 60.0 == r.power * (IntervalMinutes as real)
  }

  /** The current and energy `generate_reading` derives from the power are physical. */
  lemma ReadingDerivedFields(meterId: string, time: nat, startMinute: nat, d: Draw)
    ensures Physical(GenerateReading(meterId, time, startMinute, d))
  {
  }
}
