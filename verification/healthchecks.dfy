/** The disk-I/O health check: turns the latest delta of one device into
    read, write and total KB/s, smooths each through its own moving average,
    and judges the averages against configured ceilings. */
module Healthchecks {
  import opened Wrappers
  import opened Uint64
  import opened Diskstats
  import MA = MovingAverage

  /** The check's configuration. A ceiling of 0 leaves its axis unconstrained. */
  datatype Config = Config(
    diskstatsInterval: U64,  // seconds between polls of the statistics source
    averageCount: U64,       // samples per moving average
    diskDevice: string,
    maxReadKBs: U64,
    maxWriteKBs: U64,
    maxTotalKBs: U64)

  datatype Rates = Rates(readKBs: U64, writeKBs: U64, totalKBs: U64)

  /** The capacity the averages get from `averageCount`: the count is
      converted to Go's `int` (so counts from 2^63 up turn negative) and then
      clamped to at least 1. */
  function WindowSize(count: U64): (w: nat)
    ensures w >= 1
    ensures 1 <= count < TWO63 ==> w == count
    ensures count == 0 || count >= TWO63 ==> w == 1
  {
    var n := AsGoInt(count);
    if n <= 0 then 1 else n
  }

  /** Bytes moved during one poll interval as whole KB per second: the bytes
      are divided by 1024 and then by the interval, both rounding down. */
  function KBps(bytes: U64, interval: U64): (k: U64)
    requires interval > 0
    ensures k <= bytes / 1024
  {
    DivNoLarger(bytes / 1024, interval);
    bytes / 1024 / interval
  }

  lemma DivNoLarger(a: nat, d: nat)
    requires d >= 1
    ensures a / d <= a
  {
    var q := a / d;
    assert q * d <= a;
    MulAtLeast(q, d);
  }

  lemma {:induction false} MulAtLeast(q: nat, d: nat)
    requires d >= 1
    ensures q <= q * d
    decreases d
  {
    if d > 1 {
      MulAtLeast(q, d - 1);
      assert q * d == q * (d - 1) + q;
    }
  }

  /** The two roundings make one: the rate is the largest `k` with
      `k * 1024 * interval <= bytes`. */
  lemma KBpsIsWholeRate(bytes: U64, interval: U64)
    requires interval > 0
    ensures var k := KBps(bytes, interval);
      k * (1024 * interval) <= bytes < (k + 1) * (1024 * interval)
  {
    var kb, r1 := bytes / 1024, bytes % 1024;
    var k, r2 := kb / interval, kb % interval;
    assert bytes == kb * 1024 + r1;
    assert kb == k * interval + r2;
    var ki := k * interval;
    assert bytes == ki * 1024 + r2 * 1024 + r1;
    assert k * (1024 * interval) == ki * 1024;
    assert (k + 1) * (1024 * interval) == ki * 1024 + interval * 1024;
    assert r2 * 1024 + r1 < interval * 1024;
  }

  /** The three samples one delta yields. The source adds read and write in
      `uint64`; the sum never wraps because each term is below 2^54. */
  function Throughput(delta: Statline, interval: U64): (r: Rates)
    requires interval > 0
    ensures r.totalKBs == r.readKBs + r.writeKBs
    ensures r.readKBs == KBps(Rate(delta).0, interval) && r.writeKBs == KBps(Rate(delta).1, interval)
  {
    var (readB, writeB) := Rate(delta);
    var read := KBps(readB, interval);
    var write := KBps(writeB, interval);
    Rates(read, write, Wrap(read + write))
  }

  /** With fewer than 2^55 sectors on each side, read KB/s is the sectors read
      halved (512-byte sectors) and divided by the interval, rounding down;
      write KB/s likewise. */
  lemma ThroughputOfSectors(delta: Statline, interval: U64)
    requires interval > 0
    requires delta.data[ReadSectors] < 0x80_0000_0000_0000 && delta.data[WriteSectors] < 0x80_0000_0000_0000
    ensures Throughput(delta, interval).readKBs == delta.data[ReadSectors] / 2 / interval
    ensures Throughput(delta, interval).writeKBs == delta.data[WriteSectors] / 2 / interval
  {
    RateExact(delta);
    var r, w := delta.data[ReadSectors], delta.data[WriteSectors];
    assert (r * 512) / 1024 == r / 2;
    assert (w * 512) / 1024 == w / 2;
  }

  /** An axis passes when its ceiling is 0 or its average, truncated to a
      whole number, does not exceed the ceiling. */
  predicate WithinCeiling(average: real, ceiling: U64)
    requires average >= 0.0
  {
    ceiling == 0 || average.Floor <= ceiling
  }

  /** The source's rule: unhealthy when some nonzero ceiling is exceeded by
      its truncated average. */
  function Verdict(readAvg: real, writeAvg: real, totalAvg: real, c: Config): bool
    requires readAvg >= 0.0 && writeAvg >= 0.0 && totalAvg >= 0.0
  {
    !((c.maxReadKBs > 0 && readAvg.Floor > c.maxReadKBs)
      || (c.maxWriteKBs > 0 && writeAvg.Floor > c.maxWriteKBs)
      || (c.maxTotalKBs > 0 && totalAvg.Floor > c.maxTotalKBs))
  }

  /** Healthy exactly when every axis is within its ceiling. */
  lemma VerdictWithinCeilings(readAvg: real, writeAvg: real, totalAvg: real, c: Config)
    requires readAvg >= 0.0 && writeAvg >= 0.0 && totalAvg >= 0.0
    ensures Verdict(readAvg, writeAvg, totalAvg, c) <==>
      WithinCeiling(readAvg, c.maxReadKBs) && WithinCeiling(writeAvg, c.maxWriteKBs)
      && WithinCeiling(totalAvg, c.maxTotalKBs)
  {
  }

  /** An axis whose ceiling is 0 never decides the verdict: its average can
      be anything. */
  lemma ZeroCeilingIgnored(readAvg: real, writeAvg: real, totalAvg: real, other: real, c: Config)
    requires readAvg >= 0.0 && writeAvg >= 0.0 && totalAvg >= 0.0 && other >= 0.0
    ensures c.maxReadKBs == 0 ==> Verdict(readAvg, writeAvg, totalAvg, c) == Verdict(other, writeAvg, totalAvg, c)
    ensures c.maxWriteKBs == 0 ==> Verdict(readAvg, writeAvg, totalAvg, c) == Verdict(readAvg, other, totalAvg, c)
    ensures c.maxTotalKBs == 0 ==> Verdict(readAvg, writeAvg, totalAvg, c) == Verdict(readAvg, writeAvg, other, c)
  {
  }

  /** A read ceiling of 100 KB/s with the other axes unconstrained: an
      averaged 150 KB/s is unhealthy, 50 KB/s is healthy whatever the write
      and total rates. */
  lemma ReadCeilingExample(c: Config, writeAvg: real, totalAvg: real)
    requires c.maxReadKBs == 100 && c.maxWriteKBs == 0 && c.maxTotalKBs == 0
    requires writeAvg >= 0.0 && totalAvg >= 0.0
    ensures !Verdict(150.0, writeAvg, totalAvg, c)
    ensures Verdict(50.0, writeAvg, totalAvg, c)
  {
  }

  class DiskstatsHealthcheck {
    /** The verdict of the last evaluation (false before the first). */
    var healthy: bool
    /** The statistics source; the check only reads it. */
    const ds: Diskstats
    const read: MA.MovingAverage
    const write: MA.MovingAverage
    const total: MA.MovingAverage
    const config: Config
    /** The symbolic-link resolver used to find the device's key. */
    const resolve: string -> Option<string>

    /** The three averages are distinct objects, each valid, and hold only
        non-negative samples (they come from `uint64` rates). */
    ghost predicate Valid()
      reads this, read, write, total
    {
      && read != write && read != total && write != total
      && read.Valid() && write.Valid() && total.Valid()
      && MA.NonNegative(read.data) && MA.NonNegative(write.data) && MA.NonNegative(total.data)
    }

    /** `Init` after the statistics source has been created: three empty
        averages sized by `WindowSize(config.averageCount)`. */
    constructor (ds: Diskstats, config: Config, resolve: string -> Option<string>)
      ensures Valid() && fresh(read) && fresh(write) && fresh(total)
      ensures this.ds == ds && this.config == config && this.resolve == resolve
      ensures !healthy
      ensures read.maxSize == write.maxSize == total.maxSize == WindowSize(config.averageCount)
      ensures read.data == [] && write.data == [] && total.data == []
    {
      this.ds := ds;
      this.config := config;
      this.resolve := resolve;
      var size := AsGoInt(config.averageCount);
      read := new MA.MovingAverage(size);
      write := new MA.MovingAverage(size);
      total := new MA.MovingAverage(size);
      healthy := false;
    }

    /** `Update`: one evaluation. Without a delta for the device the check is
        unhealthy and the averages are untouched. Otherwise each average takes
        one sample and the check is healthy exactly when every nonzero ceiling
        holds its truncated average. Returns the stored verdict. */
    method Update() returns (r: bool)
      requires Valid() && ds.Valid()
      requires config.diskstatsInterval > 0
      modifies this, read, write, total
      ensures Valid()
      ensures r == healthy
      ensures ds.GetDelta(config.diskDevice, resolve).None? ==>
        !healthy && unchanged(read, write, total)
      ensures ds.GetDelta(config.diskDevice, resolve).Some? ==>
        var rates := Throughput(ds.GetDelta(config.diskDevice, resolve).value, config.diskstatsInterval);
        && read.data == MA.Slide(old(read.data), read.maxSize, rates.readKBs)
        && write.data == MA.Slide(old(write.data), write.maxSize, rates.writeKBs)
        && total.data == MA.Slide(old(total.data), total.maxSize, rates.totalKBs)
        && read.average >= 0.0 && write.average >= 0.0 && total.average >= 0.0
        && (healthy <==>
              WithinCeiling(read.average, config.maxReadKBs)
              && WithinCeiling(write.average, config.maxWriteKBs)
              && WithinCeiling(total.average, config.maxTotalKBs))
    {
      healthy := true;
      var delta := ds.GetDelta(config.diskDevice, resolve);
      if delta.None? {
        healthy := false;
        return healthy;
      }
      var rates := Throughput(delta.value, config.diskstatsInterval);
      var _ := read.Update(rates.readKBs);
      var _ := write.Update(rates.writeKBs);
      var _ := total.Update(rates.totalKBs);
      MA.MeanOfNonNegative(read.data);
      MA.MeanOfNonNegative(write.data);
      MA.MeanOfNonNegative(total.data);
      if !Verdict(read.average, write.average, total.average, config) {
        healthy := false;
      }
      VerdictWithinCeilings(read.average, write.average, total.average, config);
      return healthy;
    }

    /** `Healthy`: the verdict stored by the last evaluation. */
    function Healthy(): (h: bool)
      reads this
      ensures h == healthy
    {
      healthy
    }
  }
}
