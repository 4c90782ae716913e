/** Filesystem-level usage of the pageserver's tenants directory and the two
    pressure thresholds it is compared against
    (pageserver/src/disk_usage_eviction_task.rs, module `filesystem_level_usage`). */
module DiskUsage {

  /** `utils::serde_percent::Percent`: a whole percentage in 0..=100. */
  type Percent = p: nat | p <= 100

  /** The part of `DiskUsageEvictionTaskConfig` that `has_pressure` reads. */
  datatype Config = Config(maxUsagePct: Percent, minAvailBytes: nat)

  /** A snapshot of filesystem capacity and free space. The source type is
      `Copy`, and the eviction iteration copies it freely (into `usage_planned`,
      into `warned`), so it is a value here. */
  datatype Usage = Usage(config: Config, totalBytes: nat, availBytes: nat) {

    /** The used percentage, `(100.0 * (1.0 - avail / total)) as u64`. The cast
        truncates, and a NaN (0 / 0) or negative value saturates to 0, which is
        what happens when `total` is 0 or `avail` is at least `total`. */
    function UsagePct(): (pct: nat)
      ensures pct <= 100
      ensures totalBytes == 0 || availBytes >= totalBytes ==> pct == 0
      ensures 0 < totalBytes && availBytes < totalBytes ==>
                pct * totalBytes <= 100 * (totalBytes - availBytes) < (pct + 1) * totalBytes
    {
      if totalBytes == 0 || availBytes >= totalBytes then 0
      else (100 * (totalBytes - availBytes)) / totalBytes
    }

    /** Pressure on either threshold: too few bytes available, or the used
        percentage at or above the maximum. */
    predicate HasPressure() {
      availBytes < config.minAvailBytes || UsagePct() >= config.maxUsagePct
    }

    /** The accounting update after evicting a layer of `bytes` bytes. */
    function AddAvailableBytes(bytes: nat): (u: Usage)
      ensures u.availBytes == availBytes + bytes
      ensures u.totalBytes == totalBytes && u.config == config
    {
      this.(availBytes := availBytes + bytes)
    }
  }

  /** The percentage threshold stated without the truncating division: usage is
      at or above `maxUsagePct` exactly when `100 * used >= maxUsagePct * total`. */
  lemma PressureIff(u: Usage)
    ensures u.HasPressure() <==>
              || u.availBytes < u.config.minAvailBytes
              || u.config.maxUsagePct == 0
              || (u.availBytes < u.totalBytes &&
                  100 * (u.totalBytes - u.availBytes) >= u.config.maxUsagePct * u.totalBytes)
  {
    var t, p, pct := u.totalBytes, u.config.maxUsagePct, u.UsagePct();
    if 0 < t && u.availBytes < t {
      if pct >= p {
        MulMonotone(p, pct, t);
      } else {
        MulMonotone(pct + 1, p, t);
      }
    }
  }

  lemma MulMonotone(a: nat, b: nat, c: nat)
    requires a <= b
    ensures a * c <= b * c
  {
  }

  /** Adding available bytes never lowers availability nor raises the used
      percentage. */
  lemma UsagePctAntitone(u: Usage, bytes: nat)
    ensures u.AddAvailableBytes(bytes).UsagePct() <= u.UsagePct()
  {
    var v := u.AddAvailableBytes(bytes);
    var t := u.totalBytes;
    if 0 < t && v.availBytes < t {
      var before, after := 100 * (t - u.availBytes), 100 * (t - v.availBytes);
      assert after <= before;
      var p, q := v.UsagePct(), u.UsagePct();
      if p > q {
        MulMonotone(q + 1, p, t);
        assert false;
      }
    }
  }

  /** Once there is no pressure, evicting more keeps it that way; equivalently,
      pressure after an eviction means there was pressure before. */
  lemma NoPressureIsStable(u: Usage, bytes: nat)
    requires !u.HasPressure()
    ensures !u.AddAvailableBytes(bytes).HasPressure()
  {
    UsagePctAntitone(u, bytes);
  }

  /** The unit test of the percentage threshold: with a maximum of 85% of
      100000 bytes there is pressure down to exactly 85% usage and none from
      84.999% on. */
  lemma MaxUsagePctPressure()
    ensures var u0 := Usage(Config(85, 0), 100_000, 0);
            var u1 := u0.AddAvailableBytes(14_000);
            var u2 := u1.AddAvailableBytes(999);
            var u3 := u2.AddAvailableBytes(1);
            var u4 := u3.AddAvailableBytes(1);
            var u5 := u4.AddAvailableBytes(999);
            var u6 := u5.AddAvailableBytes(16_000);
            && u0.HasPressure() && u1.HasPressure() && u2.HasPressure() && u3.HasPressure()
            && !u4.HasPressure() && !u5.HasPressure() && !u6.HasPressure()
  {
  }
}
