/** The configuration the updater reads once at start-up (`Config` and
    `DomainConfig` in dnsupater.go), the default-interval rule of
    `loadConfig`, and the conversion of the configured minutes into the
    nanosecond `time.Duration` the loop waits for. */
module Config {

  /** One DNS record to keep in sync: its domain, its host ("@", "www", ...)
      and the provider password, passed verbatim. */
  datatype DomainConfig = DomainConfig(domain: string, host: string, password: string)

  /** The parsed configuration file. `checkIntervalMinutes` is a Go `int`
      (64 bits): the JSON decoder refuses any other value, which stops the
      program before the loop starts, so a configuration that reaches the
      loop has it in `Int64Range`. */
  datatype Config = Config(domains: seq<DomainConfig>, checkIntervalMinutes: int, logFile: string)

  const DefaultCheckIntervalMinutes: int := 5

  /** The defaulting step of `loadConfig`: an interval of 0 (absent from
      the file) becomes five minutes, every other value is kept, and
      nothing else in the configuration changes. */
  function WithDefaults(c: Config): (r: Config)
    ensures r.domains == c.domains && r.logFile == c.logFile
    ensures r.checkIntervalMinutes != 0
    ensures c.checkIntervalMinutes == 0 ==> r.checkIntervalMinutes == DefaultCheckIntervalMinutes
    ensures c.checkIntervalMinutes != 0 ==> r == c
  {
    if c.checkIntervalMinutes == 0 then c.(checkIntervalMinutes := DefaultCheckIntervalMinutes) else c
  }

  // Go's time units, counted in nanoseconds.
  const Second: int := 1_000_000_000
  const Minute: int := 60 * Second

  const TwoTo63: int := 0x8000_0000_0000_0000
  const TwoTo64: int := 0x1_0000_0000_0000_0000

  predicate Int64Range(x: int) {
    -TwoTo63 <= x < TwoTo63
  }

  /** The largest number of minutes whose nanosecond count fits in an int64. */
  const MaxExactMinutes: int := 153_722_867

  /** Two's-complement wrap-around of a signed 64-bit integer, as Go's
      `int64` arithmetic (and so `time.Duration`) behaves on overflow. */
  function WrapInt64(x: int): (r: int)
    ensures -TwoTo63 <= r < TwoTo63
    ensures (r - x) % TwoTo64 == 0
    ensures -TwoTo63 <= x < TwoTo63 ==> r == x
  {
    var m := x % TwoTo64;
    if m >= TwoTo63 then m - TwoTo64 else m
  }

  /** `time.Duration(minutes) * time.Minute`: exact for every interval of
      up to about 292 years, in either direction, and wrapped beyond. */
  function IntervalTicks(minutes: int): (r: int)
    ensures -MaxExactMinutes <= minutes <= MaxExactMinutes ==> r == minutes * Minute
    ensures 0 < minutes <= MaxExactMinutes ==> r >= Minute
  {
    assert -MaxExactMinutes <= minutes <= MaxExactMinutes ==> -TwoTo63 <= minutes * Minute < TwoTo63;
    WrapInt64(minutes * Minute)
  }

  /** One minute more than the exact range and the product wraps to a
      negative duration, so the wait before the next poll is skipped. */
  lemma IntervalWrapsPastRange()
    ensures IntervalTicks(MaxExactMinutes + 1) < 0
  {
  }
}
