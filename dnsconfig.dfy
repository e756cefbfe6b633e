/** The analyzer's configuration (internal/dns/config.go). */
module DnsConfig {
  import opened GoStrings
  import opened Types

  const Second: Duration := 1_000_000_000
  const Hour: Duration := 3600 * Second

  /** `RetryCount` is carried but never read by the analyzer. */
  datatype Config = Config(
    timeout: Duration,
    retryCount: int,
    nameServers: seq<seq<byte>>,
    cacheEnabled: bool,
    cacheTTL: Duration)

  /** The configuration `NewAnalyzer(nil)` falls back to. */
  function DefaultConfig(): (config: Config) {
    Config(
      timeout := 5 * Second,
      retryCount := 3,
      nameServers := [FromLiteral("8.8.8.8:53"), FromLiteral("8.8.4.4:53")],
      cacheEnabled := true,
      cacheTTL := 1 * Hour)
  }

  /** The defaults: a 5 second timeout, 3 retries, Google's two public
      resolvers on port 53 in that order, and caching on for one hour. */
  lemma DefaultConfigValues()
    ensures DefaultConfig().timeout == 5_000_000_000
    ensures DefaultConfig().retryCount == 3
    ensures |DefaultConfig().nameServers| == 2
    ensures DefaultConfig().nameServers[0] == FromLiteral("8.8.8.8:53")
    ensures DefaultConfig().nameServers[1] == FromLiteral("8.8.4.4:53")
    ensures DefaultConfig().cacheEnabled
    ensures DefaultConfig().cacheTTL == 3_600_000_000_000
  {
  }
}
