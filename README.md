# LinkTracer 2.0 domain analyzer, modelled in Dafny

LinkTracer's analyzer takes a domain name and a target name. It works in these steps:

1. It checks the domain's syntax.
2. It answers from a result cache when it can.
3. Otherwise it asks the configured name servers for the A, AAAA, MX and TXT records of the name, one concurrent query per type.
4. It collects the four record lists as they arrive.
5. It scores the name against the target by a normalised Levenshtein distance.
6. It caches the result for the configured TTL.

This project models that core and proves what it does.

| module (file) | models |
|---|---|
| `Wrappers` (wrappers.dfy) | `Option` and `Result` |
| `GoStrings` (gostrings.dfy) | Go strings as byte sequences; `strings.Split`, `strings.Join`, `HasPrefix` and `HasSuffix` with a one-byte separator, and the facts about them the rest needs |
| `Types` (types.dfy) | `QueryType` and its four codes, `DNSRecord`, `AnalysisResult` |
| `DnsConfig` (dnsconfig.dfy) | `Config` and `DefaultConfig` |
| `Validator` (validator.dfy) | `isValidDomain` and `isValidDomainChar`, as predicates |
| `Similarity` (similarity.dfy) | `LevenshteinDistance`, as a method filling an `array2` table |
| `Resolver` (resolver.dfy) | `queryRecords`, as a method with the server loop and the answer loop |
| `Analyzer` (analyzer.dfy) | the cache (a class over a `map`), `NewAnalyzer`, `checkCache`, `cacheResult` and `Analyze` (a class whose `Analyze` method updates the cache) |

What the original gets from outside becomes parameters:
- **The DNS round trip.** It is a function `Exchange` from (name, type, server) to a failure or an already parsed answer section.
- **The three wall-clock readings an analysis may take.** These are a `Clock` value.
- **The way the collection loop's `select` resolves.** This is a `FanIn` value: the order in which the four lists arrive, and the iteration, if any, in which the context's cancellation is chosen instead.

Each method is proved against a function of its inputs and the old state:
- `QueryRecords` against `Resolve`;
- `LevenshteinDistance` against `Score`;
- `Analyze` against `AnalyzeSpec`, which gives the result and the cache afterwards.

The properties are then lemmas about those functions.

The principal results:
- **Validator.** `isValidDomain`, which splits the name into labels, accepts exactly the names whose bytes satisfy a split-free characterisation (`WellFormedName`). The familiar rejection rules, and the acceptance of any dot-join of valid labels, follow from it.
- **Splitting.** `Split` and `Join` invert each other.
- **Distance and score.** The distance is symmetric and bounded, and it is zero only for equal strings. The score lies in [0, 1] and is 1 exactly for identical strings.
- **Resolver.** The first server that answers at all decides the result.
- **Fan-in.** It keeps every record whatever the arrival order.
- **Failures.** No failure writes to the cache.
- **Cache.** A second analysis within the TTL returns the identical result.

Some of the code's behaviour is easy to misread. The model follows the code:
- **Record order.** The aggregated records of `Analyze` follow the order in which the four queries finish (internal/dns/analyzer.go:104-114 appends each list as it is received). They do not follow the fixed A, AAAA, MX, TXT grouping. `Analyzer.ArrivalOrderIsObservable` shows the order is visible; `Analyzer.ArrivalKeepsRecords` shows that the multiset of records is the same either way.
- **Similarity of two empty strings.** The tests expect 1.0, but the code divides zero by zero (see Findings).
- **Errors.** A failing name server never surfaces as an error. When every server fails, the type contributes no records (`Resolver.AllServersFail`). The `errors` channel of `Analyze` is never written to.
- **Cache key.** The cache is keyed by the domain alone. A cached result is returned whatever the target of the second call (`Analyzer.RepeatWithinTtlHitsCache`).
- **`RetryCount`.** It is configured but never read.
- **An expired context.** An already expired context need not make `Analyze` fail. Every exchange then fails, so each query still delivers an empty list on the buffered `results` channel. Once the four empty lists are already in the channel, each `select` (internal/dns/analyzer.go:106-112) sees both a list and `ctx.Done()` ready, and Go picks either one. If a `select` runs before a list has arrived, only `Done` is ready and the call fails, which is the usual outcome. When the lists win all four times, the analysis succeeds with no records, and with caching on that empty result is cached for the whole TTL (internal/dns/analyzer.go:126-128). `Analyzer.ExpiredContextMaySucceed` proves that the same inputs give either outcome. The deadline error is guaranteed only when `Done` wins a select, which is what `Analyzer.CancellationFails` states.

## Model

| member | source | states |
|---|---|---|
| Types.TypeCodes | internal/dns/types.go:5-10 | the four query types are codes 1 (A), 28 (AAAA), 15 (MX) and 16 (TXT), pairwise distinct |
| DnsConfig.DefaultConfig | internal/dns/config.go:13-21 | the configuration used when none is given: 5 s timeout, 3 retries, 8.8.8.8:53 then 8.8.4.4:53, caching on for one hour (pinned by `DefaultConfigValues`) |
| DnsConfig.DefaultConfigValues | internal/dns/config.go:13-21 | the default configuration: 5 s timeout, 3 retries, name servers 8.8.8.8:53 then 8.8.4.4:53, caching on, TTL one hour |
| GoStrings.FromLiteral | internal/dns/config.go:17 | an ASCII string literal becomes its UTF-8 bytes, one byte per character with the character's code |
| GoStrings.HasPrefix | internal/dns/analyzer.go:196 | `strings.HasPrefix`: the string is at least as long as the prefix and begins with it |
| GoStrings.HasSuffix | internal/dns/analyzer.go:196 | `strings.HasSuffix`: the string is at least as long as the suffix and ends with it |
| GoStrings.AffixOfOneByte | internal/dns/analyzer.go:196 | a one-byte prefix (suffix) test holds exactly when the string is non-empty and starts (ends) with that byte |
| GoStrings.FirstSeparator | internal/dns/analyzer.go:181 | the position found is within the string and holds the separator when it is not the end |
| GoStrings.FirstSeparatorIsFirst | internal/dns/analyzer.go:181 | no separator occurs before the position found |
| GoStrings.Split | internal/dns/analyzer.go:181 | a split always has at least one piece |
| GoStrings.Join | internal/dns/analyzer.go:162 | joining a single piece gives that piece |
| GoStrings.SplitStep | internal/dns/analyzer.go:181 | splitting at the first separator gives the prefix followed by the split of the rest |
| GoStrings.FirstPiece | internal/dns/analyzer.go:181 | the first piece is everything before the first separator |
| GoStrings.PiecesHaveNoSeparator | internal/dns/analyzer.go:181 | no piece of a split holds the separator |
| GoStrings.SplitIsSingleIff | internal/dns/analyzer.go:181-186 | a string splits into exactly one piece if and only if it holds no separator |
| GoStrings.JoinSplit | internal/dns/analyzer.go:181 | joining the pieces of a split with the separator restores the string |
| GoStrings.SplitJoin | internal/dns/analyzer.go:162 | splitting a join of one or more separator-free pieces gives back exactly those pieces |
| GoStrings.SplitAfterFreePrefix | internal/dns/analyzer.go:181 | a separator-free prefix followed by a separator splits off as one piece |
| Validator.IsValidDomainChar | internal/dns/analyzer.go:211-216 | an ASCII lower-case or upper-case letter, a digit or a hyphen; a dot is never one (dots are removed by the split) |
| Validator.IsValidLabel | internal/dns/analyzer.go:189-206 | the loop body's checks on one label, in order: 1 to 63 bytes, no hyphen at either end, only valid characters; an accepted label is 1 to 63 bytes long and holds no dot |
| Validator.IsValidDomain | internal/dns/analyzer.go:174-209 | `isValidDomain`: 1 to 255 bytes, at least two pieces when split on dots, and every piece a valid label |
| Validator.LabelEnds | internal/dns/analyzer.go:195-198 | a valid label neither starts nor ends with a hyphen |
| Validator.ValidDomainIffWellFormed | internal/dns/analyzer.go:174-209 | `isValidDomain` holds if and only if the name has at most 255 bytes, contains a dot, and satisfies the byte-level label rules |
| Validator.LabelsValidIffWellFormed | internal/dns/analyzer.go:181-206 | every piece of the split is a valid label if and only if the name satisfies the byte-level label rules |
| Validator.WellFormedSplits | internal/dns/analyzer.go:189-206 | the byte rules of a name whose first label ends at a dot hold for that label and for the rest |
| Validator.WellFormedJoins | internal/dns/analyzer.go:189-206 | a well formed dot-free label, a dot and a well formed rest make a well formed name |
| Validator.LengthRule | internal/dns/analyzer.go:176-178 | an empty name or one longer than 255 bytes is rejected |
| Validator.SingleLabelRule | internal/dns/analyzer.go:181-186 | a name without a dot is rejected |
| Validator.EmptyLabelRule | internal/dns/analyzer.go:189-193 | a leading, trailing or doubled dot is rejected |
| Validator.HyphenRule | internal/dns/analyzer.go:195-198 | a hyphen at the start or end of any label is rejected |
| Validator.CharacterRule | internal/dns/analyzer.go:200-216 | any byte other than an ASCII letter, digit, hyphen or dot is rejected |
| Validator.LabelLengthRule | internal/dns/analyzer.go:189-193 | a run of more than 63 bytes without a dot is rejected |
| Validator.JoinedLabelsAccepted | internal/dns/analyzer.go:174-209 | a dot-join of two or more valid labels of at most 255 bytes is accepted and splits back into those labels |
| Validator.GoogleComExample | internal/dns/analyzer_test.go:42-47 | "google.com" is accepted |
| Validator.NoTopLevelDomainExample | internal/dns/analyzer_test.go:48-53 | "thisisaninvalid" is rejected |
| Validator.BadCharacterExample | internal/dns/analyzer_test.go:60-65 | "test@domain.com" is rejected |
| Validator.TooLongExample | internal/dns/analyzer_test.go:66-71 | "a", 256 zero bytes and ".com" is rejected |
| Similarity.Distance | pkg/similarity/levenshtein.go:12-34 | the entry of the table for two prefixes: an empty prefix costs the other's length, equal last bytes cost the diagonal, otherwise one plus the least of the three neighbours; never more than the longer length |
| Similarity.Score | pkg/similarity/levenshtein.go:36-41 | one minus the distance over the longer length, and 1 for two empty strings |
| Similarity.ScoreAsWritten | pkg/similarity/levenshtein.go:36-41 | the Go formula: no value (NaN) for two empty strings, otherwise the score |
| Similarity.Min3 | pkg/similarity/levenshtein.go:24-30 | the result is one of the three values and no greater than any |
| Similarity.Max | pkg/similarity/levenshtein.go:36-39 | the result is one of the two values and no smaller than either |
| Similarity.DistanceStep | pkg/similarity/levenshtein.go:21-31 | each interior table cell is the copied diagonal for equal bytes, and otherwise one plus the least of the three neighbours |
| Similarity.FillColumn | pkg/similarity/levenshtein.go:20-33 | after the inner loop, column `j` holds the distances of all prefix pairs, and no other column changes |
| Similarity.LevenshteinDistance | pkg/similarity/levenshtein.go:3-42 | the table method returns `Score(s1, s2)`: one minus the edit distance over the longer length |
| Similarity.DistanceToEmpty | pkg/similarity/levenshtein.go:12-17 | a string against the empty string costs its length, either way round |
| Similarity.DistanceBounds | pkg/similarity/levenshtein.go:19-34 | the distance is at least the difference of the lengths and at most the longer length |
| Similarity.DistanceZeroIff | pkg/similarity/levenshtein.go:21-22 | the distance is zero if and only if the strings are equal |
| Similarity.DistanceSymmetric | pkg/similarity/levenshtein.go:19-34 | the distance does not depend on the order of the arguments |
| Similarity.DistanceCommonSuffix | pkg/similarity/levenshtein.go:21-22 | appending the same suffix to both strings leaves the distance unchanged |
| Similarity.SingleSubstitution | pkg/similarity/levenshtein.go:23-31 | strings that differ in exactly one byte have distance 1 |
| Similarity.DistanceAtMostMismatches | pkg/similarity/levenshtein.go:23-31 | the distance of equally long strings is at most their number of differing positions |
| Similarity.EmptyStringsScoreNaN | pkg/similarity/levenshtein.go:36-41 | the Go formula has no value (NaN) for two empty strings while the intended score is 1; for every other pair the two agree |
| Similarity.ScoreInUnitInterval | pkg/similarity/levenshtein.go:36-41 | every score lies in [0, 1] |
| Similarity.ScoreOneIff | pkg/similarity/levenshtein_test.go:13-18 | the score is 1 if and only if the strings are identical |
| Similarity.ScoreAgainstEmpty | pkg/similarity/levenshtein_test.go:37-42 | a non-empty string scores 0 against the empty string, either way round |
| Similarity.ScoreSymmetric | pkg/similarity/levenshtein.go:36-41 | the score does not depend on the order of the arguments |
| Similarity.ScoreStrictlyBetween | pkg/similarity/levenshtein.go:36-41 | a distance strictly between 0 and the longer length gives a score strictly between 0 and 1 |
| Similarity.SubstitutionDistanceExample | pkg/similarity/levenshtein_test.go:19-24 | "google.com" and "goggle.com" have distance 1 |
| Similarity.SubstitutionExample | pkg/similarity/levenshtein_test.go:19-24 | "google.com" against "goggle.com" scores exactly 0.9 |
| Similarity.TypoDistanceExample | test/integration/dns/dns_test.go:30 | "google.com" and "g00gle.com" have a distance between 1 and 3 |
| Similarity.TypoTargetExample | test/integration/dns/dns_test.go:42-45 | "google.com" against "g00gle.com" scores strictly between 0 and 1 |
| Resolver.Normalize | internal/dns/analyzer.go:146-163 | a record keeps its answer's name, type code and TTL; only an MX answer yields a priority, and that priority is its preference |
| Resolver.NormalizeAll | internal/dns/analyzer.go:146-166 | one record per answer, in answer order, each the normalised answer |
| Resolver.FirstResponder | internal/dns/analyzer.go:140-144 | every server before the one chosen failed, and the chosen one, if any, answered |
| Resolver.Resolve | internal/dns/analyzer.go:138-171 | what `queryRecords` sends: the normalised answer of the first server that answers, or no records when every server fails |
| Resolver.QueryRecords | internal/dns/analyzer.go:133-172 | the server loop returns `Resolve`: the normalised answer of the first server that answers, or no records |
| Resolver.FirstResponderIs | internal/dns/analyzer.go:140-168 | a server that answers after only failures is the one chosen |
| Resolver.AllServersFail | internal/dns/analyzer.go:140-171 | when every server fails, the result is an empty record list and no error |
| Resolver.FirstAnswerWins | internal/dns/analyzer.go:140-168 | the first server that answers decides the records, even when its answer is empty |
| Resolver.LaterServersIgnored | internal/dns/analyzer.go:168 | what the servers after the first responder would say does not affect the result |
| Resolver.TxtValueRoundTrip | internal/dns/analyzer.go:161-162 | a TXT value splits on spaces back into the record's strings when none of them holds a space |
| Resolver.ResolvedRecordsShape | internal/dns/analyzer.go:146-166 | each returned record is the normalised answer at the same position of the chosen server's reply, and only MX records carry a priority |
| Analyzer.Lookup | internal/dns/analyzer.go:53-63 | `checkCache`: the stored result of the domain, or none when there is no entry or `now` is after its expiry |
| Analyzer.Store | internal/dns/analyzer.go:65-73 | `cacheResult`: the map with the domain's entry replaced by the result, expiring TTL after `now` |
| Analyzer.Gather | internal/dns/analyzer.go:104-114 | the lists named by an arrival order, concatenated in that order |
| Analyzer.LookupIff | internal/dns/analyzer.go:57-62 | a lookup hits if and only if the entry exists and `now` is not after its expiry, and then gives the stored result |
| Analyzer.LookupAfterStore | internal/dns/analyzer.go:65-73 | a stored result is found again, unchanged, up to and including `now + TTL`, and not after |
| Analyzer.StoreKeepsOtherEntries | internal/dns/analyzer.go:69-72 | storing under one domain changes no other domain's entry |
| Analyzer.MissIsFinal | internal/dns/analyzer.go:57-62 | once a lookup misses, it misses at every later time until the entry is stored again |
| Analyzer.GatherBag | internal/dns/analyzer.go:104-114 | the records gathered have the multiset of the lists named |
| Analyzer.BagPermutation | internal/dns/analyzer.go:104-114 | two arrival orders with the same multiset of lists give the same multiset of records |
| Analyzer.GatherFour | internal/dns/analyzer.go:104-114 | four lists gathered in a given order are their concatenation in that order |
| Analyzer.ArrivalKeepsRecords | internal/dns/analyzer.go:104-114 | whatever the arrival order, the aggregate holds exactly the records of the four lists with their multiplicities |
| Analyzer.ArrivalOrderIsObservable | internal/dns/analyzer.go:107-108 | two lists that arrive swapped give a different aggregate order |
| Analyzer.PerTypeRecords | internal/dns/analyzer.go:98-101 | the resolver's records for A, AAAA, MX and TXT, in the order the queries start |
| Analyzer.Composed | internal/dns/analyzer.go:117-123 | a completed analysis: the records gathered in arrival order, the score against the target, the compose time, zero age and no history |
| Analyzer.AnalyzeSpec | internal/dns/analyzer.go:75-131 | the outcome and the cache afterwards, checked in this order: empty name, invalid name, a live entry (with caching on), cancellation winning a select; otherwise the composed result, stored when caching is on |
| Analyzer.Collect | internal/dns/analyzer.go:103-114 | the collection loop gives the context's error if cancellation wins any of the four selects, and otherwise the lists appended in arrival order |
| Analyzer.Cache.constructor | internal/dns/analyzer.go:47-49 | a new cache is empty |
| Analyzer.Analyzer.constructor | internal/dns/analyzer.go:37-51 | a missing configuration means the default one, a given one is used as it is, the client timeout is the configuration's, and the cache starts empty |
| Analyzer.Analyzer.CheckCache | internal/dns/analyzer.go:53-63 | the cached result of the domain if present and unexpired at `now`, and none otherwise |
| Analyzer.Analyzer.CacheResult | internal/dns/analyzer.go:65-73 | the domain's entry becomes the result, expiring TTL after `now`; nothing else changes |
| Analyzer.Analyzer.Analyze | internal/dns/analyzer.go:75-131 | the result and the new cache are those `AnalyzeSpec` gives: validation errors, cache hit, cancellation, or a composed result that is then cached |
| Analyzer.EmptyDomainRefusedFirst | internal/dns/analyzer.go:77-79 | an empty name fails with the empty-domain error, whatever the cache, servers and scheduling, and the cache is unchanged |
| Analyzer.InvalidDomainRefusedBeforeLookup | internal/dns/analyzer.go:81-84 | a non-empty malformed name fails with the invalid-domain error before the cache or any server is consulted, and the cache is unchanged |
| Analyzer.CacheHitAnswers | internal/dns/analyzer.go:86-91 | with caching on, a live entry is returned as it is, whatever the servers or target, and the cache is unchanged |
| Analyzer.FailureLeavesCache | internal/dns/analyzer.go:75-131 | no failed analysis writes to the cache |
| Analyzer.FreshAnalysis | internal/dns/analyzer.go:93-128 | an uncached, uncancelled analysis returns the records of the four per-type queries, the score against the target in [0, 1] and the compose time, and with caching on stores exactly that result |
| Analyzer.CancellationFails | internal/dns/analyzer.go:111-112 | a cancellation that wins any select fails the analysis with the context's error and leaves the cache unchanged |
| Analyzer.ExpiredContextMaySucceed | internal/dns/analyzer.go:104-128 | when every exchange fails, as with an expired context, the select alone decides the outcome: the lists winning every select gives success with no records, cached when caching is on; `Done` winning gives the deadline error with the cache unchanged |
| Analyzer.SimilarityInUnitInterval | internal/dns/analyzer_test.go:84-87 | every successful analysis scores in [0, 1], and the cache only ever holds such scores |
| Analyzer.RepeatWithinTtlHitsCache | test/integration/dns/dns_test.go:47-55 | a second analysis of the name within the TTL returns the identical result, `LastUpdated` included, and leaves the cache as the first left it |
| Analyzer.SelfSimilarity | internal/dns/analyzer.go:117-123 | a fresh analysis of a name against itself returns the composed result with score 1 |
| Analyzer.GoogleComAnalysis | internal/dns/analyzer_test.go:42-47 | a new analyzer analyses "google.com" against itself successfully with score 1 unless the context is cancelled |

## Left out

- The DNS client is not modelled:
  - how the question is built (`dns.Fqdn`, `SetQuestion`, `RecursionDesired`);
  - the wire protocol and transport;
  - the client's timeout taking effect;
  - the text form of IPv4 and IPv6 addresses.
  
  All of this is inside the `Exchange` parameter. A failed exchange is `ExchangeFailed`, an answer is its parsed answer section, and addresses arrive as text.
- The goroutines, the channels and the `select` are not modelled as concurrency. The model runs the four queries one after another, then collects through a `FanIn` value that fixes the arrival order and the iteration at which cancellation wins. Queries that Go abandons after a cancellation have no observable effect, because `Exchange` is a pure function.
- The `case err := <-errors` branch of `Analyze` is left out. `queryRecords` never sends on that channel, so the branch cannot be taken.
- The mutexes `Analyzer.mu` and `Cache.mu` are left out. Each call of `CheckCache`, `CacheResult` and `Analyze` is atomic in the model, and interleavings of concurrent analyses are not modelled.
- Analyzer.Analyzer.Analyze, Analyzer.Analyzer.CheckCache: results are values. The model cannot show that the cached entry and the result's records share one backing array. `cacheResult` stores a copy of the result struct whose `Records` slice still points at the caller's array (internal/dns/analyzer.go:69-70). `checkCache` returns a pointer to a copy of the entry, and that copy's `Records` still shares the cached backing array (internal/dns/analyzer.go:57,62). A caller that writes `Records[i]` of a returned or stored result in Go changes the cached entry; one that sets `Similarity` or `LastUpdated` does not. In the model no later call can see either change.
- Analyzer.Analyzer.constructor: the configuration is a value copied into the analyzer. In Go, `NewAnalyzer` keeps the caller's `*Config` pointer (internal/dns/analyzer.go:46), so later changes the caller makes to it reach the analyzer. The exception is the client timeout, which is copied at construction (internal/dns/analyzer.go:44). The model does not capture that sharing, or the pointer identity that internal/dns/analyzer_test.go:27 checks.
- Resolver.QueryRecords: `Exchange` depends only on the name, the type and the server's address. A server listed twice in `NameServers` therefore gives the same outcome on both attempts in the model. In Go each entry is a separate `ExchangeContext` call (internal/dns/analyzer.go:140-141), so a first attempt can fail and a second can answer.
- `time.Now` is left out. Its three readings in an analysis are the `Clock` parameter.
- Time and durations are unbounded integer nanoseconds. `time.Time` representation and int64 overflow of `now + TTL` are not modelled.
- Similarity.LevenshteinDistance: the score is an exact real rather than a float64. The Go code's 0/0 NaN for two empty strings is replaced by the intended 1 (see Findings). The "Different strings" case of pkg/similarity/levenshtein_test.go:25-30, about 0.55, is not proved.
- `RetryCount` is carried in `Config` but read by nothing, so nothing models retries.
- `Age` and `Historical` of `AnalysisResult` are never set by `Analyze`. The model gives them their zero values.
- Go ranges over the runes of each label, and the model checks bytes. Every non-ASCII rune, and the replacement rune for invalid UTF-8, fails the character test, so both accept the same names.
- cmd/linktracer/main.go, the command-line front end, is not part of this model.

## Findings

| source | as written | input that shows it | evidently intended | confidence | as-written member | corrected member |
|---|---|---|---|---|---|---|
| pkg/similarity/levenshtein.go:36-41 | returns `1 - d/maxLen` with `maxLen` the longer length, which is 0 when both strings are empty, giving `0.0/0.0`, a NaN | `LevenshteinDistance("", "")` | 1.0, as pkg/similarity/levenshtein_test.go:31-36 expects. That test's one-sided check `(got - want) > 0.1` is false for NaN, so it does not notice | not executed; high, since float64 0/0 is NaN | Similarity.ScoreAsWritten, Similarity.EmptyStringsScoreNaN | Similarity.Score, Similarity.ScoreOneIff |
