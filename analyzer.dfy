/** The analyzer of internal/dns/analyzer.go: the result cache, the
    constructor's default configuration, and `Analyze`.

    What the model takes as parameters:
    - the three readings of the wall clock an analysis may take (`Clock`);
    - what each name server would answer (`Exchange`, see the Resolver module);
    - how the collection loop's `select` resolves (`FanIn`): the order in
      which the four per-type lists arrive, and the iteration, if any, in
      which the context's cancellation wins instead. */
module Analyzer {
  import opened Wrappers
  import opened GoStrings
  import opened Types
  import opened DnsConfig
  import opened Validator
  import opened Similarity
  import opened Resolver

  datatype CacheItem = CacheItem(result: AnalysisResult, expiresAt: Time)

  type CacheMap = map<seq<byte>, CacheItem>

  /** What `ctx.Err()` reports once the context is done. */
  datatype ContextError = Canceled | DeadlineExceeded

  datatype AnalyzeError =
    | EmptyDomain         // "empty domain name"
    | InvalidDomain       // "invalid domain name"
    | Interrupted(reason: ContextError)

  /** The clock as `Analyze` reads it: when the cache is consulted, when the
      result is stamped, and when the cache entry's expiry is computed. */
  datatype Clock = Clock(lookup: Time, compose: Time, store: Time)

  /** The outcome of the four `select`s: `arrival[i]` is the index (into
      `QueriedTypes`) of the list received in iteration `i`; in iteration
      `cancelAt`, when it is below 4, `ctx.Done()` is chosen instead. */
  datatype FanIn = FanIn(arrival: seq<nat>, cancelAt: nat, reason: ContextError)

  /** Each of the four lists arrives exactly once. The first two conjuncts
      follow from the third; they are spelt out for the indexing. */
  predicate ValidFanIn(f: FanIn) {
    && |f.arrival| == 4
    && (forall i | 0 <= i < |f.arrival| :: f.arrival[i] < 4)
    && multiset(f.arrival) == multiset{0, 1, 2, 3}
  }

  /** The record types `Analyze` starts a query for, in the order it starts them. */
  const QueriedTypes: seq<QueryType> := [TypeA, TypeAAAA, TypeMX, TypeTXT]

  // ---------------------------------------------------------------------
  // The cache, as a map.

  /** `checkCache`: the stored result, unless it is missing or `now` is
      after its expiry. */
  function Lookup(items: CacheMap, domain: seq<byte>, now: Time): (found: Option<AnalysisResult>) {
    if domain !in items || now > items[domain].expiresAt then None
    else Some(items[domain].result)
  }

  /** `cacheResult`: overwrite the entry of `domain`, expiring `ttl` after `now`. */
  function Store(items: CacheMap, domain: seq<byte>, result: AnalysisResult, now: Time, ttl: Duration): (updated: CacheMap) {
    items[domain := CacheItem(result, now + ttl)]
  }

  /** A lookup finds a result exactly when an entry exists and has not
      expired, and then it is the stored one. */
  lemma LookupIff(items: CacheMap, domain: seq<byte>, now: Time)
    ensures Lookup(items, domain, now).Some? <==> domain in items && now <= items[domain].expiresAt
    ensures Lookup(items, domain, now).Some? ==> Lookup(items, domain, now).value == items[domain].result
  {
  }

  /** A stored result is found again, unchanged, up to and including its
      expiry time, and not after. */
  lemma LookupAfterStore(items: CacheMap, domain: seq<byte>, result: AnalysisResult, stored: Time, ttl: Duration, now: Time)
    ensures Lookup(Store(items, domain, result, stored, ttl), domain, now)
      == if now <= stored + ttl then Some(result) else None
  {
  }

  /** A store changes no other domain's entry. */
  lemma StoreKeepsOtherEntries(items: CacheMap, domain: seq<byte>, result: AnalysisResult, stored: Time, ttl: Duration, other: seq<byte>)
    requires other != domain
    ensures other in Store(items, domain, result, stored, ttl) <==> other in items
    ensures other in items ==> Store(items, domain, result, stored, ttl)[other] == items[other]
  {
  }

  /** Expiry is lazy but final: once a lookup misses, it misses at every
      later time until the entry is stored again. */
  lemma MissIsFinal(items: CacheMap, domain: seq<byte>, now: Time, later: Time)
    requires now <= later
    requires Lookup(items, domain, now).None?
    ensures Lookup(items, domain, later).None?
  {
  }

  // ---------------------------------------------------------------------
  // The fan-in.

  /** The lists named by `order`, concatenated in that order. */
  function Gather(lists: seq<seq<DNSRecord>>, order: seq<nat>): (records: seq<DNSRecord>)
    requires forall i | 0 <= i < |order| :: order[i] < |lists|
  {
    if order == [] then []
    else Gather(lists, order[..|order| - 1]) + lists[order[|order| - 1]]
  }

  /** The multiset of records of the lists named by `order`. */
  ghost function Bag(lists: seq<seq<DNSRecord>>, order: seq<nat>): (bag: multiset<DNSRecord>)
    requires forall i | 0 <= i < |order| :: order[i] < |lists|
  {
    if order == [] then multiset{}
    else Bag(lists, order[..|order| - 1]) + multiset(lists[order[|order| - 1]])
  }

  lemma {:induction false} GatherBag(lists: seq<seq<DNSRecord>>, order: seq<nat>)
    requires forall i | 0 <= i < |order| :: order[i] < |lists|
    ensures multiset(Gather(lists, order)) == Bag(lists, order)
    decreases |order|
  {
    if order != [] {
      GatherBag(lists, order[..|order| - 1]);
    }
  }

  lemma {:induction false} BagAppend(lists: seq<seq<DNSRecord>>, p: seq<nat>, q: seq<nat>)
    requires forall i | 0 <= i < |p| :: p[i] < |lists|
    requires forall i | 0 <= i < |q| :: q[i] < |lists|
    ensures Bag(lists, p + q) == Bag(lists, p) + Bag(lists, q)
    decreases |q|
  {
    if q == [] {
      assert p + q == p;
    } else {
      var q' := q[..|q| - 1];
      assert (p + q)[..|p + q| - 1] == p + q';
      BagAppend(lists, p, q');
    }
  }

  /** Taking one index out of an order takes its list out of the bag. */
  lemma BagRemove(lists: seq<seq<DNSRecord>>, q: seq<nat>, j: nat)
    requires forall i | 0 <= i < |q| :: q[i] < |lists|
    requires j < |q|
    ensures Bag(lists, q) == Bag(lists, q[..j] + q[j + 1..]) + multiset(lists[q[j]])
  {
    var left, right := q[..j], q[j + 1..];
    assert forall i | 0 <= i < |right| :: right[i] < |lists| by {
      assert forall i | 0 <= i < |right| :: right[i] == q[j + 1 + i];
    }
    assert q == left + [q[j]] + right;
    BagAround(lists, left, q[j], right);
  }

  lemma BagAround(lists: seq<seq<DNSRecord>>, left: seq<nat>, x: nat, right: seq<nat>)
    requires forall i | 0 <= i < |left| :: left[i] < |lists|
    requires forall i | 0 <= i < |right| :: right[i] < |lists|
    requires x < |lists|
    ensures Bag(lists, left + [x] + right) == Bag(lists, left + right) + multiset(lists[x])
  {
    var lx := left + [x];
    assert forall i | 0 <= i < |lx| :: lx[i] < |lists| by {
      assert forall i | 0 <= i < |left| :: lx[i] == left[i];
    }
    var bl, bx, br := Bag(lists, left), multiset(lists[x]), Bag(lists, right);
    assert Bag(lists, lx + right) == Bag(lists, lx) + br by {
      BagAppend(lists, lx, right);
    }
    assert Bag(lists, lx) == bl + bx by {
      BagSnoc(lists, left, x);
    }
    assert Bag(lists, left + right) == bl + br by {
      BagAppend(lists, left, right);
    }
    MultisetShuffle(bl, bx, br);
  }

  lemma MultisetShuffle(a: multiset<DNSRecord>, x: multiset<DNSRecord>, b: multiset<DNSRecord>)
    ensures a + x + b == (a + b) + x
  {
  }

  lemma BagSnoc(lists: seq<seq<DNSRecord>>, order: seq<nat>, x: nat)
    requires forall i | 0 <= i < |order| :: order[i] < |lists|
    requires x < |lists|
    ensures Bag(lists, order + [x]) == Bag(lists, order) + multiset(lists[x])
  {
    assert (order + [x])[..|order|] == order;
  }

  lemma MultisetRemove(q: seq<nat>, j: nat)
    requires j < |q|
    ensures multiset(q) == multiset(q[..j] + q[j + 1..]) + multiset{q[j]}
  {
    assert q == q[..j] + [q[j]] + q[j + 1..];
  }

  lemma MultisetCancel(a: multiset<nat>, b: multiset<nat>, x: nat)
    requires a + multiset{x} == b + multiset{x}
    ensures a == b
  {
    forall y
      ensures a[y] == b[y]
    {
      assert (a + multiset{x})[y] == (b + multiset{x})[y];
    }
  }

  /** The records gathered depend on the order only through its multiset. */
  lemma {:induction false} BagPermutation(lists: seq<seq<DNSRecord>>, p: seq<nat>, q: seq<nat>)
    requires forall i | 0 <= i < |p| :: p[i] < |lists|
    requires forall i | 0 <= i < |q| :: q[i] < |lists|
    requires multiset(p) == multiset(q)
    ensures Bag(lists, p) == Bag(lists, q)
    decreases |p|
  {
    if p == [] {
      assert |q| == |multiset(q)| == 0;
    } else {
      var n := |p| - 1;
      var x, p' := p[n], p[..n];
      BagRemove(lists, p, n);
      MultisetRemove(p, n);
      assert p[..n] + p[n + 1..] == p';
      assert x in multiset(q);
      var j :| 0 <= j < |q| && q[j] == x;
      var q' := q[..j] + q[j + 1..];
      BagRemove(lists, q, j);
      MultisetRemove(q, j);
      MultisetCancel(multiset(p'), multiset(q'), x);
      BagPermutation(lists, p', q');
    }
  }

  /** Whatever the arrival order, the aggregate holds exactly the records of
      the four lists, each as often as it occurs there. */
  lemma ArrivalKeepsRecords(lists: seq<seq<DNSRecord>>, f: FanIn)
    requires |lists| == 4 && ValidFanIn(f)
    ensures multiset(Gather(lists, f.arrival)) == multiset(lists[0] + lists[1] + lists[2] + lists[3])
  {
    var fixed: seq<nat> := [0, 1, 2, 3];
    BagPermutation(lists, f.arrival, fixed);
    GatherBag(lists, f.arrival);
    GatherBag(lists, fixed);
    GatherFour(lists, 0, 1, 2, 3);
  }

  /** Four lists gathered in a given order, written out. */
  lemma GatherFour(lists: seq<seq<DNSRecord>>, a: nat, b: nat, c: nat, d: nat)
    requires a < |lists| && b < |lists| && c < |lists| && d < |lists|
    ensures Gather(lists, [a, b, c, d]) == lists[a] + lists[b] + lists[c] + lists[d]
  {
    var o1, o2, o3: seq<nat> := [a], [a, b], [a, b, c];
    assert Gather(lists, o1) == lists[a] by {
      assert o1 == [] + [a];
      GatherSnoc(lists, [], a);
    }
    assert Gather(lists, o2) == lists[a] + lists[b] by {
      assert o2 == o1 + [b];
      GatherSnoc(lists, o1, b);
    }
    assert Gather(lists, o3) == lists[a] + lists[b] + lists[c] by {
      assert o3 == o2 + [c];
      GatherSnoc(lists, o2, c);
    }
    assert [a, b, c, d] == o3 + [d];
    GatherSnoc(lists, o3, d);
  }

  lemma GatherSnoc(lists: seq<seq<DNSRecord>>, order: seq<nat>, x: nat)
    requires forall i | 0 <= i < |order| :: order[i] < |lists|
    requires x < |lists|
    ensures Gather(lists, order + [x]) == Gather(lists, order) + lists[x]
  {
    assert (order + [x])[..|order|] == order;
  }

  /** The records go into the aggregate one list at a time, in arrival
      order; it is not the A, AAAA, MX, TXT order the queries start in: two
      different lists that arrive swapped give a different aggregate. */
  lemma ArrivalOrderIsObservable(r0: DNSRecord, r1: DNSRecord)
    requires r0 != r1
    ensures
      var lists := [[r0], [r1], [], []];
      Gather(lists, [0, 1, 2, 3]) == [r0, r1] && Gather(lists, [1, 0, 2, 3]) == [r1, r0]
  {
    var lists := [[r0], [r1], [], []];
    GatherFour(lists, 0, 1, 2, 3);
    GatherFour(lists, 1, 0, 2, 3);
  }

  // ---------------------------------------------------------------------
  // What an analysis returns.

  /** The four per-type record lists, in the order the queries start. */
  function PerTypeRecords(config: Config, domain: seq<byte>, exchange: Exchange): (lists: seq<seq<DNSRecord>>) {
    seq(|QueriedTypes|, i requires 0 <= i < |QueriedTypes| => Resolve(domain, QueriedTypes[i], config.nameServers, exchange))
  }

  /** The result a completed (uncached) analysis composes. */
  function Composed(config: Config, domain: seq<byte>, target: seq<byte>, clock: Clock, exchange: Exchange, f: FanIn): (result: AnalysisResult)
    requires ValidFanIn(f)
  {
    AnalysisResult(
      records := Gather(PerTypeRecords(config, domain, exchange), f.arrival),
      age := 0,
      similarity := Score(domain, target),
      historical := [],
      lastUpdated := clock.compose)
  }

  /** `Analyze`: its result and the cache afterwards. */
  function AnalyzeSpec(config: Config, items: CacheMap, domain: seq<byte>, target: seq<byte>,
                       clock: Clock, exchange: Exchange, f: FanIn): (outcome: (Result<AnalysisResult, AnalyzeError>, CacheMap))
    requires ValidFanIn(f)
  {
    if domain == [] then (Err(EmptyDomain), items)
    else if !IsValidDomain(domain) then (Err(InvalidDomain), items)
    else if config.cacheEnabled && Lookup(items, domain, clock.lookup).Some? then
      (Ok(Lookup(items, domain, clock.lookup).value), items)
    else if f.cancelAt < 4 then (Err(Interrupted(f.reason)), items)
    else
      var result := Composed(config, domain, target, clock, exchange, f);
      (Ok(result), if config.cacheEnabled then Store(items, domain, result, clock.store, config.cacheTTL) else items)
  }

  /** The collection loop of `Analyze`: four `select`s, each appending the
      list that arrives, unless the context's cancellation is chosen first. */
  method Collect(lists: seq<seq<DNSRecord>>, f: FanIn) returns (r: Result<seq<DNSRecord>, ContextError>)
    requires |lists| == 4 && ValidFanIn(f)
    ensures r == if f.cancelAt < 4 then Err(f.reason) else Ok(Gather(lists, f.arrival))
  {
    var allRecords := [];
    for i := 0 to 4
      invariant i <= f.cancelAt
      invariant allRecords == Gather(lists, f.arrival[..i])
    {
      if i == f.cancelAt {
        return Err(f.reason);
      }
      assert f.arrival[..i + 1][..i] == f.arrival[..i];
      allRecords := allRecords + lists[f.arrival[i]];
    }
    assert f.arrival[..4] == f.arrival;
    return Ok(allRecords);
  }

  // ---------------------------------------------------------------------
  // The objects.

  class Cache {
    var items: CacheMap

    constructor ()
      ensures items == map[]
    {
      items := map[];
    }
  }

  class Analyzer {
    const config: Config
    /** The DNS client's timeout. */
    const clientTimeout: Duration
    const cache: Cache

    /** `NewAnalyzer`: a missing configuration means `DefaultConfig()`; a
        given one is used as it is. The cache starts empty. */
    constructor (config: Option<Config>)
      ensures this.config == if config.Some? then config.value else DefaultConfig()
      ensures clientTimeout == this.config.timeout
      ensures fresh(cache) && cache.items == map[]
    {
      var c := if config.Some? then config.value else DefaultConfig();
      this.config := c;
      clientTimeout := c.timeout;
      cache := new Cache();
    }

    /** `checkCache` at time `now`. */
    method CheckCache(domain: seq<byte>, now: Time) returns (result: Option<AnalysisResult>)
      ensures result == Lookup(cache.items, domain, now)
    {
      result := Lookup(cache.items, domain, now);
    }

    /** `cacheResult` at time `now`. */
    method CacheResult(domain: seq<byte>, result: AnalysisResult, now: Time)
      modifies cache
      ensures cache.items == Store(old(cache.items), domain, result, now, config.cacheTTL)
    {
      cache.items := Store(cache.items, domain, result, now, config.cacheTTL);
    }

    /** `Analyze`: reject an empty, then an invalid name; answer from the
        cache when it can; otherwise query the four record types, collect
        the lists as they arrive, score the name against `target`, and
        cache the result. */
    method Analyze(domain: seq<byte>, target: seq<byte>, clock: Clock, exchange: Exchange, f: FanIn)
      returns (r: Result<AnalysisResult, AnalyzeError>)
      requires ValidFanIn(f)
      modifies cache
      ensures (r, cache.items) == AnalyzeSpec(config, old(cache.items), domain, target, clock, exchange, f)
    {
      if domain == [] {
        return Err(EmptyDomain);
      }
      if !IsValidDomain(domain) {
        return Err(InvalidDomain);
      }
      if config.cacheEnabled {
        var cached := CheckCache(domain, clock.lookup);
        if cached.Some? {
          return Ok(cached.value);
        }
      }

      var a := QueryRecords(domain, TypeA, config.nameServers, exchange);
      var aaaa := QueryRecords(domain, TypeAAAA, config.nameServers, exchange);
      var mx := QueryRecords(domain, TypeMX, config.nameServers, exchange);
      var txt := QueryRecords(domain, TypeTXT, config.nameServers, exchange);
      var lists := [a, aaaa, mx, txt];
      assert lists == PerTypeRecords(config, domain, exchange);

      var collected := Collect(lists, f);
      if collected.Err? {
        return Err(Interrupted(collected.error));
      }
      var allRecords := collected.value;

      var simScore := LevenshteinDistance(domain, target);
      var result := AnalysisResult(allRecords, 0, simScore, [], clock.compose);
      if config.cacheEnabled {
        CacheResult(domain, result, clock.store);
      }
      return Ok(result);
    }
  }

  // ---------------------------------------------------------------------
  // Properties of an analysis.

  /** An empty name is refused first, whatever the cache, the servers and
      the scheduling, and the cache is left as it was. */
  lemma EmptyDomainRefusedFirst(config: Config, items: CacheMap, target: seq<byte>, clock: Clock, exchange: Exchange, f: FanIn)
    requires ValidFanIn(f)
    ensures AnalyzeSpec(config, items, [], target, clock, exchange, f) == (Err(EmptyDomain), items)
  {
  }

  /** A malformed name is refused before the cache is consulted or any
      server is asked, and the cache is left as it was. */
  lemma InvalidDomainRefusedBeforeLookup(config: Config, items: CacheMap, domain: seq<byte>, target: seq<byte>,
                                         clock: Clock, exchange: Exchange, f: FanIn)
    requires ValidFanIn(f)
    requires domain != [] && !WellFormedName(domain)
    ensures AnalyzeSpec(config, items, domain, target, clock, exchange, f) == (Err(InvalidDomain), items)
  {
    ValidDomainIffWellFormed(domain);
  }

  /** A live cache entry is returned as it is, without asking any server and
      whatever the target, and the cache is left as it was. */
  lemma CacheHitAnswers(config: Config, items: CacheMap, domain: seq<byte>, target: seq<byte>,
                        clock: Clock, exchange: Exchange, f: FanIn)
    requires ValidFanIn(f)
    requires IsValidDomain(domain) && config.cacheEnabled
    requires domain in items && clock.lookup <= items[domain].expiresAt
    ensures AnalyzeSpec(config, items, domain, target, clock, exchange, f) == (Ok(items[domain].result), items)
  {
  }

  /** No failed analysis writes to the cache. */
  lemma FailureLeavesCache(config: Config, items: CacheMap, domain: seq<byte>, target: seq<byte>,
                           clock: Clock, exchange: Exchange, f: FanIn)
    requires ValidFanIn(f)
    requires AnalyzeSpec(config, items, domain, target, clock, exchange, f).0.Err?
    ensures AnalyzeSpec(config, items, domain, target, clock, exchange, f).1 == items
  {
  }

  /** A completed uncached analysis holds the records of the four per-type
      lists (in some arrival order), the score of the name against the
      target, and the compose time; `age` and `historical` stay zero; with
      caching on, it is stored under the name. */
  lemma FreshAnalysis(config: Config, items: CacheMap, domain: seq<byte>, target: seq<byte>,
                      clock: Clock, exchange: Exchange, f: FanIn)
    requires ValidFanIn(f) && f.cancelAt >= 4
    requires IsValidDomain(domain)
    requires !config.cacheEnabled || Lookup(items, domain, clock.lookup).None?
    ensures var (r, items') := AnalyzeSpec(config, items, domain, target, clock, exchange, f);
      var lists := PerTypeRecords(config, domain, exchange);
      && r.Ok?
      && multiset(r.value.records) == multiset(lists[0] + lists[1] + lists[2] + lists[3])
      && r.value.similarity == Score(domain, target)
      && 0.0 <= r.value.similarity <= 1.0
      && r.value.age == 0 && r.value.historical == []
      && r.value.lastUpdated == clock.compose
      && items' == if config.cacheEnabled then Store(items, domain, r.value, clock.store, config.cacheTTL) else items
  {
    ArrivalKeepsRecords(PerTypeRecords(config, domain, exchange), f);
    ScoreInUnitInterval(domain, target);
  }

  /** A cancellation that wins any of the four `select`s fails the analysis
      with the context's error, even when every list has already arrived. */
  lemma CancellationFails(config: Config, items: CacheMap, domain: seq<byte>, target: seq<byte>,
                          clock: Clock, exchange: Exchange, f: FanIn)
    requires ValidFanIn(f) && f.cancelAt < 4
    requires IsValidDomain(domain)
    requires !config.cacheEnabled || Lookup(items, domain, clock.lookup).None?
    ensures AnalyzeSpec(config, items, domain, target, clock, exchange, f) == (Err(Interrupted(f.reason)), items)
  {
  }

  /** A context that has already expired need not make the analysis fail.
      It makes every exchange fail, so each query delivers an empty list on
      the buffered channel. Once the four empty lists are already in the
      channel, a `select` sees both a list and `ctx.Done()` ready and Go
      picks either; if a `select` runs before a list has arrived, only
      `Done` is ready and the analysis fails. When the lists win every
      time, the analysis succeeds with no records and, with caching on,
      caches that empty result for the whole TTL. When `Done` wins, it fails
      with the deadline error. The same inputs thus give either outcome, by
      the scheduling alone. */
  lemma ExpiredContextMaySucceed(config: Config, items: CacheMap, domain: seq<byte>, target: seq<byte>,
                                 clock: Clock, f: FanIn)
    requires ValidFanIn(f)
    requires IsValidDomain(domain)
    requires !config.cacheEnabled || Lookup(items, domain, clock.lookup).None?
    ensures var expired: Exchange := (d, t, s) => ExchangeFailed;
      var (r, items') := AnalyzeSpec(config, items, domain, target, clock, expired, f.(cancelAt := 4));
      && r.Ok? && r.value.records == []
      && items' == if config.cacheEnabled then Store(items, domain, r.value, clock.store, config.cacheTTL) else items
    ensures var expired: Exchange := (d, t, s) => ExchangeFailed;
      AnalyzeSpec(config, items, domain, target, clock, expired, f.(cancelAt := 0, reason := DeadlineExceeded))
        == (Err(Interrupted(DeadlineExceeded)), items)
  {
    var expired: Exchange := (d, t, s) => ExchangeFailed;
    var servers := config.nameServers;
    AllServersFail(domain, TypeA, servers, expired);
    AllServersFail(domain, TypeAAAA, servers, expired);
    AllServersFail(domain, TypeMX, servers, expired);
    AllServersFail(domain, TypeTXT, servers, expired);
    var lists := PerTypeRecords(config, domain, expired);
    assert lists == [[], [], [], []];
    ArrivalKeepsRecords(lists, f.(cancelAt := 4));
    assert lists[0] + lists[1] + lists[2] + lists[3] == [];
  }

  /** Every score in the cache lies in [0, 1]. */
  ghost predicate ScoresBounded(items: CacheMap) {
    forall d | d in items :: 0.0 <= items[d].result.similarity <= 1.0
  }

  /** Every successful analysis has a score in [0, 1], and the cache keeps
      only such scores, starting from the empty cache of a new analyzer. */
  lemma SimilarityInUnitInterval(config: Config, items: CacheMap, domain: seq<byte>, target: seq<byte>,
                                 clock: Clock, exchange: Exchange, f: FanIn)
    requires ValidFanIn(f) && ScoresBounded(items)
    ensures var (r, items') := AnalyzeSpec(config, items, domain, target, clock, exchange, f);
      && (r.Ok? ==> 0.0 <= r.value.similarity <= 1.0)
      && ScoresBounded(items')
  {
    ScoreInUnitInterval(domain, target);
  }

  /** Analysing the same name again before the entry expires gives the
      identical result, `lastUpdated` included, and asks no server; the
      second call's target is not looked at. */
  lemma RepeatWithinTtlHitsCache(config: Config, items: CacheMap, domain: seq<byte>, target: seq<byte>,
                                 clock: Clock, exchange: Exchange, f: FanIn,
                                 target2: seq<byte>, clock2: Clock, exchange2: Exchange, f2: FanIn)
    requires ValidFanIn(f) && ValidFanIn(f2)
    requires config.cacheEnabled && Lookup(items, domain, clock.lookup).None?
    requires AnalyzeSpec(config, items, domain, target, clock, exchange, f).0.Ok?
    requires clock2.lookup <= clock.store + config.cacheTTL
    ensures var first := AnalyzeSpec(config, items, domain, target, clock, exchange, f);
      AnalyzeSpec(config, first.1, domain, target2, clock2, exchange2, f2) == first
  {
  }

  /** Analysing a name against itself scores 1 when the result is fresh. */
  lemma SelfSimilarity(config: Config, items: CacheMap, domain: seq<byte>, clock: Clock, exchange: Exchange, f: FanIn)
    requires ValidFanIn(f) && f.cancelAt >= 4
    requires IsValidDomain(domain)
    requires !config.cacheEnabled || Lookup(items, domain, clock.lookup).None?
    ensures AnalyzeSpec(config, items, domain, domain, clock, exchange, f).0 == Ok(Composed(config, domain, domain, clock, exchange, f))
    ensures AnalyzeSpec(config, items, domain, domain, clock, exchange, f).0.value.similarity == 1.0
  {
    ScoreOneIff(domain, domain);
  }

  /** The analyzer test's valid case: a new analyzer, with its empty cache,
      analyses "google.com" against itself successfully and scores 1, unless
      the context is cancelled. */
  lemma GoogleComAnalysis(config: Config, clock: Clock, exchange: Exchange, f: FanIn)
    requires ValidFanIn(f) && f.cancelAt >= 4
    ensures var d := FromLiteral("google.com");
      var r := AnalyzeSpec(config, map[], d, d, clock, exchange, f).0;
      r.Ok? && r.value.similarity == 1.0
  {
    var d := FromLiteral("google.com");
    GoogleComExample();
    SelfSimilarity(config, map[], d, clock, exchange, f);
  }
}
