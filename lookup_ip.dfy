/**
 * The A/AAAA lookup of the resolver: the five address-family strategies, the
 * static-hosts short cut, the retry loop over candidate names with its
 * fallback address, and the iterators that yield only IP addresses.
 *
 * The caching client, the hosts table and the order in which two concurrent
 * queries complete are oracles, collected in `Services`.
 */
module LookupIp {
  import opened Results
  import opened DnsTypes

  datatype RecordType = A | AAAA

  /** A question: a name and the type asked for (the class is always IN). */
  datatype Query = Query(name: Name, queryType: RecordType)

  /** `Query::new()`: the root name and type A. */
  const DEFAULT_QUERY: Query := Query(ROOT, RecordType.A)

  /** Record data: the two address kinds, and every other kind by its type code. */
  datatype RData = A(ipv4: U32) | AAAA(ipv6: U128) | Other(typeCode: U16)

  datatype Record = Record(name: Name, ttl: U32, data: RData)

  /** The answer to a query: the query and its records, in answer order. */
  datatype Lookup = Lookup(query: Query, records: seq<Record>)

  datatype ResolveError = ResolveError(message: string)

  type LookupResult = Result<Lookup, ResolveError>

  /** The error the retry loop starts from, returned when there is no name to try. */
  const NO_NAMES: ResolveError := ResolveError("can not lookup IPs for no names")

  predicate IsEmpty(l: Lookup) {
    |l.records| == 0
  }

  /** `Lookup::append`: the records of `l` followed by those of `other`, under `l`'s query. */
  function Append(l: Lookup, other: Lookup): Lookup {
    Lookup(l.query, l.records + other.records)
  }

  // ---------------------------------------------------------------------------
  // The IP iterators
  // ---------------------------------------------------------------------------

  /** The address a record's data carries, if it is an A or AAAA record. */
  function IpOf(d: RData): Option<IpAddr> {
    match d
    case A(ip) => Some(V4(ip))
    case AAAA(ip) => Some(V6(ip))
    case Other(_) => None
  }

  /** Everything an IP iterator over `records` yields, in order. */
  function Ips(records: seq<Record>): (ips: seq<IpAddr>)
    ensures |ips| <= |records|
  {
    if records == [] then []
    else
      var head := match IpOf(records[0].data) case Some(ip) => [ip] case None => [];
      head + Ips(records[1..])
  }

  /** Iterating over two record lists in turn yields the addresses of each in turn. */
  lemma {:induction false} IpsAppend(a: seq<Record>, b: seq<Record>)
    ensures Ips(a + b) == Ips(a) + Ips(b)
  {
    if a == [] {
      assert a + b == b;
    } else {
      assert (a + b)[0] == a[0];
      assert (a + b)[1..] == a[1..] + b;
      IpsAppend(a[1..], b);
    }
  }

  /** An address is yielded exactly when some record is an A or AAAA record carrying it. */
  lemma {:induction false} IpsMembership(records: seq<Record>, ip: IpAddr)
    ensures ip in Ips(records) <==> exists i :: 0 <= i < |records| && IpOf(records[i].data) == Some(ip)
  {
    if records != [] {
      IpsMembership(records[1..], ip);
      if ip in Ips(records[1..]) {
        var i :| 0 <= i < |records[1..]| && IpOf(records[1..][i].data) == Some(ip);
        assert IpOf(records[i + 1].data) == Some(ip);
      }
      forall i | 1 <= i < |records| && IpOf(records[i].data) == Some(ip)
        ensures ip in Ips(records[1..])
      {
        assert IpOf(records[1..][i - 1].data) == Some(ip);
      }
    }
  }

  /** Only A and AAAA records contribute: a list without them yields nothing. */
  lemma {:induction false} IpsOfNonAddressRecords(records: seq<Record>)
    requires forall i :: 0 <= i < |records| ==> records[i].data.Other?
    ensures Ips(records) == []
  {
    if records != [] {
      IpsOfNonAddressRecords(records[1..]);
    }
  }

  /**
   * `LookupIpIter` and `LookupIpIntoIter`: both walk the records of a lookup and
   * skip every record that is not A or AAAA. They differ only in ownership, which
   * is not modelled, so one class stands for both.
   */
  class LookupIpIter {
    const records: seq<Record>
    var pos: nat

    ghost predicate Valid()
      reads this
    {
      pos <= |records|
    }

    /** The addresses still to be yielded. */
    ghost function Remaining(): seq<IpAddr>
      reads this
      requires Valid()
    {
      Ips(records[pos..])
    }

    /** `LookupIp::iter` / `LookupIp::into_iter`. */
    constructor (lookup: Lookup)
      ensures Valid() && records == lookup.records
      ensures Remaining() == Ips(lookup.records)
    {
      records := lookup.records;
      pos := 0;
      new;
      assert records[0..] == records;
    }

    /** `next`: the next A or AAAA address, skipping all other records (`find_map`). */
    method Next() returns (ip: Option<IpAddr>)
      requires Valid()
      modifies this
      ensures Valid()
      ensures old(Remaining()) == [] ==> ip == None && Remaining() == []
      ensures old(Remaining()) != [] ==> ip == Some(old(Remaining())[0]) && Remaining() == old(Remaining())[1..]
    {
      while pos < |records|
        invariant pos <= |records|
        invariant Ips(records[pos..]) == old(Remaining())
      {
        var d := records[pos].data;
        assert records[pos..][1..] == records[pos + 1..];
        pos := pos + 1;
        match IpOf(d) {
          case Some(a) => return Some(a);
          case None =>
        }
      }
      return None;
    }
  }

  // ---------------------------------------------------------------------------
  // Strategies
  // ---------------------------------------------------------------------------

  datatype LookupIpStrategy = Ipv4Only | Ipv6Only | Ipv4AndIpv6 | Ipv6thenIpv4 | Ipv4thenIpv6

  /** Which of the two concurrent queries of `Ipv4AndIpv6` completes first. */
  datatype Race = AFirst | AaaaFirst

  /**
   * What a lookup consults: the static hosts table if there is one, the caching
   * client, which query wins the A/AAAA race for a name, and the cache's maximum
   * TTL (a constant of the cache).
   */
  datatype Services = Services(
    hosts: Option<Query -> Option<Lookup>>,
    client: Query -> LookupResult,
    race: Name -> Race,
    maxTtl: U32)

  /** Whether the hosts table answers `q` itself. */
  predicate StaticHit(q: Query, s: Services) {
    s.hosts.Some? && s.hosts.value(q).Some?
  }

  /** `hosts_lookup`: the hosts table first, then the caching client. */
  function HostsLookup(q: Query, s: Services): LookupResult {
    if s.hosts.Some? then
      match s.hosts.value(q)
      case Some(lookup) => Ok(lookup)
      case None => s.client(q)
    else s.client(q)
  }

  /** A static entry short-cuts the client: whatever the client would answer, the hosts entry is returned. */
  lemma HostsShortCut(q: Query, s: Services, otherClient: Query -> LookupResult)
    requires StaticHit(q, s)
    ensures HostsLookup(q, s) == Ok(s.hosts.value(q).value)
    ensures HostsLookup(q, s.(client := otherClient)) == HostsLookup(q, s)
  {
  }

  /** Without a static entry the client's answer is returned unchanged. */
  lemma HostsMiss(q: Query, s: Services)
    requires !StaticHit(q, s)
    ensures HostsLookup(q, s) == s.client(q)
  {
  }

  /** `ipv4_only`: a single A query. */
  function Ipv4OnlyLookup(name: Name, s: Services): LookupResult {
    HostsLookup(Query(name, RecordType.A), s)
  }

  /** `ipv6_only`: a single AAAA query. */
  function Ipv6OnlyLookup(name: Name, s: Services): LookupResult {
    HostsLookup(Query(name, RecordType.AAAA), s)
  }

  /**
   * Two services that answer the A query for `name` alike give the same
   * `Ipv4Only` result: nothing but the A query is consulted.
   */
  lemma Ipv4OnlyAsksOnlyA(name: Name, s: Services, t: Services)
    requires HostsLookup(Query(name, RecordType.A), s) == HostsLookup(Query(name, RecordType.A), t)
    ensures Ipv4OnlyLookup(name, s) == Ipv4OnlyLookup(name, t)
  {
  }

  /** Likewise `Ipv6Only` consults nothing but the AAAA query. */
  lemma Ipv6OnlyAsksOnlyAaaa(name: Name, s: Services, t: Services)
    requires HostsLookup(Query(name, RecordType.AAAA), s) == HostsLookup(Query(name, RecordType.AAAA), t)
    ensures Ipv6OnlyLookup(name, s) == Ipv6OnlyLookup(name, t)
  {
  }

  /**
   * How `ipv4_and_ipv6` merges the outcome of the query that completed first with
   * that of the other: both lookups appended, else whichever succeeded, else the
   * first error.
   */
  function CombineBoth(first: LookupResult, second: LookupResult): LookupResult {
    match (first, second)
    case (Ok(a), Ok(b)) => Ok(Append(a, b))
    case (Ok(a), Err(_)) => Ok(a)
    case (Err(_), Ok(b)) => Ok(b)
    case (Err(e1), Err(_)) => Err(e1)
  }

  /** `ipv4_and_ipv6`: A and AAAA together, merged in completion order. */
  function Ipv4AndIpv6Lookup(name: Name, s: Services): LookupResult {
    var a := HostsLookup(Query(name, RecordType.A), s);
    var aaaa := HostsLookup(Query(name, RecordType.AAAA), s);
    match s.race(name)
    case AFirst => CombineBoth(a, aaaa)
    case AaaaFirst => CombineBoth(aaaa, a)
  }

  /** Both succeed: the first-completed lookup's records, then the other's, and so its addresses. */
  lemma CombineBothOk(first: Lookup, second: Lookup)
    ensures CombineBoth(Ok(first), Ok(second)).Ok?
    ensures CombineBoth(Ok(first), Ok(second)).value.records == first.records + second.records
    ensures Ips(CombineBoth(Ok(first), Ok(second)).value.records) == Ips(first.records) + Ips(second.records)
  {
    IpsAppend(first.records, second.records);
  }

  /** Exactly one succeeds: that lookup, untouched. */
  lemma CombineBothOneOk(first: LookupResult, second: LookupResult)
    requires first.Ok? != second.Ok?
    ensures CombineBoth(first, second) == if first.Ok? then first else second
  {
  }

  /** The merge fails exactly when both fail, and then with the first-completed error. */
  lemma CombineBothFails(first: LookupResult, second: LookupResult)
    ensures CombineBoth(first, second).Err? <==> first.Err? && second.Err?
    ensures first.Err? && second.Err? ==> CombineBoth(first, second) == first
  {
  }

  /**
   * Whoever wins the race, a successful `Ipv4AndIpv6` lookup yields the addresses
   * of both answers that succeeded, each exactly as often as they do.
   */
  lemma {:induction false} Ipv4AndIpv6AddressesIndependentOfRace(name: Name, s: Services)
    requires Ipv4AndIpv6Lookup(name, s).Ok?
    ensures var a := HostsLookup(Query(name, RecordType.A), s);
            var aaaa := HostsLookup(Query(name, RecordType.AAAA), s);
            multiset(Ips(Ipv4AndIpv6Lookup(name, s).value.records))
              == (if a.Ok? then multiset(Ips(a.value.records)) else multiset{})
               + (if aaaa.Ok? then multiset(Ips(aaaa.value.records)) else multiset{})
  {
    var a := HostsLookup(Query(name, RecordType.A), s);
    var aaaa := HostsLookup(Query(name, RecordType.AAAA), s);
    if a.Ok? && aaaa.Ok? {
      IpsAppend(a.value.records, aaaa.value.records);
      IpsAppend(aaaa.value.records, a.value.records);
    }
  }

  /**
   * `rt_then_swap`: the first type's answer if it is a non-empty lookup; otherwise
   * (an error or an empty lookup) the second type's answer, whatever it is.
   */
  function RtThenSwap(name: Name, firstType: RecordType, secondType: RecordType, s: Services): LookupResult {
    match HostsLookup(Query(name, firstType), s)
    case Ok(ips) =>
      if IsEmpty(ips) then HostsLookup(Query(name, secondType), s) else Ok(ips)
    case Err(_) => HostsLookup(Query(name, secondType), s)
  }

  /** A non-empty first answer is returned, and the second query does not matter. */
  lemma RtThenSwapFirstAnswers(name: Name, firstType: RecordType, secondType: RecordType, s: Services, t: Services)
    requires HostsLookup(Query(name, firstType), s).Ok?
    requires !IsEmpty(HostsLookup(Query(name, firstType), s).value)
    requires HostsLookup(Query(name, firstType), t) == HostsLookup(Query(name, firstType), s)
    ensures RtThenSwap(name, firstType, secondType, s) == HostsLookup(Query(name, firstType), s)
    ensures RtThenSwap(name, firstType, secondType, t) == RtThenSwap(name, firstType, secondType, s)
  {
  }

  /** Otherwise the result is exactly the second type's answer. */
  lemma RtThenSwapSecondAnswers(name: Name, firstType: RecordType, secondType: RecordType, s: Services)
    requires HostsLookup(Query(name, firstType), s).Err? || IsEmpty(HostsLookup(Query(name, firstType), s).value)
    ensures RtThenSwap(name, firstType, secondType, s) == HostsLookup(Query(name, secondType), s)
  {
  }

  /** `ipv6_then_ipv4`: AAAA first, then A. */
  function Ipv6ThenIpv4Lookup(name: Name, s: Services): LookupResult {
    RtThenSwap(name, RecordType.AAAA, RecordType.A, s)
  }

  /** `ipv4_then_ipv6`: A first, then AAAA. */
  function Ipv4ThenIpv6Lookup(name: Name, s: Services): LookupResult {
    RtThenSwap(name, RecordType.A, RecordType.AAAA, s)
  }

  /** Whether `r` is a non-empty answer. */
  predicate Answered(r: LookupResult) {
    r.Ok? && !IsEmpty(r.value)
  }

  /**
   * The two sequential strategies: `Ipv6thenIpv4` gives the AAAA answer when it is
   * non-empty and the A answer otherwise; `Ipv4thenIpv6` the other way round.
   */
  lemma ThenStrategies(name: Name, s: Services)
    ensures var a := HostsLookup(Query(name, RecordType.A), s);
            var aaaa := HostsLookup(Query(name, RecordType.AAAA), s);
            && Ipv6ThenIpv4Lookup(name, s) == (if Answered(aaaa) then aaaa else a)
            && Ipv4ThenIpv6Lookup(name, s) == (if Answered(a) then a else aaaa)
  {
  }

  /** `strategic_lookup`: the lookup a strategy performs for one name. */
  function StrategicLookup(name: Name, strategy: LookupIpStrategy, s: Services): LookupResult {
    match strategy
    case Ipv4Only => Ipv4OnlyLookup(name, s)
    case Ipv6Only => Ipv6OnlyLookup(name, s)
    case Ipv4AndIpv6 => Ipv4AndIpv6Lookup(name, s)
    case Ipv6thenIpv4 => Ipv6ThenIpv4Lookup(name, s)
    case Ipv4thenIpv6 => Ipv4ThenIpv6Lookup(name, s)
  }

  /**
   * Whatever the strategy, the lookup of a name asks only the A and AAAA questions
   * for that name: services that answer those alike (and race alike on the name)
   * give the same result.
   */
  lemma StrategicLookupAsksOnlyName(name: Name, strategy: LookupIpStrategy, s: Services, t: Services)
    requires HostsLookup(Query(name, RecordType.A), s) == HostsLookup(Query(name, RecordType.A), t)
    requires HostsLookup(Query(name, RecordType.AAAA), s) == HostsLookup(Query(name, RecordType.AAAA), t)
    requires s.race(name) == t.race(name)
    ensures StrategicLookup(name, strategy, s) == StrategicLookup(name, strategy, t)
  {
  }

  // ---------------------------------------------------------------------------
  // The retry loop of `LookupIpFuture::poll`
  // ---------------------------------------------------------------------------

  /** Whether the loop moves on from a query outcome: an error or an empty lookup. */
  predicate ShouldRetry(r: LookupResult) {
    r.Err? || IsEmpty(r.value)
  }

  /** The lookup returned for the fallback address: one record for it, under the empty name, with the maximum TTL. */
  function FallbackLookup(ip: RData, maxTtl: U32): Lookup {
    Lookup(DEFAULT_QUERY, [Record(EMPTY_NAME, maxTtl, ip)])
  }

  /** The fields of `LookupIpFuture` that `poll` changes. */
  datatype FutureState = FutureState(names: seq<Name>, query: LookupResult, finallyIpAddr: Option<RData>)

  /** What a call of `poll` returns and the state it leaves behind. */
  datatype Polled = Polled(result: LookupResult, state: FutureState)

  /**
   * One completed `poll`: while the current outcome calls for a retry, pop the
   * last name and look it up; when the names run out, take the fallback address
   * if there is one; otherwise return the current outcome.
   */
  function PollSpec(s: Services, strategy: LookupIpStrategy, st: FutureState): (p: Polled)
    ensures |p.state.names| <= |st.names| && p.state.names == st.names[..|p.state.names|]
    ensures p.state.finallyIpAddr == st.finallyIpAddr
            || (st.finallyIpAddr.Some? && p.state.finallyIpAddr.None? && p.state.names == []
                && ShouldRetry(p.state.query) && p.result == Ok(FallbackLookup(st.finallyIpAddr.value, s.maxTtl)))
    ensures p.state.finallyIpAddr == st.finallyIpAddr ==> p.result == p.state.query
    ensures ShouldRetry(p.result) ==> p.state.names == [] && p.state.finallyIpAddr.None?
    decreases |st.names|
  {
    if ShouldRetry(st.query) then
      if |st.names| > 0 then
        var name := st.names[|st.names| - 1];
        PollSpec(s, strategy, FutureState(st.names[..|st.names| - 1], StrategicLookup(name, strategy, s), st.finallyIpAddr))
      else if st.finallyIpAddr.Some? then
        Polled(Ok(FallbackLookup(st.finallyIpAddr.value, s.maxTtl)), st.(finallyIpAddr := None))
      else
        Polled(st.query, st)
    else
      Polled(st.query, st)
  }

  /** An outcome that needs no retry is returned at once, and nothing is consumed. */
  lemma PollNoRetry(s: Services, strategy: LookupIpStrategy, st: FutureState)
    requires !ShouldRetry(st.query)
    ensures PollSpec(s, strategy, st) == Polled(st.query, st)
  {
  }

  /**
   * Names are tried from the back. The first name (from the back) whose lookup is a
   * non-empty answer gives the result; the names before it stay unconsumed and the
   * fallback address is kept.
   */
  lemma {:induction false} PollAnswersWithLastAnsweringName(s: Services, strategy: LookupIpStrategy, st: FutureState, i: nat)
    requires ShouldRetry(st.query)
    requires i < |st.names|
    requires !ShouldRetry(StrategicLookup(st.names[i], strategy, s))
    requires forall j :: i < j < |st.names| ==> ShouldRetry(StrategicLookup(st.names[j], strategy, s))
    ensures PollSpec(s, strategy, st).result == StrategicLookup(st.names[i], strategy, s)
    ensures PollSpec(s, strategy, st).state
            == FutureState(st.names[..i], StrategicLookup(st.names[i], strategy, s), st.finallyIpAddr)
    decreases |st.names|
  {
    var n := |st.names|;
    var next := FutureState(st.names[..n - 1], StrategicLookup(st.names[n - 1], strategy, s), st.finallyIpAddr);
    if i == n - 1 {
      assert PollSpec(s, strategy, next) == Polled(next.query, next);
    } else {
      assert st.names[..n - 1][i] == st.names[i];
      assert st.names[..n - 1][..i] == st.names[..i];
      forall j | i < j < n - 1
        ensures ShouldRetry(StrategicLookup(next.names[j], strategy, s))
      {
        assert next.names[j] == st.names[j];
      }
      PollAnswersWithLastAnsweringName(s, strategy, next, i);
    }
  }

  /**
   * When every name fails, all of them are consumed. With a fallback address the
   * result is its one-record lookup and the fallback is taken; without one it is
   * the last outcome seen: the lookup of the front name, or the starting outcome
   * if there were no names.
   */
  lemma {:induction false} PollExhausted(s: Services, strategy: LookupIpStrategy, st: FutureState)
    requires ShouldRetry(st.query)
    requires forall j :: 0 <= j < |st.names| ==> ShouldRetry(StrategicLookup(st.names[j], strategy, s))
    ensures PollSpec(s, strategy, st).state.names == []
    ensures PollSpec(s, strategy, st).state.finallyIpAddr.None?
    ensures st.finallyIpAddr.Some? ==>
              PollSpec(s, strategy, st).result == Ok(FallbackLookup(st.finallyIpAddr.value, s.maxTtl))
    ensures st.finallyIpAddr.None? ==>
              PollSpec(s, strategy, st).result
              == (if |st.names| > 0 then StrategicLookup(st.names[0], strategy, s) else st.query)
    decreases |st.names|
  {
    var n := |st.names|;
    if n > 0 {
      var next := FutureState(st.names[..n - 1], StrategicLookup(st.names[n - 1], strategy, s), st.finallyIpAddr);
      forall j | 0 <= j < n - 1
        ensures ShouldRetry(StrategicLookup(next.names[j], strategy, s))
      {
        assert next.names[j] == st.names[j];
      }
      PollExhausted(s, strategy, next);
      if n > 1 {
        assert next.names[0] == st.names[0];
      }
    }
  }

  /** A poll changes the state exactly when the outcome calls for a retry and a name or the fallback is left. */
  lemma PollRetriesIff(s: Services, strategy: LookupIpStrategy, st: FutureState)
    ensures PollSpec(s, strategy, st).state == st
            <==> !(ShouldRetry(st.query) && (|st.names| > 0 || st.finallyIpAddr.Some?))
  {
    if ShouldRetry(st.query) && |st.names| > 0 {
      var next := FutureState(st.names[..|st.names| - 1], StrategicLookup(st.names[|st.names| - 1], strategy, s), st.finallyIpAddr);
      assert |PollSpec(s, strategy, next).state.names| < |st.names|;
    }
  }

  /** With no names and no fallback address the lookup fails with the "no names" error. */
  lemma NoNamesFails(s: Services, strategy: LookupIpStrategy)
    ensures PollSpec(s, strategy, FutureState([], Err(NO_NAMES), None)).result == Err(NO_NAMES)
  {
  }

  /** `LookupIpFuture`: the candidate names, the current query outcome and the fallback address. */
  class LookupIpFuture {
    const services: Services
    const strategy: LookupIpStrategy
    var names: seq<Name>
    var query: LookupResult
    var finallyIpAddr: Option<RData>
    /** Whether `poll` has returned `Ready`; a completed future must not be polled again. */
    var done: bool

    ghost function State(): FutureState
      reads this
    {
      FutureState(names, query, finallyIpAddr)
    }

    /** `LookupIpFuture::lookup`: the loop starts from the "no names" error, so that the first poll tries the last name. */
    constructor Lookup(names: seq<Name>, strategy: LookupIpStrategy, services: Services, finallyIpAddr: Option<RData>)
      ensures State() == FutureState(names, Err(NO_NAMES), finallyIpAddr)
      ensures this.strategy == strategy && this.services == services
      ensures !done
    {
      this.names := names;
      this.strategy := strategy;
      this.services := services;
      this.query := Err(NO_NAMES);
      this.finallyIpAddr := finallyIpAddr;
      this.done := false;
    }

    /**
     * `poll`, with every lookup completing at once, so that the future is always
     * `Ready` afterwards. Polling it again would re-poll a completed query, which
     * panics; hence the precondition.
     */
    method Poll() returns (r: LookupResult)
      requires !done
      modifies this
      ensures done
      ensures r == PollSpec(services, strategy, old(State())).result
      ensures State() == PollSpec(services, strategy, old(State())).state
    {
      while true
        invariant PollSpec(services, strategy, State()) == PollSpec(services, strategy, old(State()))
        decreases |names|
      {
        var shouldRetry := match query case Ok(lookup) => IsEmpty(lookup) case Err(_) => true;
        if shouldRetry {
          if |names| > 0 {
            var name := names[|names| - 1];
            names := names[..|names| - 1];
            query := StrategicLookup(name, strategy, services);
            continue;
          } else if finallyIpAddr.Some? {
            var ip := finallyIpAddr.value;
            finallyIpAddr := None;
            done := true;
            return Ok(FallbackLookup(ip, services.maxTtl));
          }
        }
        done := true;
        return query;
      }
    }
  }

  // ---------------------------------------------------------------------------
  // The scenarios of the strategy tests
  // ---------------------------------------------------------------------------

  const LOCALHOST_V4: U32 := 0x7F00_0001
  const LOCALHOST_V6: U128 := 1

  function V4Answer(): Lookup {
    Lookup(Query(ROOT, RecordType.A), [Record(ROOT, 86400, RData.A(LOCALHOST_V4))])
  }

  function V6Answer(): Lookup {
    Lookup(Query(ROOT, RecordType.AAAA), [Record(ROOT, 86400, RData.AAAA(LOCALHOST_V6))])
  }

  /** The mock client of the tests: the A query gets 127.0.0.1, the AAAA query ::1. */
  function AnsweringClient(q: Query): LookupResult {
    if q.queryType == RecordType.A then Ok(V4Answer()) else Ok(V6Answer())
  }

  /** A mock client whose AAAA query fails. */
  function AaaaFailingClient(q: Query): LookupResult {
    if q.queryType == RecordType.A then Ok(V4Answer()) else Err(ResolveError("forced test failure"))
  }

  function AFirstRace(n: Name): Race {
    AFirst
  }

  /** Both families answer and A completes first: 127.0.0.1, then ::1. */
  lemma BothFamiliesAnswer()
    ensures var s := Services(None, AnsweringClient, AFirstRace, 86400);
            Ipv4AndIpv6Lookup(ROOT, s).Ok?
            && Ips(Ipv4AndIpv6Lookup(ROOT, s).value.records) == [V4(LOCALHOST_V4), V6(LOCALHOST_V6)]
  {
    CombineBothOk(V4Answer(), V6Answer());
    assert Ips(V4Answer().records) == [V4(LOCALHOST_V4)];
    assert Ips(V6Answer().records) == [V6(LOCALHOST_V6)];
  }

  /** AAAA fails first, so `Ipv6thenIpv4` answers with the A lookup: 127.0.0.1. */
  lemma Ipv6ThenIpv4AfterError()
    ensures Ipv6ThenIpv4Lookup(ROOT, Services(None, AaaaFailingClient, AFirstRace, 86400)) == Ok(V4Answer())
  {
  }
}
