/**
 * Turning a parsed resolv.conf into the resolver's configuration and options.
 *
 * The text parser and the two name parsers are oracles; `ParsedConfig` holds
 * what the parsed file's getters return.
 */
module SystemConf {
  import opened Results
  import opened DnsTypes

  /** A parsed resolv.conf, as far as the conversion reads it. */
  datatype ParsedConfig = ParsedConfig(
    nameservers: seq<IpAddr>,
    lastSearchOrDomain: seq<string>,   // `get_last_search_or_domain()`
    systemDomain: Option<string>,      // `get_system_domain()`
    ndots: U32,
    timeout: U32,                      // seconds
    attempts: U32,
    edns0: bool)

  /** `Name::from_str` and `Name::from_str_relaxed`; an error carries its message. */
  datatype NameParsers = NameParsers(
    fromStr: string -> Result<Name, string>,
    fromStrRelaxed: string -> Result<Name, string>)

  datatype Protocol = Udp | Tcp

  datatype NameServerConfig = NameServerConfig(ip: IpAddr, protocols: seq<Protocol>)

  /** `NameServerConfig::udp_and_tcp`: one server reached over UDP and over TCP. */
  function UdpAndTcp(ip: IpAddr): NameServerConfig {
    NameServerConfig(ip, [Udp, Tcp])
  }

  datatype ResolverConfig = ResolverConfig(domain: Option<Name>, search: seq<Name>, nameServers: seq<NameServerConfig>)

  /** The options the conversion sets, and all the others (`rest`), which it leaves at their defaults. */
  datatype ResolverOpts<Rest> = ResolverOpts(ndots: nat, timeoutSecs: nat, attempts: nat, edns0: bool, rest: Rest)

  /** The error the conversion reports: an I/O error with a message. */
  datatype ProtoError = Io(message: string)

  const NO_NAMESERVERS: string := "no nameservers found in config"
  const PARSE_ERROR_PREFIX: string := "Error parsing resolv.conf: "

  /** The system domain, when there is one and it parses as a name. */
  function SystemDomain(parsed: ParsedConfig, parsers: NameParsers): (d: Option<Name>)
    ensures d.Some? <==> parsed.systemDomain.Some? && parsers.fromStr(parsed.systemDomain.value).Ok?
    ensures d.Some? ==> d.value == parsers.fromStr(parsed.systemDomain.value).value
  {
    match parsed.systemDomain
    case Some(domain) =>
      (match parsers.fromStr(domain) case Ok(name) => Some(name) case Err(_) => None)
    case None => None
  }

  /** The search entries that are kept: all but `--`, in their order. */
  function Kept(entries: seq<string>): (kept: seq<string>)
    ensures |kept| <= |entries|
    ensures "--" !in kept
  {
    if entries == [] then []
    else if entries[|entries| - 1] == "--" then Kept(entries[..|entries| - 1])
    else Kept(entries[..|entries| - 1]) + [entries[|entries| - 1]]
  }

  /** Keeping is done entry by entry, so it keeps the relative order of two lists in turn. */
  lemma {:induction false} KeptAppend(a: seq<string>, b: seq<string>)
    ensures Kept(a + b) == Kept(a) + Kept(b)
    decreases |b|
  {
    if b == [] {
      assert a + b == a;
    } else {
      assert (a + b)[..|a + b| - 1] == a + b[..|b| - 1];
      KeptAppend(a, b[..|b| - 1]);
    }
  }

  /** An entry is kept exactly when it is listed and is not `--`. */
  lemma {:induction false} KeptMembership(entries: seq<string>, e: string)
    ensures e in Kept(entries) <==> e in entries && e != "--"
  {
    if entries != [] {
      var n := |entries|;
      KeptMembership(entries[..n - 1], e);
      assert entries == entries[..n - 1] + [entries[n - 1]];
    }
  }

  /** A list without `--` is kept whole. */
  lemma {:induction false} KeptWithoutSkips(entries: seq<string>)
    requires "--" !in entries
    ensures Kept(entries) == entries
  {
    if entries != [] {
      var n := |entries|;
      assert entries[n - 1] in entries;
      assert entries == entries[..n - 1] + [entries[n - 1]];
      KeptWithoutSkips(entries[..n - 1]);
    }
  }

  /** Parse every kept entry as a relaxed name, stopping at the first that fails. */
  function SearchList(entries: seq<string>, parsers: NameParsers): Result<seq<Name>, ProtoError> {
    if entries == [] then Ok([])
    else
      var n := |entries|;
      match SearchList(entries[..n - 1], parsers)
      case Err(e) => Err(e)
      case Ok(names) =>
        if entries[n - 1] == "--" then Ok(names)
        else
          match parsers.fromStrRelaxed(entries[n - 1])
          case Ok(name) => Ok(names + [name])
          case Err(e) => Err(Io(PARSE_ERROR_PREFIX + e))
  }

  /**
   * The search list succeeds exactly when every kept entry parses, and then holds
   * their names in order, one per kept entry.
   */
  lemma {:induction false} SearchListOk(entries: seq<string>, parsers: NameParsers)
    ensures SearchList(entries, parsers).Ok?
            <==> forall i :: 0 <= i < |entries| && entries[i] != "--" ==> parsers.fromStrRelaxed(entries[i]).Ok?
    ensures SearchList(entries, parsers).Ok? ==>
              var names := SearchList(entries, parsers).value;
              |names| == |Kept(entries)|
              && forall k :: 0 <= k < |names| ==> Ok(names[k]) == parsers.fromStrRelaxed(Kept(entries)[k])
  {
    if entries != [] {
      var n := |entries|;
      var init := entries[..n - 1];
      SearchListOk(init, parsers);
      forall i | 0 <= i < n - 1
        ensures init[i] == entries[i]
      {
      }
    }
  }

  /**
   * A failing search list fails with the message of the first kept entry that
   * does not parse, under the resolv.conf parse-error prefix.
   */
  lemma {:induction false} SearchListFirstError(entries: seq<string>, parsers: NameParsers, i: nat)
    requires i < |entries| && entries[i] != "--" && parsers.fromStrRelaxed(entries[i]).Err?
    requires forall j :: 0 <= j < i && entries[j] != "--" ==> parsers.fromStrRelaxed(entries[j]).Ok?
    ensures SearchList(entries, parsers) == Err(Io(PARSE_ERROR_PREFIX + parsers.fromStrRelaxed(entries[i]).error))
    decreases |entries|
  {
    var n := |entries|;
    var init := entries[..n - 1];
    if i == n - 1 {
      SearchListOk(init, parsers);
    } else {
      SearchListFirstError(init, parsers, i);
    }
  }

  /** `resolv.conf` `search -- lan`: the `--` is skipped and only `lan` is searched. */
  lemma SkipsInvalidSearch(parsers: NameParsers, lan: Name)
    requires parsers.fromStrRelaxed("lan") == Ok(lan)
    ensures SearchList(["--", "lan"], parsers) == Ok([lan])
  {
    var entries := ["--", "lan"];
    assert entries[..1] == ["--"] && ["--"][..0] == [];
    assert SearchList(["--"], parsers) == Ok([]);
    assert entries[1] == "lan" && entries[1] != "--";
    assert SearchList(entries, parsers) == Ok([] + [lan]);
    assert [] + [lan] == [lan];
  }

  /** The options taken from the file; every other option keeps its default. */
  function Options<Rest>(parsed: ParsedConfig, defaults: ResolverOpts<Rest>): ResolverOpts<Rest> {
    defaults.(ndots := parsed.ndots, timeoutSecs := parsed.timeout, attempts := parsed.attempts, edns0 := parsed.edns0)
  }

  /** `into_resolver_config`, as a value: nameservers first, then the search list. */
  function Convert<Rest>(parsed: ParsedConfig, parsers: NameParsers, defaults: ResolverOpts<Rest>)
    : Result<(ResolverConfig, ResolverOpts<Rest>), ProtoError>
  {
    var nameServers := seq(|parsed.nameservers|, i requires 0 <= i < |parsed.nameservers| => UdpAndTcp(parsed.nameservers[i]));
    if |nameServers| == 0 then Err(Io(NO_NAMESERVERS))
    else
      match SearchList(parsed.lastSearchOrDomain, parsers)
      case Err(e) => Err(e)
      case Ok(search) =>
        Ok((ResolverConfig(SystemDomain(parsed, parsers), search, nameServers), Options(parsed, defaults)))
  }

  /** No nameservers is an error, and it wins over any search entry that does not parse. */
  lemma NoNameserversFirst<Rest>(parsed: ParsedConfig, parsers: NameParsers, defaults: ResolverOpts<Rest>)
    requires |parsed.nameservers| == 0
    ensures Convert(parsed, parsers, defaults) == Err(Io(NO_NAMESERVERS))
  {
  }

  /** The conversion succeeds exactly when there is a nameserver and every kept search entry parses. */
  lemma ConvertOkIff<Rest>(parsed: ParsedConfig, parsers: NameParsers, defaults: ResolverOpts<Rest>)
    ensures Convert(parsed, parsers, defaults).Ok?
            <==> |parsed.nameservers| > 0
                 && forall i :: 0 <= i < |parsed.lastSearchOrDomain| && parsed.lastSearchOrDomain[i] != "--"
                      ==> parsers.fromStrRelaxed(parsed.lastSearchOrDomain[i]).Ok?
  {
    SearchListOk(parsed.lastSearchOrDomain, parsers);
  }

  /**
   * A successful conversion: one UDP+TCP server per nameserver, in order; the
   * system domain if it parses; the search entries other than `--` parsed, in
   * order; and the four options copied.
   */
  lemma ConvertContents<Rest>(parsed: ParsedConfig, parsers: NameParsers, defaults: ResolverOpts<Rest>)
    requires Convert(parsed, parsers, defaults).Ok?
    ensures var (config, opts) := Convert(parsed, parsers, defaults).value;
            && |config.nameServers| == |parsed.nameservers|
            && (forall i :: 0 <= i < |parsed.nameservers| ==>
                  config.nameServers[i].ip == parsed.nameservers[i] && config.nameServers[i].protocols == [Udp, Tcp])
            && config.domain == SystemDomain(parsed, parsers)
            && |config.search| == |Kept(parsed.lastSearchOrDomain)|
            && (forall k :: 0 <= k < |config.search| ==>
                  Ok(config.search[k]) == parsers.fromStrRelaxed(Kept(parsed.lastSearchOrDomain)[k]))
            && opts.ndots == parsed.ndots && opts.timeoutSecs == parsed.timeout
            && opts.attempts == parsed.attempts && opts.edns0 == parsed.edns0
            && opts.rest == defaults.rest
  {
    SearchListOk(parsed.lastSearchOrDomain, parsers);
  }

  /** The system domain never makes the conversion fail: with any domain at all it succeeds or fails alike. */
  lemma DomainNeverFails<Rest>(parsed: ParsedConfig, parsers: NameParsers, defaults: ResolverOpts<Rest>, domain: Option<string>)
    ensures Convert(parsed.(systemDomain := domain), parsers, defaults).Ok? == Convert(parsed, parsers, defaults).Ok?
  {
  }

  /** `into_resolver_config`: the search list is built entry by entry, skipping `--`. */
  method IntoResolverConfig<Rest>(parsed: ParsedConfig, parsers: NameParsers, defaults: ResolverOpts<Rest>)
    returns (r: Result<(ResolverConfig, ResolverOpts<Rest>), ProtoError>)
    ensures r == Convert(parsed, parsers, defaults)
  {
    var domain := SystemDomain(parsed, parsers);
    var nameServers := seq(|parsed.nameservers|, i requires 0 <= i < |parsed.nameservers| => UdpAndTcp(parsed.nameservers[i]));
    if |nameServers| == 0 {
      return Err(Io(NO_NAMESERVERS));
    }
    var entries := parsed.lastSearchOrDomain;
    var search: seq<Name> := [];
    for i := 0 to |entries|
      invariant SearchList(entries[..i], parsers) == Ok(search)
    {
      assert entries[..i + 1][..i] == entries[..i];
      if entries[i] == "--" {
        continue;
      }
      match parsers.fromStrRelaxed(entries[i]) {
        case Err(e) =>
          SearchListFailsAfter(entries, parsers, i + 1);
          return Err(Io(PARSE_ERROR_PREFIX + e));
        case Ok(name) =>
          search := search + [name];
      }
    }
    assert entries[..|entries|] == entries;
    return Ok((ResolverConfig(domain, search, nameServers), Options(parsed, defaults)));
  }

  /** Once a prefix of the entries fails, the whole list fails with the same error. */
  lemma {:induction false} SearchListFailsAfter(entries: seq<string>, parsers: NameParsers, k: nat)
    requires k <= |entries| && SearchList(entries[..k], parsers).Err?
    ensures SearchList(entries, parsers) == SearchList(entries[..k], parsers)
    decreases |entries| - k
  {
    if k < |entries| {
      assert entries[..k + 1][..k] == entries[..k];
      SearchListFailsAfter(entries, parsers, k + 1);
    } else {
      assert entries[..k] == entries;
    }
  }

  /** `parse_resolv_conf`: parse the text, then convert; a parse failure is reported with the parse-error prefix. */
  method ParseResolvConf<Rest>(
    data: seq<Byte>,
    parse: seq<Byte> -> Result<ParsedConfig, string>,
    parsers: NameParsers,
    defaults: ResolverOpts<Rest>)
    returns (r: Result<(ResolverConfig, ResolverOpts<Rest>), ProtoError>)
    ensures parse(data).Err? ==> r == Err(Io(PARSE_ERROR_PREFIX + parse(data).error))
    ensures parse(data).Ok? ==> r == Convert(parse(data).value, parsers, defaults)
  {
    var parsed := parse(data);
    if parsed.Err? {
      return Err(Io(PARSE_ERROR_PREFIX + parsed.error));
    }
    r := IntoResolverConfig(parsed.value, parsers, defaults);
  }
}
