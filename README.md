# hickory-dns: IP lookup, DNS-over-QUIC framing, resolv.conf conversion

A Dafny model of three sequential pieces of the hickory-dns resolver and protocol
crates, with their properties proved.

- `lookup_ip.dfy` (module `LookupIp`): how the resolver turns a host name into
  IP addresses. Five strategies issue A and/or AAAA queries and combine the
  outcomes. A static hosts table short-cuts the caching client. The future that
  drives a lookup tries candidate names from the back of its list, moves on after
  an error or an empty answer, and falls back to one literal address when the
  names run out. Its iterators yield only the A and AAAA data of an answer. The
  caching client, the hosts table, the order in which the concurrent A and AAAA
  queries of `Ipv4AndIpv6` complete, and the cache's maximum TTL are inputs
  (`Services`). `LookupIpFuture` is a class whose `Poll` method runs the retry
  loop and is proved against the function `PollSpec`.
- `quic_stream.dfy` (module `DnsOverQuic`): one DNS-over-QUIC stream. It covers
  the mapping between `DoqErrorCode` and QUIC variable-length integers (section
  4.3 of RFC 9250) and the 2-octet big-endian length framing (section 4.2 of
  RFC 9250, borrowed from section 4.2.2 of RFC 1035). A query is sent with
  Message ID 0, and a received message with any other ID is refused (section
  4.2.1 of RFC 9250). The QUIC stream is held in memory: the bytes written and
  the state of the send side, and the bytes received with a read cursor. The DNS
  message codec is an input (`Codec`).
- `system_conf.dfy` (module `SystemConf`): the conversion of a parsed
  resolv.conf into a `ResolverConfig` and `ResolverOpts`. The resolv.conf text
  parser and the two name parsers are inputs. The search list is built by a
  loop in `IntoResolverConfig`, proved against the function `Convert`.
- `results.dfy` and `dns_types.dfy`: Rust's `Option`/`Result`, machine
  integers, IP addresses and names.

Two details of the code that are easy to miss:
- `receive_bytes` resets the send side with the protocol error code only when
  the stream ends inside the payload. When it ends inside the 2-octet length,
  the error is returned without a reset.
- `Unknown(c)` for a code `c` that has its own variant does not survive the
  round trip variant → code → variant. It comes back as the named variant
  (`VariantRoundTrip`).

## Model

| member | source | states |
|---|---|---|
| `LookupIp.IpOf` | crates/resolver/src/lookup_ip.rs:85-89 | no contract; the data an address iterator keeps from one record; see `IpsMembership`, `IpsOfNonAddressRecords` |
| `LookupIp.HostsLookup` | crates/resolver/src/lookup_ip.rs:250-266 | no contract; `hosts_lookup`; see `HostsShortCut`, `HostsMiss` |
| `LookupIp.Ipv4OnlyLookup` | crates/resolver/src/lookup_ip.rs:269-279 | no contract; `ipv4_only`; see `Ipv4OnlyAsksOnlyA` |
| `LookupIp.Ipv6OnlyLookup` | crates/resolver/src/lookup_ip.rs:282-292 | no contract; `ipv6_only`; see `Ipv6OnlyAsksOnlyAaaa` |
| `LookupIp.CombineBoth` | crates/resolver/src/lookup_ip.rs:324-344 | no contract; the merge of the two outcomes in `ipv4_and_ipv6`; see `CombineBothOk`, `CombineBothOneOk`, `CombineBothFails` |
| `LookupIp.Ipv4AndIpv6Lookup` | crates/resolver/src/lookup_ip.rs:296-345 | no contract; `ipv4_and_ipv6`, ordered by the race; see `Ipv4AndIpv6AddressesIndependentOfRace`, `BothFamiliesAnswer` |
| `LookupIp.RtThenSwap` | crates/resolver/src/lookup_ip.rs:390-435 | no contract; `rt_then_swap`; see `RtThenSwapFirstAnswers`, `RtThenSwapSecondAnswers` |
| `LookupIp.Ipv6ThenIpv4Lookup` | crates/resolver/src/lookup_ip.rs:348-366 | no contract; `ipv6_then_ipv4`; see `ThenStrategies`, `Ipv6ThenIpv4AfterError` |
| `LookupIp.Ipv4ThenIpv6Lookup` | crates/resolver/src/lookup_ip.rs:369-387 | no contract; `ipv4_then_ipv6`; see `ThenStrategies` |
| `LookupIp.StrategicLookup` | crates/resolver/src/lookup_ip.rs:230-247 | no contract; `strategic_lookup`; see `StrategicLookupAsksOnlyName` |
| `LookupIp.ShouldRetry` | crates/resolver/src/lookup_ip.rs:147-156 | no contract; an error or an empty lookup is retried; see `PollNoRetry`, `PollRetriesIff` |
| `LookupIp.FallbackLookup` | crates/resolver/src/lookup_ip.rs:173-178 | no contract; the one-record lookup of the fallback address under the maximum TTL; see `PollExhausted` |
| `LookupIp.Ips` | crates/resolver/src/lookup_ip.rs:83-116 | an IP iterator yields at most one address per record |
| `LookupIp.IpsAppend` | crates/resolver/src/lookup_ip.rs:83-116 | the addresses of two record lists in turn are the addresses of each, in order |
| `LookupIp.IpsMembership` | crates/resolver/src/lookup_ip.rs:83-116 | an address is yielded iff some record is an A or AAAA record carrying it |
| `LookupIp.IpsOfNonAddressRecords` | crates/resolver/src/lookup_ip.rs:83-116 | records of any other type yield nothing |
| `LookupIp.LookupIpIter.constructor` | crates/resolver/src/lookup_ip.rs:43-45 | a fresh iterator has every address of the lookup still to yield |
| `LookupIp.LookupIpIter.Next` | crates/resolver/src/lookup_ip.rs:83-90 | `next` returns the first remaining address and removes it, or `None` when none is left, skipping other records |
| `LookupIp.HostsShortCut` | crates/resolver/src/lookup_ip.rs:259-262 | a static hosts entry is returned and the client's answer has no effect |
| `LookupIp.HostsMiss` | crates/resolver/src/lookup_ip.rs:259-266 | without a static entry the client's answer is returned unchanged |
| `LookupIp.Ipv4OnlyAsksOnlyA` | crates/resolver/src/lookup_ip.rs:269-279 | `Ipv4Only` depends on the A answer alone |
| `LookupIp.Ipv6OnlyAsksOnlyAaaa` | crates/resolver/src/lookup_ip.rs:282-292 | `Ipv6Only` depends on the AAAA answer alone |
| `LookupIp.CombineBothOk` | crates/resolver/src/lookup_ip.rs:324-329 | both succeed: the first-completed records then the second's, and so their addresses |
| `LookupIp.CombineBothOneOk` | crates/resolver/src/lookup_ip.rs:330-336 | exactly one succeeds: that lookup unchanged |
| `LookupIp.CombineBothFails` | crates/resolver/src/lookup_ip.rs:337-343 | the merge fails iff both fail, with the first-completed error |
| `LookupIp.Ipv4AndIpv6AddressesIndependentOfRace` | crates/resolver/src/lookup_ip.rs:305-344 | whichever query completes first, the addresses are those of the successful answers, with multiplicity |
| `LookupIp.RtThenSwapFirstAnswers` | crates/resolver/src/lookup_ip.rs:401-424 | a non-empty first-type answer is returned and the second query cannot change the result |
| `LookupIp.RtThenSwapSecondAnswers` | crates/resolver/src/lookup_ip.rs:410-434 | after an error or an empty first answer the result is exactly the second-type answer |
| `LookupIp.ThenStrategies` | crates/resolver/src/lookup_ip.rs:348-387 | `Ipv6thenIpv4` prefers a non-empty AAAA answer over A; `Ipv4thenIpv6` the reverse |
| `LookupIp.StrategicLookupAsksOnlyName` | crates/resolver/src/lookup_ip.rs:240-246 | every strategy asks only the A and AAAA questions for the given name |
| `LookupIp.PollSpec` | crates/resolver/src/lookup_ip.rs:141-191 | a poll only pops names from the back; the fallback is taken only once the names are gone; a retry-worthy outcome is returned only when names and fallback are exhausted |
| `LookupIp.PollNoRetry` | crates/resolver/src/lookup_ip.rs:147-156 | a non-empty answer is returned at once and nothing is consumed |
| `LookupIp.PollAnswersWithLastAnsweringName` | crates/resolver/src/lookup_ip.rs:158-172 | names are tried from the back; the first non-empty answer is returned and the names before it are left |
| `LookupIp.PollExhausted` | crates/resolver/src/lookup_ip.rs:173-189 | when every name fails: the fallback's one-record lookup if there is one, else the last outcome seen |
| `LookupIp.PollRetriesIff` | crates/resolver/src/lookup_ip.rs:147-180 | the state changes iff the outcome is an error or empty and a name or the fallback is left |
| `LookupIp.NoNamesFails` | crates/resolver/src/lookup_ip.rs:213-225 | no names and no fallback: "can not lookup IPs for no names" |
| `LookupIp.LookupIpFuture.Lookup` | crates/resolver/src/lookup_ip.rs:205-226 | the loop starts from the "no names" error with all names and the fallback present, not yet complete |
| `LookupIp.LookupIpFuture.Poll` | crates/resolver/src/lookup_ip.rs:141-191 | the loop returns what `PollSpec` gives and leaves its state; the future is then complete and may not be polled again |
| `LookupIp.BothFamiliesAnswer` | crates/resolver/src/lookup_ip.rs:547-567 | test scenario: A and AAAA both answer, giving 127.0.0.1 then ::1 |
| `LookupIp.Ipv6ThenIpv4AfterError` | crates/resolver/src/lookup_ip.rs:663-676 | test scenario: AAAA fails, so the A answer is returned |
| `DnsOverQuic.ErrorCodeToVarInt` | crates/proto/src/quic/quic_stream.rs:84-98 | every error code fits in 32 bits; a named variant gives a named code |
| `DnsOverQuic.ErrorCodeFromVarInt` | crates/proto/src/quic/quic_stream.rs:100-117 | a code above `u32::MAX` is `ProtocolError`; an unnamed 32-bit code is `Unknown` of itself |
| `DnsOverQuic.ErrorCodeValues` | crates/proto/src/quic/quic_stream.rs:77-98 | the six codes 0x0 to 0x4 and 0xd098ea5e, and `Unknown(c)` as `c` |
| `DnsOverQuic.CodeRoundTrip` | crates/proto/src/quic/quic_stream.rs:84-117 | code → variant → code is the identity on 32-bit codes |
| `DnsOverQuic.VariantRoundTrip` | crates/proto/src/quic/quic_stream.rs:84-117 | variant → code → variant is the identity iff the variant is not `Unknown` of a named code |
| `DnsOverQuic.UnspecifiedErrorIsUnknown` | crates/proto/src/quic/quic_stream.rs:108-116 | 0x5 decodes to `Unknown(5)` |
| `DnsOverQuic.LengthPrefix` | crates/proto/src/quic/quic_stream.rs:156-158 | the two length octets read back big-endian give the length |
| `DnsOverQuic.LengthPrefixOfBigEndian` | crates/proto/src/quic/quic_stream.rs:192-194 | two octets read as a length and written again are the same octets |
| `DnsOverQuic.Frame` | crates/proto/src/quic/quic_stream.rs:156-162 | a frame is the payload's length as 2 big-endian octets, then the payload |
| `DnsOverQuic.Unframe` | crates/proto/src/quic/quic_stream.rs:190-213 | a read fails in the length iff fewer than 2 octets remain; a cut-off payload reports the announced length and the octets read; a whole frame consumes its length plus 2 |
| `DnsOverQuic.UnframeFrame` | crates/proto/src/quic/quic_stream.rs:148-213 | reading a frame gives back its payload, whatever follows |
| `DnsOverQuic.FrameUnframe` | crates/proto/src/quic/quic_stream.rs:190-213 | what a successful read consumed is the frame of the payload it returned |
| `DnsOverQuic.FramedWrite` | crates/proto/src/quic/quic_stream.rs:156-163 | more than 65535 octets is `MaxBufferSizeExceeded(len)`; otherwise an open stream gets the frame and any other gets `ClosedStream` |
| `DnsOverQuic.SentMessagePassesIdCheck` | crates/proto/src/quic/quic_stream.rs:135-186 | a sent message read back by the peer is its encoding and has ID 0 |
| `DnsOverQuic.AfterReset` | crates/proto/src/quic/quic_stream.rs:217-221 | no contract; quinn's reset: an already reset side keeps its code; see `QuicStream.Reset` |
| `DnsOverQuic.QuicStream.constructor` | crates/proto/src/quic/quic_stream.rs:127-132 | a new stream has written nothing, is open and has read nothing |
| `DnsOverQuic.QuicStream.SendBytes` | crates/proto/src/quic/quic_stream.rs:148-164 | appends the length and the payload, or writes nothing and reports why |
| `DnsOverQuic.QuicStream.Send` | crates/proto/src/quic/quic_stream.rs:135-145 | sends the encoding of the message with its ID set to 0 |
| `DnsOverQuic.QuicStream.Finish` | crates/proto/src/quic/quic_stream.rs:167-170 | an open send side becomes finished; otherwise an error |
| `DnsOverQuic.QuicStream.Reset` | crates/proto/src/quic/quic_stream.rs:217-221 | resets the send side with the code's value; a second reset is `QuinnUnknownStreamError` |
| `DnsOverQuic.QuicStream.ReadExact` | crates/proto/src/quic/quic_stream.rs:192-194 | reads exactly n octets, or fails having consumed the rest |
| `DnsOverQuic.QuicStream.ReceiveBytes` | crates/proto/src/quic/quic_stream.rs:190-214 | returns the next frame's payload; a stream ending inside the payload resets with `ProtocolError` |
| `DnsOverQuic.QuicStream.Receive` | crates/proto/src/quic/quic_stream.rs:173-186 | decodes the frame; a nonzero ID is `QuicMessageIdNot0(id)` after a `ProtocolError` reset; a cut-off frame is an error after the rest of the stream is consumed |
| `SystemConf.SystemDomain` | crates/resolver/src/system_conf/unix.rs:48-56 | the domain is present iff there is one and it parses |
| `SystemConf.Kept` | crates/resolver/src/system_conf/unix.rs:69-75 | the kept search entries contain no `--` |
| `SystemConf.KeptAppend` | crates/resolver/src/system_conf/unix.rs:69-80 | skipping is entry by entry, so relative order is kept |
| `SystemConf.KeptMembership` | crates/resolver/src/system_conf/unix.rs:69-75 | an entry is kept iff it is listed and is not `--` |
| `SystemConf.KeptWithoutSkips` | crates/resolver/src/system_conf/unix.rs:69-80 | a list without `--` is kept whole |
| `SystemConf.SearchListOk` | crates/resolver/src/system_conf/unix.rs:68-80 | the search list succeeds iff every kept entry parses, and holds their names in order |
| `SystemConf.SearchListFirstError` | crates/resolver/src/system_conf/unix.rs:76-79 | a failure reports the first kept entry that does not parse, with the parse-error prefix |
| `SystemConf.SearchListFailsAfter` | crates/resolver/src/system_conf/unix.rs:70-79 | once a prefix of the entries fails, later entries do not change the error |
| `SystemConf.SkipsInvalidSearch` | crates/resolver/src/system_conf/unix.rs:135-152 | test scenario: `search -- lan` searches only `lan` |
| `SystemConf.SearchList` | crates/resolver/src/system_conf/unix.rs:68-80 | no contract; the search loop as a value; see `SearchListOk`, `SearchListFirstError`, `SearchListFailsAfter`, `SkipsInvalidSearch` |
| `SystemConf.Options` | crates/resolver/src/system_conf/unix.rs:84-90 | no contract; the four copied options over the defaults; see `ConvertContents` |
| `SystemConf.Convert` | crates/resolver/src/system_conf/unix.rs:45-92 | no contract; `into_resolver_config` as a value; see `NoNameserversFirst`, `ConvertOkIff`, `ConvertContents`, `DomainNeverFails`, `IntoResolverConfig` |
| `SystemConf.NoNameserversFirst` | crates/resolver/src/system_conf/unix.rs:58-66 | no nameservers is "no nameservers found in config", whatever the search entries |
| `SystemConf.ConvertOkIff` | crates/resolver/src/system_conf/unix.rs:58-80 | the conversion succeeds iff there is a nameserver and every kept search entry parses |
| `SystemConf.ConvertContents` | crates/resolver/src/system_conf/unix.rs:45-92 | one UDP+TCP server per nameserver in order; the parsed domain; the search entries other than `--`, parsed, in order; ndots, timeout, attempts, edns0 copied; other options default |
| `SystemConf.DomainNeverFails` | crates/resolver/src/system_conf/unix.rs:48-56 | the system domain never decides success or failure |
| `SystemConf.IntoResolverConfig` | crates/resolver/src/system_conf/unix.rs:45-93 | the loop computes what `Convert` gives |
| `SystemConf.ParseResolvConf` | crates/resolver/src/system_conf/unix.rs:36-42 | a parse failure is reported with the parse-error prefix; otherwise the conversion's result |

## Left out

- Suspension: every lookup completes at once, so `Poll::Pending` is not modelled.
- Concurrency in `ipv4_and_ipv6`: the `future::select` race is an input (`Services.race`) naming which query completed first.
- `DnsRequestOptions` is passed unchanged to every `client.lookup(query, options)`; it is folded into the fixed client function `Services.client`.
- The caching client is a fixed function of the query. Changes to its cache between two queries are not modelled.
- `Lookup` and `Lookup::append` are defined in lookup.rs, which is not part of this model. A lookup is modelled as its query and records, and `append` as concatenation of the records under the first query.
- Time: `valid_until`, `Instant` and the deadline kept by `append` are not modelled. `MAX_TTL` is an input (`Services.maxTtl`) because its value is defined in dns_lru.rs, which is not part of this model.
- `Query::new()` is modelled as the root name with type A, and the record class as always IN.
- The accessors `query`, `valid_until` and `as_lookup`, and the `From` conversions between `Lookup` and `LookupIp`, carry no logic and are not modelled.
- Conversion of A/AAAA data to `Ipv4Addr`/`Ipv6Addr`: an address is held as one integer.
- LookupIp.LookupIpIter.Next: `LookupIpIter` and `LookupIpIntoIter` differ only in borrowing, so one class models both.
- quinn's streams are modelled in memory. Writes and `finish` fail only on a send side already finished or reset, and `reset` fails only on a send side already reset. The only read error modelled is the stream ending early (`FinishedEarly`). Other `read_exact` errors, such as a peer's RESET_STREAM or connection loss, take the same path through `receive_bytes` and are not modelled. Peer-initiated stop and flow control are not modelled either.
- `QuicStream::stop` and the `DOQ_ALPN` constant: they only pass through to quinn and the handshake.
- The DNS message codec (`Message::to_vec`, `Message::from_vec`, `DnsResponse::from_buffer`) is an input. A message is its ID and an uninterpreted rest.
- Logging through `debug!` is not modelled.
- `read_system_conf` and `read_resolv_conf`: file reading.
- The resolv.conf parser, the getters `get_system_domain` and `get_last_search_or_domain`, and the name parsers are inputs. Their defaults (ndots 1, timeout 5, attempts 2) belong to the parser.
- `NameServerConfig` and `ResolverOpts` are defined in config.rs, which is not part of this model. A server is modelled as its address and its protocols (UDP, then TCP), and the options that the conversion does not set as an uninterpreted default (`rest`).
- The casts of `ndots` and `attempts` from `u32` to `usize` are taken as lossless.
- crates/proto/src/quic/quic_client_stream.rs, crates/proto/src/tests/udp.rs and crates/resolver/examples/multithreaded_runtime.rs are connection setup, a socket test harness and a runtime demo, and are not modelled.
