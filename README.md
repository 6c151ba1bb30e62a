# TLS gossip transport: connections, framing, pools and TLS configuration

A Dafny model of the core of Alertmanager's TLS transport for cluster gossip: the
`tlsConn` connection object and its liveness flag, the length-prefixed envelope framing
used to send packets and stream signals over it, the two generations of the outbound
connection pool, and the validator that turns the `tlsConfig` section of the gossip
configuration file into a `tls.Config`.

Modules, one per source file or library boundary:

- `Base` (base.dfy): `uint8`, `Duration` (signed 64-bit nanoseconds), `Option`,
  `Result` (an error is the text of its `Error()`), and `Wrap`, the text of
  `errors.Wrap`.
- `Decimal` (decimal.dfy): `%d` formatting of an `int64`, its inverse, and the pool
  key `addr + "/" + decimal(timeout)` that both pools use.
- `Tls` (tls.dfy): the fields of `tls.Config` that the code sets.
- `Net` (net.dfy): the socket `NetConn`. It records every `Write` call's buffer in
  order, serves the bytes its peer sent through `ReadFull`, and remembers how it was
  dialled. It also holds the outcomes of dial, write and resolve, which come from
  the environment.
- `Wire` (wire.dfy): the frame `LE32(len(msg)) ++ msg` around a `MemberlistMessage`
  envelope, and `DecodeFrame`, the meaning of `read`. It also proves the round-trip,
  truncation and exact-length lemmas.
- `TlsConnection` (tls_connection.dfy): class `TlsConn` with `Write`, `Alive`,
  `WritePacket`, `WriteStream`, `Read` and `Close`, plus `DialTlsConn` and
  `RcvTlsConn`.
- `TlsConnectionPool` (tls_connection_pool.dfy): the pool over `TlsConn`.
- `LegacyConnectionPool` (connection_pool.dfy): the older pool over `ConnWrapper`.
- `GossipConfig` (gossip_config.dfy): `configToTLSConfig` and its `GetTLSConfig`
  front end.

Calls into code the model cannot see are parameters:

- `proto.Marshal` and `proto.Unmarshal` form the `Codec` pair. The round-trip lemmas
  assume `RoundTrips(codec)`: whatever marshals unmarshals back to itself.
- `tls.DialWithDialer` is a `DialOutcome`.
- `net.Conn.Write` and `net.Conn.Close` results are a `WriteOutcome` and an
  `Option<string>`.
- `net.ResolveTCPAddr` is a `Resolver`.
- `time.Now` is the `now` argument.
- `ioutil.ReadFile` and `tls.LoadX509KeyPair` are the arrows of
  `GossipConfig.Environment`.
- `yaml.Unmarshal` is the `parseYaml` argument.

The model follows the code, including behaviour a caller might not expect:

- A connection that is already dead still performs its write. Nothing makes writes
  on a dead connection fail without being attempted.
- Configuration validation is part of this model, although the transport only consumes the
  `tls.Config` it produces.
- The older pool dials every connection with `DefaultTcpTimeout`. It only records the
  requested timeout.
- The ClientCAs file is read before the ClientAuth string is checked. So a CA file
  that cannot be read hides an invalid ClientAuth.

## Model

| member | source | states |
|---|---|---|
| `Wire.Frame` | cluster/tls_connection.go:96-98 | The frame is 4 + len(msg) bytes. Its first 4 bytes decode little-endian to len(msg) mod 2^32, as `uint32(len(msg))` truncates. The rest is exactly msg. |
| `Wire.Uint32OfPut` | cluster/tls_connection.go:97 | `PutUint32` followed by `Uint32` gives back every 32-bit length. |
| `Wire.PutOfUint32` | cluster/tls_connection.go:129 | `Uint32` followed by `PutUint32` gives back every 4-byte header, so the two are inverse. |
| `Wire.OversizedEnvelopeHeaderWraps` | cluster/tls_connection.go:97 | For an envelope of 2^32 bytes or more, the header states the length mod 2^32, which is strictly smaller than the real length. |
| `Wire.ToPacket` | cluster/tls_connection.go:150-160 | The result is a packet exactly when the sender address resolves. The packet then holds the envelope's payload, the resolved address and the time `now`. |
| `Wire.Dispatch` | cluster/tls_connection.go:140-147 | STREAM, and only STREAM, gives "no packet, no error". PACKET gives exactly what `toPacket` gives, and a packet comes only from PACKET. Any other kind gives the error "could not read from either stream or packet channel". |
| `Wire.DecodeFrame` | cluster/tls_connection.go:123-147 | Input without a complete frame (4 length bytes and as many envelope bytes as they declare) is an error. A complete frame whose envelope does not parse gives the wrapped "error parsing message". Otherwise the result is the kind dispatch of the parsed envelope. |
| `Wire.EncodePacket` | cluster/tls_connection.go:87-97 | Succeeds exactly when the PACKET envelope marshals, giving 4 + len(msg) bytes whose header decodes to len(msg) mod 2^32 and whose rest is msg. Otherwise the marshalling error wrapped with "unable to marshal memeberlist packet message". |
| `Wire.EncodeStream` | cluster/tls_connection.go:104-112 | The same for the STREAM envelope, with the "unable to marshal memeberlist stream message" error. |
| `Wire.DecodedPacketIsWhole` | cluster/tls_connection.go:124-147 | A read that does not fail had a complete frame whose envelope parsed. A packet comes only from a PACKET envelope with a resolvable sender and carries that envelope's payload exactly, never a partial one. |
| `Wire.DecodeIgnoresTrailingBytes` | cluster/tls_connection.go:124-134 | The result depends only on the first 4 + msgLen bytes: whatever follows the frame does not change it. |
| `Wire.TruncatedFrameFails` | cluster/tls_connection.go:124-134 | Any strict prefix of a frame around an envelope shorter than 2^32 bytes, cut in the header or in the envelope, gives an error and never a packet or stream signal. |
| `Wire.PacketRoundTrip` | cluster/tls_connection.go:86-159 | Reading back the bytes `writePacket(addr, b)` writes gives `Buf == b`, `From == resolve(addr)` and `Timestamp == now`. An unresolvable addr is the "error parsing packet sender address" error even after a full read. |
| `Wire.StreamRoundTrip` | cluster/tls_connection.go:103-142 | Reading back the bytes `writeStream` writes gives "no packet, no error", whatever the stream carries next. |
| `TlsConnection.TlsConn.constructor` | cluster/tls_connection.go:52-56 | A new connection is live, with the given socket and timeout. |
| `TlsConnection.DialTlsConn` | cluster/tls_connection.go:45-57 | A dial error returns (nil, err). Otherwise the result is a fresh live connection, dialled to addr with `timeout` as the dialer timeout, and it records `timeout`. |
| `TlsConnection.RcvTlsConn` | cluster/tls_connection.go:59-64 | An accepted socket, possibly nil, is wrapped as a live connection with zero timeout. |
| `TlsConnection.TlsConn.Write` | cluster/tls_connection.go:67-76 | Exactly one socket write of the whole buffer. `live` becomes false exactly when the write fails and is unchanged otherwise. (n, err) is passed through. |
| `TlsConnection.TlsConn.Alive` | cluster/tls_connection.go:78-82 | Returns `live` and changes nothing. |
| `TlsConnection.TlsConn.WritePacket` | cluster/tls_connection.go:86-100 | A marshalling error is wrapped and nothing is written. Otherwise one `Write` of `LE32(len(msg)) ++ msg` for the PACKET envelope (version, fromAddr, b), and its error is returned. |
| `TlsConnection.TlsConn.WriteStream` | cluster/tls_connection.go:103-115 | The same framing in one `Write`, around the STREAM envelope, which has no address and no payload. |
| `TlsConnection.TlsConn.Read` | cluster/tls_connection.go:119-148 | A nil connection gives the "nil connection" error without reading. Otherwise the result is `DecodeFrame` of the bytes the peer sent. |
| `TlsConnection.TlsConn.Close` | cluster/tls_connection.go:162-170 | `live` is false afterwards. A nil socket gives a nil error. Otherwise the socket is closed and its error returned. |
| `Decimal.ParseFormatNat` | cluster/tls_connection_pool.go:37 | The decimal digits of a natural number parse back to it. |
| `Decimal.ParseFormatInt` | cluster/tls_connection_pool.go:37 | `%d` of an int64, minus sign included, parses back to the number. |
| `Decimal.FormatIntInjective` | cluster/tls_connection_pool.go:37 | Distinct timeouts print differently. |
| `Decimal.FormatIntNoSlash` | cluster/tls_connection_pool.go:37 | `%d` never prints '/'. |
| `Decimal.Key` | cluster/tls_connection_pool.go:37 | The key starts with addr, followed by '/' and the decimal timeout. |
| `Decimal.KeyInjective` | cluster/connection_pool.go:47 | `addr + "/" + decimal(timeout)` determines both addr and timeout, even when addr contains '/'. So the same address with two timeouts gives two entries. |
| `TlsConnectionPool.ConnectionPool.constructor` | cluster/tls_connection_pool.go:26-31 | A new pool has an empty map, and its entries are consistent. |
| `TlsConnectionPool.ConnectionPool.BorrowConnection` | cluster/tls_connection_pool.go:35-47 | A live entry at the key is returned and the map is unchanged. If the entry is absent or dead, a dial error gives (nil, err) with the map unchanged; otherwise the fresh connection is stored at the key and returned. Other keys are untouched, and a successful borrow leaves `conns[key]` equal to the live result. |
| `TlsConnectionPool.EntryIsForItsDestination` | cluster/tls_connection_pool.go:37-44 | In a consistent pool, the entry at `Key(addr, timeout)` is a connection dialled to addr that records timeout. |
| `TlsConnectionPool.BorrowTwice` | cluster/tls_connection_pool.go:38-46 | When the first of two borrows in a row for one key succeeds, the second returns the same connection. |
| `TlsConnectionPool.BorrowAfterClose` | cluster/tls_connection_pool.go:39-46 | After the borrowed connection is closed, the next borrow with a good dial returns a new live connection. |
| `LegacyConnectionPool.ConnWrapper.constructor` | cluster/connection_pool.go:66-70 | A new wrapper is live and records its socket and timeout. |
| `LegacyConnectionPool.ConnWrapper.Write` | cluster/connection_pool.go:74-83 | One socket write of the whole buffer. `live` is cleared exactly on a write error, and the result is passed through. |
| `LegacyConnectionPool.ConnWrapper.IsAlive` | cluster/connection_pool.go:85-87 | Returns `live` with no side effect. |
| `LegacyConnectionPool.ConnectionPool.constructor` | cluster/connection_pool.go:36-41 | A new pool has an empty map. |
| `LegacyConnectionPool.ConnectionPool.CreateConnection` | cluster/connection_pool.go:59-71 | The dial uses `DefaultTcpTimeout`, not `timeout`. On success the result is a fresh live wrapper that records the requested timeout. On failure it is (nil, err). |
| `LegacyConnectionPool.ConnectionPool.BorrowConnection` | cluster/connection_pool.go:45-57 | Reuse, replacement and error behaviour are as in the TLS pool, with entries created by `CreateConnection`. |
| `LegacyConnectionPool.EntryIsForItsDestination` | cluster/connection_pool.go:47-54 | The entry at `Key(addr, timeout)` goes to addr and records timeout, but was dialled with `DefaultTcpTimeout`. |
| `GossipConfig.ParseClientAuth` | config/tls_gossip_config.go:90-104 | An accepted string is "" (giving NoClientCert) or the spelling of the policy returned. A rejected string fails with `"Invalid ClientAuth: " + s`. |
| `GossipConfig.ParseClientAuthName` | config/tls_gossip_config.go:90-101 | Each policy's spelling maps to it. "RequireClientCert" maps to RequireAnyClientCert. |
| `GossipConfig.ParseClientAuthAccepts` | config/tls_gossip_config.go:90-104 | A string is rejected if and only if it is neither "" nor one of the five spellings. |
| `GossipConfig.LoadCert` | config/tls_gossip_config.go:63-69 | Succeeds exactly when the key pair loads and returns that certificate. A load error is wrapped with "failed to load X509KeyPair". |
| `GossipConfig.ConfigToTlsConfig` | config/tls_gossip_config.go:55-111 | Success holds exactly when the independent `Acceptable` predicate holds. On success: the certificate callback reloads the configured pair, InsecureSkipVerify is copied, the policy is the mapped ClientAuth (NoClientCert when empty), a CA pool is present exactly when ClientCAs is set, and configured CAs never come with NoClientCert. |
| `GossipConfig.ErrorOrder` | config/tls_gossip_config.go:57-109 | The checks run in source order, each with its own message: cert path, key path, key-pair load, CA file read, ClientAuth mapping, CA/policy consistency. |
| `GossipConfig.EarlyFailuresIgnoreLaterSettings` | config/tls_gossip_config.go:57-73 | A missing path or a failed key-pair load is an error that does not depend on ClientAuth, ClientCAs or InsecureSkipVerify. |
| `GossipConfig.GetTlsConfig` | config/tls_gossip_config.go:42-53 | A file read error or a YAML error is returned unchanged. After a good read and parse, the result is `ConfigToTlsConfig` of the parsed `tlsConfig` section, so success implies that section is `Acceptable`. |

## Left out

- The mutex in `tlsConn` and `connWrapper` is not modelled. Calls are taken one at a time, so the concurrent-borrow race, where the last writer wins on the map, is not represented.
- The protobuf wire format of `MemberlistMessage` is not modelled. It is a foreign library, stood in for by the `Codec` pair and the `RoundTrips` hypothesis.
- The round-trip lemmas and `TruncatedFrameFails` require the encoded envelope to be shorter than 2^32 bytes. For longer envelopes the header wraps, as `OversizedEnvelopeHeaderWraps` shows.
- `TlsConn.Read` makes no claim about the bytes left in the socket afterwards, because `bufio.NewReader` may read ahead and then drop bytes.
- `Net.NetConn.ReadFull` fails only at end of stream (`EOF` or `unexpected EOF`). Reads on a closed socket, and socket errors such as timeouts or resets, are not modelled: a `TlsConn.Read` after `TlsConn.Close` still decodes what the peer sent.
- `TlsConn.Write`, `WritePacket` and `WriteStream` require a non-nil socket. In the source a write on a `tlsConn` built by `rcvTLSConn(nil)` is a nil-pointer panic; that case is excluded here.
- The socket's own behaviour (whether a write on a closed socket fails, what n it reports) is chosen freely by the `WriteOutcome` argument.
- `DefaultTcpTimeout` is declared outside the files of this model. Its value here, 10 s, does not affect any proved property.
- The `tls.Config` passed to the dialler is only recorded in the socket's origin. The TLS handshake itself is not modelled.
- `GossipConfig.Environment` treats certificate and CA file contents as opaque. `x509.CertPool` parsing of PEM and `AppendCertsFromPEM`'s result are not modelled.
- `cluster/tls_config.go` is not part of this model. It is a wrapper over an external TLS library.
- The transport (`NewTLSTransport`, the accept loop, `WriteTo`, `DialTimeout`, `FinalAdvertiseAddr`, `Shutdown`, `GetAutoBindPort`) lives in a source file that is not part of this model. Its channels and goroutines are concurrency.
- The newline-delimited packet format exercised in cluster/tls_connection_test.go is not modelled. Its functions do not appear in the modelled sources.
