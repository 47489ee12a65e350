# simple_tor: SOCKS4 proxy core, modelled in Dafny

This project models the per-connection core of the `simple_tor` TCP proxy:

- the SOCKS4 handshake codec: the client's CONNECT/BIND request and the proxy's 8-byte reply;
- the connection session: Direct or SOCKS4 mode, handshake, one dial to the target, one reply frame, then relaying;
- the relay copy loop that each direction of a connection runs;
- the configuration builder;
- the proxy's error type.

The wire format is that of "SOCKS: A protocol for TCP proxy across firewalls" (Ying-Da Lee), section "CONNECT".
That document is SOCKS version 4. The module comment of `src/socks4.rs` cites RFC 1928, which is SOCKS version 5.
The model follows the code and the SOCKS4 document, not RFC 1928.

Files, one module each:

- `results.dfy` (`Results`): Rust's `Option` and `Result`.
- `net.dfy` (`Net`): bytes, `u16` ports with their big-endian bytes, `Ipv4Addr`, `SocketAddr`.
- `errors.dfy` (`Errors`): `src/error.rs`.
- `config.dfy` (`Config`): `src/config.rs`.
- `streams.dfy` (`Streams`): the client socket and `TcpStream::connect`, as the session observes them.
  - `DuplexStream` holds the bytes the client sent that are still unread and the bytes written back.
  - A fixed `writeError` says whether writes succeed; this is the abstract write-success flag.
  - `Dialer` returns a fixed connect outcome and logs every address dialled.
- `socks4.dfy` (`Socks4`): `src/socks4.rs`.
  - `Socks4Request.ReadFrom` is the byte-by-byte reader, with the user-id loop.
  - It is proved equal to the specification function `Decode`, and the decoding properties are lemmas about `Decode`.
  - `Socks4Request.Frame` is a reference encoding of the request format, and `ParseResponse` a reference decoding of the reply format.
  - Neither exists in the source; they are the partners of the round-trip lemmas.
- `connection.dfy` (`Connection`): `src/connection.rs`.
  - `ForwardData` is the copy loop over one reused 4096-byte array.
  - Its source is a `ReadScript`: the chunks successive reads return, each at most 4096 bytes, then an end of stream or a read fault.
  - Its destination is a `WriterBehaviour`: every write succeeds, or the n-th write fails.
  - It is proved equal to the closed-form specification `Forward`.
  - `ConnectionHandler.Handle` drives the client stream and the dialer and states every outcome in its postcondition.

Two behaviours of the code that a reader might not expect, both modelled as written:

- A decoded BIND is answered with the rejection frame. An error writing that frame is returned, not swallowed.
- A request that fails to decode gets no reply frame at all.

## Model

| member | source | states |
|---|---|---|
| `Net.PortFromBytes` | src/socks4.rs:60 | the port read is the big-endian value of its two bytes: its high byte is the first byte and its low byte the second |
| `Net.PortBytes` | src/socks4.rs:130 | the two bytes written for a port, most significant first, recompose to the port |
| `Net.Ipv4Addr.FromOctets` | src/socks4.rs:62-64 | the address built from four bytes has exactly those octets, in order |
| `Net.Ipv4Addr.Octets` | src/socks4.rs:131 | an address's octets are four bytes, and building an address from them gives the address back |
| `Socks4.Socks4Request.ReadFrom` | src/socks4.rs:46-84 | the byte-by-byte reader with its user-id loop returns exactly the result and the byte count of `Decode` |
| `Socks4.Decode` | src/socks4.rs:46-84 | never reads past the input; on success the command is the second byte and is CONNECT or BIND, the port is bytes 2-3 big-endian, the IP is bytes 4-7, the user id is the bytes before the NUL, has no NUL and at most 256 bytes, and exactly 8 + len + 1 bytes were read |
| `Socks4.UseridEnd` | src/socks4.rs:66-76 | the user-id loop stops at the first NUL: no NUL before the returned position, and a NUL at it unless the input ran out |
| `Socks4.Socks4Request.DestinationAddr` | src/socks4.rs:86-88 | the destination is the request's IP with the request's port |
| `Socks4.DecodeFredExample` | src/socks4.rs:143-160 | `04 01 00 50 42 66 07 63 46 72 65 64 00` decodes as CONNECT to 66.102.7.99:80 with user id "Fred", 13 bytes read |
| `Socks4.InvalidVersionReadsOneByte` | src/socks4.rs:50-53 | a first byte other than 4 fails with the invalid-version error carrying that byte, after reading one byte |
| `Socks4.UnsupportedCommandReadsTwoBytes` | src/socks4.rs:55-58 | a command other than 1 or 2 fails with the unsupported-command error carrying that byte, after reading exactly two bytes |
| `Socks4.BindIsDecoded` | src/socks4.rs:55-58 | a well-formed BIND request decodes successfully |
| `Socks4.DecodeFrame` | src/socks4.rs:46-84 | every well-formed request (known command, user id of at most 256 non-NUL bytes), followed by anything, decodes back to itself, reading exactly its frame |
| `Socks4.DecodedIsFrame` | src/socks4.rs:46-84 | conversely, whatever decodes successfully is a well-formed request, and the bytes read are exactly its frame |
| `Socks4.LongestUseridAccepted` | src/socks4.rs:66-76 | a user id of 256 non-NUL bytes followed by NUL decodes, reading 265 bytes |
| `Socks4.UseridTooLongStopsAt257` | src/socks4.rs:72-75 | a 257th non-NUL user-id byte fails with the too-long error after 265 bytes, whatever follows |
| `Socks4.TruncatedFrameFails` | src/socks4.rs:60-68 | a request cut off anywhere before its terminating NUL fails with the end-of-stream error, having read all it was given |
| `Socks4.DecodeIgnoresRest` | src/socks4.rs:46-84 | unless the input ran out, the outcome depends only on the bytes reported as read: the decoder never reads further |
| `Socks4.Socks4Response.Success` | src/socks4.rs:99-105 | a success reply has the granted status 0x5A |
| `Socks4.Socks4Response.Failure` | src/socks4.rs:107-113 | a failure reply has the rejected status 0x5B |
| `Socks4.Socks4Response.TryFromSocketAddr` | src/socks4.rs:115-122 | an IPv4 address gives `Ok` of exactly the success reply for it, and an IPv6 address always gives an error |
| `Socks4.Socks4Response.Encode` | src/socks4.rs:124-134 | a reply is always 8 bytes on the wire |
| `Socks4.Socks4Response.WriteTo` | src/socks4.rs:124-134 | writes version 0, status, big-endian port and the four octets, in that order, then flushes; succeeds exactly when the stream accepts writes; on failure returns the stream's error and nothing reaches the client; never reads from the stream |
| `Socks4.ParseEncode` | src/socks4.rs:124-134 | a SOCKS4 client reading any encoded reply gets that reply back |
| `Socks4.EncodeParse` | src/socks4.rs:124-134 | every 8-byte frame a client accepts as a reply is the encoding of the reply it reads |
| `Socks4.FailureEncoding` | src/socks4.rs:107-113 | the failure reply always encodes as `00 5B 00 00 00 00 00 00` |
| `Socks4.SuccessEncodingExample` | src/socks4.rs:185-196 | granting 192.168.1.1:8080 encodes as `00 5A 1F 90 C0 A8 01 01` |
| `Socks4.SuccessEchoesRequest` | src/socks4.rs:86-105 | granting a decoded request's destination gives a frame that starts `00 5A`, and whose bytes 2..8 are the request's bytes 2..8 (port and IP) |
| `Connection.FirstEmpty` | src/connection.rs:119-122 | the copy loop's stopping read is the first zero-length one: every earlier read returned data |
| `Connection.ForwardData` | src/connection.rs:111-129 | the copy loop, with its reused 4096-byte buffer, does exactly what `Forward` says: which buffers it writes, the bytes the writer takes, how many reads, and the outcome |
| `Connection.ForwardOkIsLossless` | src/connection.rs:111-129 | a copy that ends Ok stopped at the first zero-length read or end of stream, made no read after it, and wrote every byte read, in order |
| `Connection.ForwardWritesPrefixOfInput` | src/connection.rs:116-124 | on any outcome, including a read or write error, the bytes written are a prefix of the bytes read before the first zero-length read |
| `Connection.ForwardWriteSizes` | src/connection.rs:116-124 | every buffer handed to the writer holds 1 to 4096 bytes; on success the writer took exactly their concatenation |
| `Connection.ForwardErrorCause` | src/connection.rs:119-124 | a failed copy returns the failing write's error or the source's read error, nothing else |
| `Connection.RelayIsLossless` | src/connection.rs:136-146 | any byte string, read in full 4096-byte buffers and ended by a clean end of stream, is delivered byte for byte, and the copy ends Ok |
| `Connection.ConnectionHandler.constructor` | src/connection.rs:23-29 | a handler holds the client stream, the client address and the mode it was given |
| `Connection.ConnectionHandler.HandleSocks4Handshake` | src/connection.rs:64-84 | reads exactly one request. A decode error is returned with nothing written. CONNECT yields the request's IPv4 destination with nothing written. Any other command writes the rejection frame once, then fails: with the write's error if the write failed, else with the unsupported-command error |
| `Connection.ConnectionHandler.ForwardTraffic` | src/connection.rs:86-108 | once relaying starts the connection ends Ok, whichever direction finishes first and however it ended |
| `Connection.ConnectionHandler.Handle` | src/connection.rs:31-62 | Direct mode: no handshake byte read and no reply frame written to the client, one dial to the configured target, and the dial's error returned if it fails. SOCKS4 mode: the handshake reads exactly one request; a decode error is returned with no dial and no reply. A decoded command other than CONNECT gets one rejection frame and no dial. For CONNECT there is exactly one dial, to the requested destination. If the dial fails, one rejection frame is attempted, its write error is ignored, and the dial error is returned. If the dial succeeds, one grant frame echoing the request's address and port is written before relaying, and a failed write is returned |
| `Config.ProxyConfig.Default` | src/config.rs:26-33 | listens on 127.0.0.1:1080 in SOCKS4 mode |
| `Config.ProxyConfig.New` | src/config.rs:37-39 | is the default configuration |
| `Config.ProxyConfig.WithListenAddr` | src/config.rs:42-45 | sets the listen address, keeps the mode |
| `Config.ProxyConfig.WithTargetAddr` | src/config.rs:48-51 | sets the mode to Direct to the address, keeps the listen address |
| `Config.ProxyConfig.WithSocks4Mode` | src/config.rs:54-57 | sets the mode to SOCKS4, keeps the listen address |
| `Config.Socks4ModeIdempotent` | src/config.rs:54-57 | switching to SOCKS4 mode twice equals switching once |
| `Config.BuildersCommute` | src/config.rs:42-57 | setting the listen address and setting the mode commute |
| `Config.LastModeWins` | src/config.rs:48-57 | the last mode builder called decides the mode |
| `Config.ProxyConfig.WithBufferSize` | src/config.rs:60-63 | returns the configuration unchanged, for every size |
| `Config.ProxyConfig.WithTimeout` | src/config.rs:66-69 | returns the configuration unchanged, for every timeout |
| `Errors.FromIoError` | src/error.rs:22-28 | an I/O error converts to `ConnectionClosed` exactly when its kind is `UnexpectedEof`; every other kind converts to `NetworkError` carrying the error's message |
| `Errors.Display` | src/error.rs:11-17 | a network or configuration error displays as its fixed prefix followed by exactly the carried message; a closed connection displays as "Connection closed" |
| `Errors.DisplayForms` | src/error.rs:11-17 | `ConnectionClosed` displays as "Connection closed", `NetworkError(m)` as "Network error: " + m, `ConfigurationError(m)` as "Configuration error: " + m |
| `Errors.DisplayInjective` | src/error.rs:11-17 | two errors that display the same are the same error |
| `Errors.DisplayFromIoError` | src/error.rs:22-28 | a converted I/O error displays as "Connection closed" for an end of stream, and as "Network error: " + its message otherwise |

## Left out

- Sockets, the listener and the async runtime are not modelled.
  - The client socket is a byte sequence plus a fixed write outcome.
  - `TcpStream::connect` is a fixed outcome plus a log of the addresses dialled.
  - A relay direction is a script of read results plus a writer that accepts every write or fails at one.
- The race between the two relay directions (`tokio::select!`) is concurrency.
  - It is modelled as an input naming the direction that finishes first, with its source and destination.
  - Only that direction's copy is run, and only the "always Ok" outcome is kept.
  - The abandoned direction's partial progress is not modelled.
  - The relay is not connected to the client stream: neither the relay's reads from the client nor its writes to the client are modelled.
  - So after `Connection.ConnectionHandler.Handle`, `client.unread` and `client.outgoing` reflect only the handshake: the request read and the reply frame written.
- `Socks4.Socks4Response.WriteTo`: a failing write is modelled as delivering nothing. The model does not capture a write that fails after sending part of a frame, or a flush that fails after the bytes were accepted.
- `Connection.ForwardData`: likewise, the write that fails is modelled as delivering none of its chunk, and a `write_all` failure is not told apart from a `flush` failure.
- I/O faults other than end of stream while the request is read are not modelled. The client input is a finite byte sequence, so running out of it is the only read error.
- Logging (`info!`, `error!`), `String::from_utf8_lossy`, and the text of `bail!` messages are left out. Errors are datatype variants.
- `src/proxy.rs` is not part of this model. It holds the listener and accept loop and a duplicate of `forward_data`, and it reads a `target_addr` field that `ProxyConfig` no longer has.
- `src/main.rs` (command-line parsing and logger set-up) and `src/lib.rs` (module declarations) are not part of this model.
- The `Display` text of an `std::io::Error` is taken as the `message` field of `IoError`; the operating system's error descriptions are not modelled.
- `Config.ProxyConfig.WithBufferSize` and `Config.ProxyConfig.WithTimeout` take `u64`. The `usize` of `with_buffer_size` is modelled as 64 bits wide.
