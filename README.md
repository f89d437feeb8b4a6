# gosocks5 protocol engine in Dafny

This project models the SOCKS version 5 engine of the Go package gosocks5 and proves properties of it. The engine covers RFC 1928 and the username/password subnegotiation of RFC 1929. The parts modelled are these:

- **Wire codec** (`socks5.go`, `socks5.dfy`):
  - the method-negotiation message built in a 257-byte buffer;
  - the request layout built in a 128-byte buffer and parsed back;
  - the `Socks5` greeting object.
- **Connection** (`conn.go`, `conn.dfy`): a `Conn` class that runs its handshake lazily, at most once, and caches the outcome. The client side and the server side each negotiate a method. A `MethodSelected` callback may then replace the underlying connection.
- **Server selector** (`server/selector.go`, `server_selector.dfy`):
  - UserPass is mandatory once users are configured;
  - the three-rule credential match, run as an early-exit loop;
  - the Succeeded or Failure response.
- **Client selector** (`client/selector.go`, `client_selector.dfy`): sends the credentials and checks the response status.
- **Command handler** (`server/handler.go`, `handler.dfy`):
  - dispatch on the command byte;
  - the first reply of CONNECT and of BIND for each dial or listen outcome;
  - `toSocksAddr`;
  - the io.EOF normalisation of `transport`.
- **Legacy client and server** (`client.go`, `server.go`, `legacy_client.dfy`, `legacy_server.dfy`): negotiation in sequence over a stream.
- **Accept loop** (`server/server.go`, `serve.dfy`): the `tempDelay` backoff.
  - It starts at 5ms after a temporary error.
  - It doubles on each further consecutive temporary error, up to 1s.
  - It resets after a successful accept.
  - It stops on a permanent error.

How the model is built:

- **Connections are values.** A `Streams.Stream` holds:
  - the bytes still to be read and the bytes written so far;
  - an injected read failure and an injected write failure;
  - a closed flag;
  - an identity.

  `Write`, `ReadFull` (Go's `io.ReadFull`), `ReadSome` (one `conn.Read`) and `ReadWith` (a message reader) map the old stream to an outcome and the new stream.
- **Callbacks are function values.** A `MethodSelected` callback returns a `SocksConn.Negotiation`. This holds the connection it was given, as its own I/O left it, and either the connection to use from then on or an error. Nothing in the type forces that `origin` really is the given connection. The lemmas that depend on it take `SocksConn.KeepsOrigin` as a hypothesis, and both selectors' callbacks are proved to satisfy it.
- **Helpers defined elsewhere in gosocks5 (not modelled here) are fields of a `Messages.Codec` value.** These are the message readers and writers (`ReadMethods`, `ReadRequest`, `ReadReply`, `ReadUserPassRequest`, `ReadUserPassResponse`, the `Write` methods of the messages) and `UserPassVer`. The codec supplies one parser and one encoder per message. Their byte formats are not modelled.
- **`Ver5` is `Version5` (5).**
- **The network is a parameter.** Dialing, listening, the local address, accept outcomes and how a relay ends are inputs (`ServerHandler.Env`, `ServeLoop.AcceptOutcome`).

Where the documented behaviour and the code differ, the model follows the code:

- **Empty request password.** The second credential rule accepts a user whose *configured* password is empty. A request ("alice", "") against the single user ("alice", "secret") is therefore rejected (`ServerSelection.EmptyPasswordIsNotAWildcard`).
- **Unsupported command.** `Handle` writes no reply for a command other than CONNECT or BIND, UDP ASSOCIATE included. It only returns an error (`ServerHandler.DispatchByCommand`).
- **An unacceptable method on the client.** With no `MethodSelected` callback, a client whose server answers 0xFF (NoAcceptable) records 0xFF as the method and returns nil. The unacceptable method does not surface as an authentication failure (`SocksConn.ClientAdoptsReply`). Only a callback such as the client selector's turns it into an error (`ClientSelection.OfferOtherMethods`).
- **Server handler configuration.** `serverHandler.Handle` passes its selector to `ServerConn`. `conn.go` takes a `*Config`, so the selectors are given to the connection as the configuration they amount to (`ServerSelection.ServerSelector.Config`, `ClientSelection.ClientSelector.Config`).

## Model

| member | source | states |
|---|---|---|
| Socks5.MethodsMessageDecodes | socks5.go:91-104 | the method message of up to 255 methods is read back as exactly those methods |
| Socks5.DecodedMethodsEncode | socks5.go:91-104 | conversely, any byte string read as a method message is the message of the methods read |
| Socks5.CountedReaderReadsMessage | socks5.go:91-104 | a stream reader that reads the version, the count and that many methods takes exactly a well-formed method message from the front of its input, whatever follows, and finds the methods `DecodeMethods` finds |
| Socks5.EncodeMethods | socks5.go:91-104 | the 257-byte buffer filled with `pos` yields `2+len` bytes: version 5, the count, the methods in order |
| Socks5.Socks5.NewSocks5 | socks5.go:60-69 | no methods gives exactly [NoAuth]; otherwise the methods are kept in order |
| Socks5.Socks5.Init | socks5.go:71-80 | the method message is written first; a failed write returns its error with no read; otherwise up to two bytes are read and not inspected |
| Socks5.RequestFrame | socks5.go:129-148 | an encoded request starts with 5, CMD, a zero RSV byte and ATYP, and ends with the big-endian port |
| Socks5.RequestLength | socks5.go:130-148 | lengths are 10 (IPv4), 22 (IPv6), 7+len (domain) and 6 (unknown type), always within the 128-byte buffer |
| Socks5.DecodeEncode | socks5.go:129-171 | decoding an encoded request restores command, type, address and port; for an unknown type the receiver keeps its old address |
| Socks5.EncodeDecode | socks5.go:129-171 | a well-formed request that decoding reads in full is re-encoded byte for byte |
| Socks5.DecodeIgnoresVersionAndReserved | socks5.go:151-153 | the version and RSV bytes have no effect on the decoded fields |
| Socks5.NonIPv4AddressIsDropped | socks5.go:137-138 | an IPv4 request whose address has no 4-byte form is encoded without address bytes and cannot be decoded |
| Socks5.Copy | socks5.go:138-144 | Go's `copy`: `min(len(src), room)` bytes are copied and nothing else in the buffer changes |
| Socks5.PutAddr | socks5.go:136-145 | the address switch of `CMD.Encode` writes exactly the address field of the address type from offset 4, leaving the four header bytes as they were, and returns the offset just past it |
| Socks5.Cmd.NewCMD | socks5.go:120-127 | the four fields are stored as given |
| Socks5.Cmd.Encode | socks5.go:129-149 | the zeroed buffer filled field by field is the request layout of the fields |
| Socks5.Cmd.Decode | socks5.go:151-171 | the receiver's fields become those the request layout encodes |
| SocksConn.DefaultConfig | conn.go:17-19 | no methods and neither callback |
| SocksConn.NoConfigMeansNoAuth | conn.go:17-19 | a connection with no config negotiates as the zero config: the client writes [5, 1, NoAuth], and the server answers NoAuth to any readable list and completes the handshake on the same connection |
| SocksConn.HandshakeIdempotent | conn.go:46-64 | running the handshake again after it has run returns the same result and changes nothing |
| SocksConn.HandshakeRecords | conn.go:57-63 | the outcome is cached: the recorded error is the returned one, and handshaked holds exactly when there is none |
| SocksConn.DoneHandshakeDoesNothing | conn.go:53-55 | after a success, the handshake returns nil and does no I/O |
| SocksConn.FailedHandshakeRepeats | conn.go:50-52 | after a failure, the same error is returned and the protocol is not run again |
| SocksConn.HelloIsMethodsMessage | conn.go:71-79 | the client's first message is the method message of its methods, with [NoAuth] in place of none |
| SocksConn.HelloCountWraps | conn.go:76-79 | the count is truncated to `uint8`: 256 methods are announced as 0, a 258-byte message that `DecodeMethods` rejects |
| SocksConn.HelloCountWrapsOnStream | conn.go:76-79 | a server whose reader trusts the count reads that message as an empty method list, leaves the 256 method bytes unread and answers the method chosen for no methods; with no MethodSelected callback the handshake then succeeds, and with one it succeeds exactly when the callback, given the stream still holding those bytes, does |
| SocksConn.ClientWritesHello | conn.go:81-87 | the client writes that message before reading; a failed write returns its error with the connection unchanged |
| SocksConn.ClientRejectsBadVersion | conn.go:89-91 | a first reply byte other than 5 gives ErrBadVersion, with the method unrecorded and the handshake not done |
| SocksConn.ClientAdoptsReply | conn.go:93-103 | the method is the second reply byte; the callback's connection replaces `c` on success; on its error nothing is recorded and `c` is the callback's origin, which is the original connection when the callback keeps its origin |
| SocksConn.FailureKeepsConnection | conn.go:93-98 | with a callback that keeps its origin, a failed client or server handshake leaves `c` the connection it started with |
| SocksConn.ServerAnswers | conn.go:111-123 | a ReadMethods error writes nothing; otherwise, with no MethodSelected callback, exactly [5, method] is written and the handshake succeeds, the method being NoAuth when SelectMethod is nil |
| SocksConn.ServerCallbackFailure | conn.go:125-131 | a MethodSelected error leaves the method unrecorded and the handshake not done |
| SocksConn.ServerCallbackSuccess | conn.go:125-135 | the callback is handed the connection after [5, method] was written; when it succeeds, its connection replaces the held one, the method is recorded and the handshake is done |
| SocksConn.ClientAndServerAgree | conn.go:66-136 | with no MethodSelected callback on either side, a client and a server, each reading what the other wrote, agree on the method the server selects from the offered list |
| SocksConn.Conn.ClientConn | conn.go:31-37 | a client connection starts unnegotiated, with no method and no error |
| SocksConn.Conn.ServerConn | conn.go:39-44 | a server connection starts unnegotiated, with no method and no error |
| SocksConn.Conn.Handleshake | conn.go:46-64 | behaves as the cached handshake of its role |
| SocksConn.HelloBuffer | conn.go:71-79 | the freshly allocated `2 + nm` buffer holds exactly the client's first message, with a zero (NoAuth) method byte when none are configured |
| SocksConn.Conn.ClientHandshake | conn.go:66-104 | the buffered client negotiation, with `b` filled and read back, has the client run's effect on the connection's fields |
| SocksConn.Conn.ServerHandshake | conn.go:106-136 | the server negotiation has the server run's effect on the connection's fields |
| SocksConn.Conn.Read | conn.go:138-143 | the handshake runs first; if it fails its error is returned and no byte is read |
| SocksConn.Conn.Write | conn.go:145-150 | the handshake runs first; if it fails its error is returned and no byte is written |
| SocksConn.Conn.ReadMessage | conn.go:138-143 | a message reader used through the connection sees the handshake error first, otherwise reads after the handshake |
| ServerSelection.EmptyPasswordIsNotAWildcard | server/selector.go:43-52 | ("alice", "") is rejected by the single user ("alice", "secret"), whatever the subnegotiation version byte |
| ServerSelection.EmptyFieldsAreWildcards | server/selector.go:46-48 | a user with no password admits its username with any password; a user with no username admits its password with any username |
| ServerSelection.AdmittedMonotone | server/selector.go:43-52 | adding users never rejects a request that was accepted |
| ServerSelection.AsConfigKeepsOrigin | server/selector.go:34-70 | the policy's callback reports as origin the connection it was given |
| ServerSelection.AdmitKeepsConnection | server/selector.go:69 | on success the selector hands back the connection it was given |
| ServerSelection.NoUsersAdmitsAll | server/selector.go:53-69 | with no users, every readable request is answered Succeeded and the connection is returned |
| ServerSelection.UsersDecide | server/selector.go:53-64 | with users and no match, a Failure response then ErrAuthFailure, or the write error; with a match, a Succeeded response |
| ServerSelection.UnreadableRequestWritesNothing | server/selector.go:37-40 | a request that cannot be read fails the negotiation with nothing written |
| ServerSelection.OtherMethodsDoNoIo | server/selector.go:65-69 | NoAcceptable gives ErrBadMethod; any other non-UserPass method is accepted; neither does any I/O |
| ServerSelection.NoUsersMeansNoAuth | server/selector.go:23-31 | with no users, the policy's server connection answers [5, NoAuth] to any readable method list and completes the handshake on the same connection |
| ServerSelection.WrappedHelloReachesAuth | server/selector.go:34-53 | with users, a 256-method hello read by a count-trusting reader leaves the method bytes to the credentials reader, and the handshake succeeds only if a configured user accepts what it reads from them |
| ServerSelection.AuthIsMandatory | server/selector.go:26-29 | with users configured, a server handshake only succeeds on UserPass after a request a user accepts |
| ServerSelection.ServerSelector.constructor | server/selector.go:10-13 | the methods and users are stored as given |
| ServerSelection.ServerSelector.Methods | server/selector.go:15-17 | returns the stored methods |
| ServerSelection.ServerSelector.AddMethod | server/selector.go:19-21 | appends in order and leaves the users unchanged |
| ServerSelection.ServerSelector.Select | server/selector.go:23-32 | UserPass exactly when users are configured, NoAuth exactly when none are, whatever is offered |
| ServerSelection.ServerSelector.OnSelected | server/selector.go:34-70 | the early-exit search over the users decides as "some user matches" does, and the I/O matches the negotiation |
| ServerSelection.ServerSelector.Config | server/selector.go:15-32 | as a configuration, it offers the stored methods and its selection is UserPass exactly when users are configured |
| ClientSelection.AsConfigKeepsOrigin | client/selector.go:39-64 | the selector's callback reports as origin the connection it was given |
| ClientSelection.OfferSendsCredentials | client/selector.go:42-51 | the request carries the user's name and password, or two empty strings with no user; a failed write means no read |
| ClientSelection.OfferChecksStatus | client/selector.go:52-63 | success exactly when a response is read with status Succeeded; a read error is returned; any other status is ErrAuthFailure |
| ClientSelection.OfferOtherMethods | client/selector.go:59-63 | NoAcceptable gives ErrBadMethod; any other non-UserPass method is accepted; neither does any I/O |
| ClientSelection.SelectorsAgree | client/selector.go:39-64 | against the server selector, the client succeeds exactly when the server does, which is exactly when no users are configured or one accepts its credentials |
| ClientSelection.ClientSelector.NewClientSelector | client/selector.go:20-25 | the user and the methods are stored in order |
| ClientSelection.ClientSelector.Methods | client/selector.go:27-29 | returns the stored methods |
| ClientSelection.ClientSelector.AddMethod | client/selector.go:31-33 | appends in order and leaves the user unchanged |
| ClientSelection.ClientSelector.Select | client/selector.go:35-37 | always 0 |
| ClientSelection.ClientSelector.OnSelected | client/selector.go:39-64 | the write-then-read subnegotiation, with the effect the properties above describe |
| ClientSelection.ClientSelector.Config | client/selector.go:27-37 | as a configuration, it offers the stored methods and its selection is always 0 |
| ServerHandler.ToSocksAddr | server/handler.go:182-195 | the address type is always IPv4 |
| ServerHandler.ToSocksAddrValues | server/handler.go:182-195 | nil gives 0.0.0.0:0; the host is kept; a port that fits in 16 bits is kept, others keep their low 16 bits |
| ServerHandler.Transport | server/handler.go:175-179 | nil exactly when the first direction ended cleanly or with io.EOF; any other error is returned unchanged |
| ServerHandler.DispatchByCommand | server/handler.go:40-52 | 1 is CONNECT, 2 is BIND, anything else (3 included) is an error with no reply |
| ServerHandler.ConnectDialFailure | server/handler.go:56-60 | a failed dial writes one HostUnreachable reply, ignores that write's error and returns the dial error |
| ServerHandler.ConnectDialSuccess | server/handler.go:64-69 | a Succeeded reply with no address is written; the relay starts exactly when that write succeeds |
| ServerHandler.BindListenFailure | server/handler.go:83-87 | a failed listen writes a Failure reply and returns the listen error |
| ServerHandler.BindFirstReply | server/handler.go:89-96 | the first reply is Succeeded with the listener's port and the local host, typed IPv4; the listener ends closed on every path |
| ServerHandler.RequestComesFirst | server/handler.go:33-38 | a handshake or ReadRequest error is returned before dispatch; otherwise the request read is the one dispatched |
| ServerHandler.OutputOnlyGrows | server/handler.go:40-96 | handling a request only appends to what the client receives |
| ServerHandler.HandleConnect | server/handler.go:55-70 | the connect steps on a negotiated connection |
| ServerHandler.HandleBind | server/handler.go:80-96 | the bind setup on a negotiated connection |
| ServerHandler.Handle | server/handler.go:33-53 | wrapping, reading the request and dispatching have the handled outcome |
| LegacyClient.GreetingOffersNoAuth | client.go:20 | the greeting is exactly [5, 1, 0], the method message offering NoAuth alone |
| LegacyClient.GreetOutcomes | client.go:13-36 | a write error returns method 0 with no read; a read error returns method 0; otherwise the method is the second byte even on ErrBadVersion, which occurs exactly when the first byte is not 5 |
| LegacyClient.ExchangeOrder | client.go:38-44 | the request is written before the reply is read; a failed write means no read |
| LegacyClient.Client.constructor | client.go:8-11 | the methods and the connection are stored as given |
| LegacyClient.Client.Handshake | client.go:13-36 | has the greeting's outcome and leaves the methods unsent and unchanged |
| LegacyClient.Client.Request | client.go:38-44 | has the exchange's outcome |
| LegacyServer.AlwaysClosed | server.go:40 | the accepted connection is closed on every exit path, and Handle is reached only when set |
| LegacyServer.UnreadableMethods | server.go:42-46 | a ReadMethods error means nothing is written and Handle is not called |
| LegacyServer.AnswersMethod | server.go:48-56 | exactly [5, method] is written, NoAuth unless SelectMethod is set; a write error stops before MethodSelected |
| LegacyServer.CallbackDecides | server.go:58-69 | a MethodSelected error stops before Handle; otherwise Handle receives the connection the callback returned; either way the connection closed is the callback's origin, not its replacement |
| LegacyServer.ClosesTheAccepted | server.go:39-64 | with a callback that keeps its origin, the connection the deferred Close closes is the accepted one |
| LegacyServer.SameAsServerHandshake | server.go:39-70 | Handle is reached exactly when the server handshake of `Conn` with the same callbacks succeeds, and it gets the connection that handshake ends with |
| LegacyServer.ClientAndServerAgree | server.go:39-70 | the legacy client ends with the method the legacy server chose for [NoAuth] |
| LegacyServer.Server.constructor | server.go:8-14 | the callbacks are stored as given |
| LegacyServer.Server.Handle | server.go:39-70 | the sequential negotiation with early returns has the session's outcome |
| ServeLoop.DelayIsCappedDoubling | server/server.go:37-44 | after k consecutive temporary errors the delay is min(5ms·2^(k-1), 1s) |
| ServeLoop.SleepsBounded | server/server.go:37-45 | every sleep is between 5ms and 1s |
| ServeLoop.ConsecutiveTemporaries | server/server.go:36-46 | a run of temporary errors sleeps the successive delays of the backoff |
| ServeLoop.BackoffFromReset | server/server.go:37-50 | from the start, k temporary errors sleep 5ms, 10ms, 20ms, up to 1s |
| ServeLoop.AcceptResets | server/server.go:50-52 | after a successful accept, the next temporary error sleeps 5ms, and the connection goes to the handler |
| ServeLoop.RunStopsAtFirstFatal | server/server.go:33-54 | the loop returns the first permanent error, having handed over every accepted connection before it, in order, and slept once per temporary error |
| ServeLoop.Server.constructor | server/server.go:9-11 | the listener is stored as given |
| ServeLoop.RunStep | server/server.go:33-52 | one pass of the loop: an accepted connection is handed over and resets the delay, a temporary error sleeps the backed-off delay, any other error ends the run |
| ServeLoop.Server.Serve | server/server.go:19-54 | a failed listen is returned; an existing listener is kept; a nil handler becomes DefaultHandler; the loop has the outcome of the accept sequence |

## Left out

- **Concurrency.** The BIND race between the accept goroutine and the client pipe (server/handler.go:98-154) is not modelled: its result is the input `Env.bindEnd`, and the model only records that the listener ends closed. `handshakeMutex` (conn.go:27, 47-48) is also left out, since the handshake is modelled sequentially. `go h.Handle(conn)` is modelled as handing the connection over.
- **The byte pump of `transport`** (`io.CopyBuffer` in two goroutines and the `sync.Pool` buffer) is not modelled. The error of the first direction to finish is an input, and only its normalisation is modelled. The CONNECT dialed connection's `Close` is also not modelled.
- **Real networking, `time.Sleep` and package-level defaults.**
  - `net.Dial`, `ListenTCP`, `AcceptTCP` and `ResolveTCPAddr` become inputs. Their text address arguments are not modelled.
  - `time.Sleep` is not modelled; the loop records the delays instead.
  - The `DefaultSelector` of the server handler is not part of this model.
- **Text formatting.**
  - `net.ParseIP`, `IP.String`, `SplitHostPort` and `strconv.Atoi` are not modelled. IP addresses are their raw bytes, and `Socks5.To4`/`Socks5.To16` follow `net.IP` on those bytes. A host is opaque text.
  - `CMD.String` is not modelled.
- **Message formats.** The byte formats of the messages whose readers and writers come from the codec are not modelled. Each is assumed to be written with one `Write`.
- **Passthroughs.** `Conn.Close`, `LocalAddr`, `RemoteAddr`, the `SetDeadline` family, and `server.Server`'s `Addr` and `Close` are not modelled.
- **Thin wrappers.** `client/client.go`'s `Dial` and `server.go`'s `ListenAndServe` are not modelled; the first is a dial plus `Handleshake`, the second a logging loop. The repository's two example programs, a command-line client and server, are not part of this model.
- **Callback effects.** What the legacy `Server.Handle` callback does with the connection it receives is up to the user and is not modelled.
- **Nil users.** A nil `*url.Userinfo` among the server's users behaves as `UserInfo("", None)`, and is written that way.
- **Logging.** The legacy server's `log.Println` of each error it returns (server.go:44, 54, 61) is not modelled; it has no effect on the connection.
- **Partial reads and writes.** `Streams.Write` writes nothing when it fails, and a failed read delivers no bytes. Go's `Write` and `Read` may move part of the buffer and still return an error. The bytes such a failed call may still move are not modelled.
- Socks5.Socks5.Init: one `conn.Read` is modelled as delivering as many bytes as are available, up to the buffer size, rather than any number from one upwards.
- SocksConn.Conn.Read: is weaker than Go's `conn.Read` in the same way as `Init`.
- Socks5.EncodeMethods: requires at most 255 methods, because more overrun the 257-byte buffer and panic.
- Socks5.Cmd.Encode: requires a domain name of at most 121 bytes, because a longer one leaves no room for the port in the 128-byte buffer and the port write panics.
- Socks5.Cmd.Decode: requires input long enough for the fields its address type names, because shorter input makes Go index out of range and panic.
- ServeLoop.Server.Serve: runs over a finite sequence of accept outcomes, and returns nil when they run out, where Go would keep accepting. `time.Duration` is `int64`, and the delays never come near its range.
