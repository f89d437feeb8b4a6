/**
  conn.go: a SOCKS5 connection that negotiates the authentication method
  lazily, at most once, and remembers the outcome. The client side sends
  its method list and reads the server's choice; the server side reads the
  list, chooses, and answers. Either side then hands the connection to the
  configured `MethodSelected` callback, whose returned connection replaces
  the one held.
 */
module SocksConn {
  import opened Base
  import opened Streams
  import opened Messages
  import opened Socks5

  /** What a `MethodSelected` callback leaves behind: `origin` is the
      connection it was given, after whatever I/O it did on it, and
      `result` is the connection to use from now on, or the error. */
  datatype Negotiation = Negotiation(origin: Stream, result: Result<Stream>)

  /** A callback keeps its origin when the connection it reports as
      `origin` is the one it was given, after whatever I/O it did on it. */
  ghost predicate KeepsOrigin(ms: Option<(byte, Stream) -> Negotiation>) {
    ms.Some? ==> forall m: byte, c: Stream :: ms.value(m, c).origin.id == c.id
  }

  /** `Config`: the methods a client offers and the two callbacks, each of
      which may be nil. */
  datatype Config = Config(
    methods: seq<byte>,
    selectMethod: Option<seq<byte> -> byte>,
    methodSelected: Option<(byte, Stream) -> Negotiation>)

  /** `defaultConfig()`: the zero `Config`. */
  function DefaultConfig(): (cfg: Config)
    ensures cfg.methods == [] && cfg.selectMethod.None? && cfg.methodSelected.None?
  {
    Config([], None, None)
  }

  /** The fields of a `Conn` that the handshake reads and writes. */
  datatype ConnState = ConnState(
    c: Stream,
    config: Option<Config>,
    authMethod: byte,
    handshaked: bool,
    handshakeErr: Option<Error>)

  /** The error a handshake step returns and the state after it. */
  datatype Outcome = Outcome(err: Option<Error>, st: ConnState)

  /** The state of a connection just built by `ClientConn` or `ServerConn`. */
  function Fresh(conn: Stream, config: Option<Config>): ConnState {
    ConnState(conn, config, 0, false, None)
  }

  /** The buffer the client writes: `2 + nm` bytes holding the version, the
      count as a `uint8` and the methods; with no methods configured the
      count is 1 and the one method byte is left at 0 (NoAuth). */
  function Hello(methods: seq<byte>): seq<byte> {
    if |methods| == 0 then [Ver5, 1, MethodNoAuth]
    else
      var nm: byte := |methods| % 0x100;
      [Ver5, nm] + methods
  }

  /** The common tail of both roles: the callback, if any, may replace the
      connection or fail; on success the method is recorded and the
      handshake marked done. */
  function Adopt(st: ConnState, cfg: Config, m: byte): Outcome {
    if cfg.methodSelected.None? then
      Outcome(None, st.(authMethod := m, handshaked := true))
    else
      var n := cfg.methodSelected.value(m, st.c);
      if n.result.Err? then Outcome(Some(n.result.error), st.(c := n.origin))
      else Outcome(None, st.(c := n.result.value, authMethod := m, handshaked := true))
  }

  /** `clientHandshake`, as a function of the state. */
  function ClientRun(st: ConnState): Outcome {
    var cfg := st.config.GetOr(DefaultConfig());
    var st1 := st.(config := Some(cfg));
    var w := Write(st1.c, Hello(cfg.methods));
    if w.result.Err? then Outcome(Some(w.result.error), st1.(c := w.s))
    else
      var rd := ReadFull(w.s, 2);
      if rd.result.Err? then Outcome(Some(rd.result.error), st1.(c := rd.s))
      else if rd.result.value[0] != Ver5 then Outcome(Some(BadVersion), st1.(c := rd.s))
      else Adopt(st1.(c := rd.s), cfg, rd.result.value[1])
  }

  /** `serverHandshake`, as a function of the state. */
  function ServerRun(codec: Codec, st: ConnState): Outcome {
    var cfg := st.config.GetOr(DefaultConfig());
    var st1 := st.(config := Some(cfg));
    var rm := ReadWith(st1.c, codec.readMethods);
    if rm.result.Err? then Outcome(Some(rm.result.error), st1.(c := rm.s))
    else
      var m := if cfg.selectMethod.Some? then cfg.selectMethod.value(rm.result.value) else MethodNoAuth;
      var w := Write(rm.s, [Ver5, m]);
      if w.result.Err? then Outcome(Some(w.result.error), st1.(c := w.s))
      else Adopt(st1.(c := w.s), cfg, m)
  }

  /** `Handleshake`, as a function of the state: a recorded error is
      returned again, a completed handshake is not redone, and otherwise the
      role's handshake runs and its error is recorded. */
  function Handshake(isClient: bool, codec: Codec, st: ConnState): Outcome {
    if st.handshakeErr.Some? then Outcome(st.handshakeErr, st)
    else if st.handshaked then Outcome(None, st)
    else
      var o := if isClient then ClientRun(st) else ServerRun(codec, st);
      Outcome(o.err, o.st.(handshakeErr := o.err))
  }

  // ---------------------------------------------------------------------
  // Properties of the handshake

  /** Running `Handleshake` again after it has run changes nothing and
      returns the same result, whether the first run succeeded or failed. */
  lemma HandshakeIdempotent(isClient: bool, codec: Codec, st: ConnState)
    ensures var o := Handshake(isClient, codec, st);
      Handshake(isClient, codec, o.st) == o
  {
  }

  /** A successful handshake leaves the connection marked handshaked with
      no recorded error; a failed one leaves it not handshaked with the
      error recorded (unless it had been done already). */
  lemma HandshakeRecords(isClient: bool, codec: Codec, st: ConnState)
    requires st.handshakeErr.None?
    ensures var o := Handshake(isClient, codec, st);
      && o.st.handshakeErr == o.err
      && (o.err.None? <==> o.st.handshaked)
  {
  }

  /** After a success, `Handleshake` returns nil and does no I/O. */
  lemma DoneHandshakeDoesNothing(isClient: bool, codec: Codec, st: ConnState)
    requires st.handshaked && st.handshakeErr.None?
    ensures Handshake(isClient, codec, st) == Outcome(None, st)
  {
  }

  /** After a failure, `Handleshake` returns the same error and does not
      run the protocol again. */
  lemma FailedHandshakeRepeats(isClient: bool, codec: Codec, st: ConnState)
    requires st.handshakeErr.Some?
    ensures Handshake(isClient, codec, st) == Outcome(st.handshakeErr, st)
  {
  }

  /** The client's first message: version 5, the count, the methods; an
      empty list is sent as the one method NoAuth. For up to 255 methods it
      is the method-negotiation message of the wire codec, and the
      reference reader finds in it the methods offered. */
  lemma HelloIsMethodsMessage(methods: seq<byte>)
    requires |methods| <= 255
    ensures Hello(methods) == MethodsMessage(if |methods| == 0 then [MethodNoAuth] else methods)
    ensures DecodeMethods(Hello(methods)) == Some(if |methods| == 0 then [MethodNoAuth] else methods)
  {
    MethodsMessageDecodes(if |methods| == 0 then [MethodNoAuth] else methods);
  }

  /** The count is converted to `uint8`: 256 configured methods are sent as
      a count of 0 followed by all 256 bytes, a message `DecodeMethods`
      rejects. */
  lemma {:induction false} HelloCountWraps(methods: seq<byte>)
    requires |methods| == 256
    ensures Hello(methods)[1] == 0 && |Hello(methods)| == 258
    ensures DecodeMethods(Hello(methods)) == None
  {
    assert Hello(methods) == [Ver5, 0] + methods;
  }

  /** A server whose reader trusts the count reads the 256-method hello as
      an empty method list and leaves the 256 method bytes unread. It
      answers with the method chosen for no methods; without a
      `MethodSelected` callback the handshake then succeeds, and with one
      the callback decides, on a stream still holding those 256 bytes. */
  lemma {:induction false} HelloCountWrapsOnStream(codec: Codec, st: ConnState, methods: seq<byte>, rest: seq<byte>)
    requires |methods| == 256
    requires st.c.input == Hello(methods) + rest && !st.c.readFails && !st.c.writeFails
    requires codec.readMethods(st.c.input) == ReadCountedMethods(st.c.input)
    ensures var o := ServerRun(codec, st);
      var cfg := st.config.GetOr(DefaultConfig());
      var m := if cfg.selectMethod.Some? then cfg.selectMethod.value([]) else MethodNoAuth;
      var answered := st.c.(input := methods + rest, output := st.c.output + [Ver5, m]);
      && (cfg.methodSelected.None? ==>
            o.err.None? && o.st.handshaked && o.st.authMethod == m && o.st.c == answered)
      && (cfg.methodSelected.Some? ==>
            var n := cfg.methodSelected.value(m, answered);
            && (o.err.None? <==> n.result.Ok?)
            && (n.result.Ok? ==> o.st.handshaked && o.st.authMethod == m && o.st.c == n.result.value))
  {
    var input := st.c.input;
    assert Hello(methods) == [Ver5, 0] + methods;
    assert input == [Ver5, 0] + (methods + rest);
    assert input[0] == Version5 && input[1] == 0 && input[2..] == methods + rest;
    assert input[2..2] == [];
  }

  /** The client writes `Hello` of its configured methods and then reads
      two bytes; a failed write means nothing is read. */
  lemma ClientWritesHello(st: ConnState)
    requires st.handshakeErr.None? && !st.handshaked
    ensures var o := ClientRun(st);
      var hello := Hello(st.config.GetOr(DefaultConfig()).methods);
      && (st.c.writeFails ==> o.err == Some(WriteFailure) && o.st.c == st.c)
      && (!st.c.writeFails && st.config.GetOr(DefaultConfig()).methodSelected.None? ==>
            o.st.c.output == st.c.output + hello
            && (st.c.readFails || |st.c.input| < 2 ==> o.err.Some?))
  {
  }

  /** A reply whose first byte is not 5 fails with ErrBadVersion and leaves
      the method unrecorded and the handshake not done. */
  lemma ClientRejectsBadVersion(st: ConnState)
    requires !st.c.writeFails && !st.c.readFails
    requires |st.c.input| >= 2 && st.c.input[0] != Ver5
    ensures var o := ClientRun(st);
      && o.err == Some(BadVersion)
      && o.st.authMethod == st.authMethod && o.st.handshaked == st.handshaked
      && o.st.c.input == st.c.input[2..]
  {
  }

  /** With a good reply `[5, m]`, the client records `m`. Without a
      callback the connection is kept; with one, a success replaces the
      connection by the one the callback returns, and a failure keeps the
      original and records nothing. */
  lemma ClientAdoptsReply(st: ConnState)
    requires !st.c.writeFails && !st.c.readFails
    requires |st.c.input| >= 2 && st.c.input[0] == Ver5
    ensures var o := ClientRun(st);
      var cfg := st.config.GetOr(DefaultConfig());
      var after := st.c.(output := st.c.output + Hello(cfg.methods), input := st.c.input[2..]);
      && (cfg.methodSelected.None? ==>
            o.err.None? && o.st.authMethod == st.c.input[1] && o.st.handshaked && o.st.c == after)
      && (cfg.methodSelected.Some? ==>
            var n := cfg.methodSelected.value(st.c.input[1], after);
            && (n.result.Ok? ==>
                  o.err.None? && o.st.authMethod == st.c.input[1] && o.st.handshaked
                  && o.st.c == n.result.value)
            && (n.result.Err? ==>
                  o.err == Some(n.result.error) && o.st.authMethod == st.authMethod
                  && o.st.handshaked == st.handshaked && o.st.c == n.origin
                  && (KeepsOrigin(cfg.methodSelected) ==> o.st.c.id == st.c.id)))
  {
  }

  /** `conn.c` is only reassigned after a successful callback: with a
      callback that keeps its origin, a failed handshake on either side
      leaves the connection the one it started with. */
  lemma FailureKeepsConnection(codec: Codec, st: ConnState)
    requires KeepsOrigin(st.config.GetOr(DefaultConfig()).methodSelected)
    ensures var o := ClientRun(st); o.err.Some? ==> o.st.c.id == st.c.id
    ensures var o := ServerRun(codec, st); o.err.Some? ==> o.st.c.id == st.c.id
  {
  }

  /** The server chooses NoAuth unless `SelectMethod` is set, then writes
      exactly `[5, method]` after reading the methods. A ReadMethods error
      means nothing is written. */
  lemma ServerAnswers(codec: Codec, st: ConnState)
    ensures var o := ServerRun(codec, st);
      var cfg := st.config.GetOr(DefaultConfig());
      var rm := ReadWith(st.c, codec.readMethods);
      && (rm.result.Err? ==> o.err == rm.result.ErrorOf() && o.st.c.output == st.c.output
                             && o.st.handshaked == st.handshaked)
      && (rm.result.Ok? && !st.c.writeFails && cfg.methodSelected.None? ==>
            var m := if cfg.selectMethod.Some? then cfg.selectMethod.value(rm.result.value) else MethodNoAuth;
            o.err.None? && o.st.authMethod == m && o.st.handshaked
            && o.st.c.output == st.c.output + [Ver5, m])
  {
  }

  /** On the server, a `MethodSelected` error leaves the method unrecorded
      and the handshake not done. */
  lemma ServerCallbackFailure(codec: Codec, st: ConnState)
    requires var cfg := st.config.GetOr(DefaultConfig());
      var rm := ReadWith(st.c, codec.readMethods);
      && rm.result.Ok? && !st.c.writeFails && cfg.methodSelected.Some?
    ensures var o := ServerRun(codec, st);
      var cfg := st.config.GetOr(DefaultConfig());
      var rm := ReadWith(st.c, codec.readMethods);
      var m := if cfg.selectMethod.Some? then cfg.selectMethod.value(rm.result.value) else MethodNoAuth;
      var n := cfg.methodSelected.value(m, rm.s.(output := rm.s.output + [Ver5, m]));
      n.result.Err? ==>
        o.err == Some(n.result.error) && o.st.authMethod == st.authMethod
        && o.st.handshaked == st.handshaked && o.st.c == n.origin
  {
  }

  /** On the server, a `MethodSelected` success replaces the connection
      with the one the callback returns, records the method and marks the
      handshake done; the callback is handed the connection after `[5, m]`
      has been written to it. */
  lemma ServerCallbackSuccess(codec: Codec, st: ConnState)
    requires var cfg := st.config.GetOr(DefaultConfig());
      var rm := ReadWith(st.c, codec.readMethods);
      && rm.result.Ok? && !st.c.writeFails && cfg.methodSelected.Some?
    ensures var o := ServerRun(codec, st);
      var cfg := st.config.GetOr(DefaultConfig());
      var rm := ReadWith(st.c, codec.readMethods);
      var m := if cfg.selectMethod.Some? then cfg.selectMethod.value(rm.result.value) else MethodNoAuth;
      var n := cfg.methodSelected.value(m, rm.s.(output := st.c.output + [Ver5, m]));
      n.result.Ok? ==>
        o.err.None? && o.st.authMethod == m && o.st.handshaked && o.st.c == n.result.value
  {
  }

  /** A connection built with no `Config` negotiates as `defaultConfig()`
      does: the client offers NoAuth alone, and the server answers NoAuth
      to any readable method list and completes the handshake. */
  lemma NoConfigMeansNoAuth(codec: Codec, client: Stream, server: Stream)
    requires !client.writeFails && !server.readFails && !server.writeFails
    requires codec.readMethods(server.input).result.Ok?
    ensures var co := ClientRun(Fresh(client, None));
      co.st.config == Some(DefaultConfig())
      && co.st.c.output == client.output + [Ver5, 1, MethodNoAuth]
    ensures var so := ServerRun(codec, Fresh(server, None));
      var rm := ReadWith(server, codec.readMethods);
      && so.err.None? && so.st.handshaked && so.st.authMethod == MethodNoAuth
      && so.st.c == rm.s.(output := server.output + [Ver5, MethodNoAuth])
  {
  }

  /** Two fresh connections without callbacks, where the server reads back
      the list the client sent and the client reads the server's answer,
      agree on the method: the one the server's `SelectMethod` picks from
      the offered list, or NoAuth. */
  lemma ClientAndServerAgree(codec: Codec, client: Stream, server: Stream, cfgC: Config, cfgS: Config)
    requires cfgC.methodSelected.None? && cfgS.methodSelected.None?
    requires !client.writeFails && !client.readFails && !server.writeFails && !server.readFails
    requires |cfgC.methods| <= 255
    requires server.input == Hello(cfgC.methods)
    requires codec.readMethods(Hello(cfgC.methods))
             == Parsed(Ok(if |cfgC.methods| == 0 then [MethodNoAuth] else cfgC.methods), |Hello(cfgC.methods)|)
    requires var so := ServerRun(codec, Fresh(server, Some(cfgS)));
      client.input == so.st.c.output[|server.output|..]
    ensures var so := ServerRun(codec, Fresh(server, Some(cfgS)));
      var co := ClientRun(Fresh(client, Some(cfgC)));
      var offered := if |cfgC.methods| == 0 then [MethodNoAuth] else cfgC.methods;
      && so.err.None? && co.err.None?
      && so.st.authMethod == co.st.authMethod
      && so.st.authMethod == (if cfgS.selectMethod.Some? then cfgS.selectMethod.value(offered) else MethodNoAuth)
      && co.st.c.output == client.output + Hello(cfgC.methods)
      && so.st.c.input == []
  {
    var so := ServerRun(codec, Fresh(server, Some(cfgS)));
    var offered := if |cfgC.methods| == 0 then [MethodNoAuth] else cfgC.methods;
    var m := if cfgS.selectMethod.Some? then cfgS.selectMethod.value(offered) else MethodNoAuth;
    assert so.st.c.output == server.output + [Ver5, m];
    assert client.input == [Ver5, m];
  }

  // ---------------------------------------------------------------------
  // The connection object

  /** The buffer `clientHandshake` sends: `2 + nm` zeroed bytes holding the
      version, the count as a `uint8` and a copy of the methods. */
  method HelloBuffer(methods: seq<byte>) returns (b: array<byte>)
    ensures fresh(b) && b[..] == Hello(methods)
  {
    var nm := |methods|;
    if nm == 0 {
      nm := 1;
    }
    b := new byte[2 + nm](_ => 0);
    b[0] := Ver5;
    b[1] := nm % 0x100;
    for i := 0 to |methods|
      invariant b[0] == Ver5 && b[1] == nm % 0x100
      invariant forall k :: 0 <= k < i ==> b[2 + k] == methods[k]
      invariant forall k :: 2 + i <= k < b.Length ==> b[k] == 0
    {
      b[2 + i] := methods[i];
    }
  }

  /** `Conn`. The codec supplies `ReadMethods`, which the server side uses. */
  class Conn {
    var c: Stream
    var config: Option<Config>
    var authMethod: byte
    const isClient: bool
    var handshaked: bool
    var handshakeErr: Option<Error>
    const codec: Codec

    function State(): ConnState
      reads this
    {
      ConnState(c, config, authMethod, handshaked, handshakeErr)
    }

    /** `ClientConn`. */
    constructor ClientConn(conn: Stream, config: Option<Config>, codec: Codec)
      ensures isClient && this.codec == codec
      ensures State() == Fresh(conn, config)
    {
      this.c := conn;
      this.config := config;
      this.authMethod := 0;
      this.isClient := true;
      this.handshaked := false;
      this.handshakeErr := None;
      this.codec := codec;
    }

    /** `ServerConn`. */
    constructor ServerConn(conn: Stream, config: Option<Config>, codec: Codec)
      ensures !isClient && this.codec == codec
      ensures State() == Fresh(conn, config)
    {
      this.c := conn;
      this.config := config;
      this.authMethod := 0;
      this.isClient := false;
      this.handshaked := false;
      this.handshakeErr := None;
      this.codec := codec;
    }

    /** `Handleshake`. */
    method Handleshake() returns (err: Option<Error>)
      modifies this
      ensures Outcome(err, State()) == Handshake(isClient, codec, old(State()))
    {
      if handshakeErr.Some? {
        return handshakeErr;
      }
      if handshaked {
        return None;
      }
      var e;
      if isClient {
        e := ClientHandshake();
      } else {
        e := ServerHandshake();
      }
      handshakeErr := e;
      return handshakeErr;
    }

    /** `clientHandshake`: builds the method list in a zeroed buffer of
        `2 + nm` bytes, writes it, reads the two-byte answer back into the
        same buffer and checks its version. */
    method ClientHandshake() returns (err: Option<Error>)
      modifies this
      ensures Outcome(err, State()) == ClientRun(old(State()))
    {
      if config.None? {
        config := Some(DefaultConfig());
      }
      var cfg := config.value;
      var b := HelloBuffer(cfg.methods);
      var w := Streams.Write(c, b[..]);
      c := w.s;
      if w.result.Err? {
        return Some(w.result.error);
      }
      var rd := ReadFull(c, 2);
      c := rd.s;
      if rd.result.Err? {
        return Some(rd.result.error);
      }
      b[0], b[1] := rd.result.value[0], rd.result.value[1];
      if b[0] != Ver5 {
        return Some(BadVersion);
      }
      if cfg.methodSelected.Some? {
        var n := cfg.methodSelected.value(b[1], c);
        if n.result.Err? {
          c := n.origin;
          return Some(n.result.error);
        }
        c := n.result.value;
      }
      authMethod := b[1];
      handshaked := true;
      return None;
    }

    /** `serverHandshake`. */
    method ServerHandshake() returns (err: Option<Error>)
      modifies this
      ensures Outcome(err, State()) == ServerRun(codec, old(State()))
    {
      if config.None? {
        config := Some(DefaultConfig());
      }
      var cfg := config.value;
      var rm := ReadWith(c, codec.readMethods);
      c := rm.s;
      if rm.result.Err? {
        return Some(rm.result.error);
      }
      var m := MethodNoAuth;
      if cfg.selectMethod.Some? {
        m := cfg.selectMethod.value(rm.result.value);
      }
      var w := Streams.Write(c, [Ver5, m]);
      c := w.s;
      if w.result.Err? {
        return Some(w.result.error);
      }
      if cfg.methodSelected.Some? {
        var n := cfg.methodSelected.value(m, c);
        if n.result.Err? {
          c := n.origin;
          return Some(n.result.error);
        }
        c := n.result.value;
      }
      authMethod := m;
      handshaked := true;
      return None;
    }

    /** `Read`: runs the handshake first; if it fails, its error is
        returned and nothing is read from the connection. */
    method Read(n: nat) returns (data: seq<byte>, err: Option<Error>)
      modifies this
      ensures var h := Handshake(isClient, codec, old(State()));
        if h.err.Some? then err == h.err && data == [] && State() == h.st
        else
          var r := ReadSome(h.st.c, n);
          && err == r.result.ErrorOf()
          && data == (if r.result.Ok? then r.result.value else [])
          && State() == h.st.(c := r.s)
    {
      err := Handleshake();
      if err.Some? {
        return [], err;
      }
      var r := ReadSome(c, n);
      c := r.s;
      data := if r.result.Ok? then r.result.value else [];
      err := r.result.ErrorOf();
    }

    /** `Write`: runs the handshake first; if it fails, its error is
        returned and nothing is written to the connection. */
    method Write(b: seq<byte>) returns (n: nat, err: Option<Error>)
      modifies this
      ensures var h := Handshake(isClient, codec, old(State()));
        if h.err.Some? then err == h.err && n == 0 && State() == h.st
        else
          var w := Streams.Write(h.st.c, b);
          && err == w.result.ErrorOf()
          && n == (if w.result.Ok? then |b| else 0)
          && State() == h.st.(c := w.s)
    {
      err := Handleshake();
      if err.Some? {
        return 0, err;
      }
      var w := Streams.Write(c, b);
      c := w.s;
      n := if w.result.Ok? then |b| else 0;
      err := w.result.ErrorOf();
    }

    /** A message reader of the package (ReadRequest, ReadUserPassRequest,
        ...) applied to the connection: its first `Read` runs the
        handshake, so a handshake error is what it returns. */
    method ReadMessage<T>(reader: seq<byte> -> Parsed<T>) returns (r: Result<T>)
      modifies this
      ensures var h := Handshake(isClient, codec, old(State()));
        if h.err.Some? then r == Err(h.err.value) && State() == h.st
        else
          var rd := ReadWith(h.st.c, reader);
          r == rd.result && State() == h.st.(c := rd.s)
    {
      var err := Handleshake();
      if err.Some? {
        return Err(err.value);
      }
      var rd := ReadWith(c, reader);
      c := rd.s;
      r := rd.result;
    }
  }
}
