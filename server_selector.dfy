/**
  server/selector.go: the server's method policy (username/password is
  mandatory as soon as users are configured) and the username/password
  subnegotiation it runs once that method is chosen.
 */
module ServerSelection {
  import opened Base
  import opened Streams
  import opened Messages
  import opened Socks5
  import SocksConn

  /** The three ways a configured user accepts a request: both fields
      equal; the username equal and no password configured; or no username
      configured and the password equal. */
  predicate Matches(u: UserInfo, req: UserPassRequest) {
    || (req.username == u.username && req.password == u.Password())
    || (req.username == u.username && u.Password() == "")
    || (u.username == "" && req.password == u.Password())
  }

  /** Some configured user accepts the request. */
  predicate Admitted(users: seq<UserInfo>, req: UserPassRequest) {
    exists i :: 0 <= i < |users| && Matches(users[i], req)
  }

  /** The method the server picks: UserPass when users are configured,
      NoAuth otherwise; the offered list plays no part. */
  function Choice(users: seq<UserInfo>): byte {
    if |users| > 0 then MethodUserPass else MethodNoAuth
  }

  /** The UserPassResponse the server writes with the given status. */
  function Response(codec: Codec, status: byte): seq<byte> {
    codec.encodeUserPassResponse(UserPassResponse(codec.userPassVer, status))
  }

  /** `OnSelected` as a function of the configured users and the
      connection. */
  function Admit(codec: Codec, users: seq<UserInfo>, m: byte, conn: Stream): SocksConn.Negotiation {
    if m == MethodUserPass then
      var rq := ReadWith(conn, codec.readUserPassRequest);
      if rq.result.Err? then SocksConn.Negotiation(rq.s, Err(rq.result.error))
      else if |users| > 0 && !Admitted(users, rq.result.value) then
        var w := Write(rq.s, Response(codec, Failure));
        SocksConn.Negotiation(w.s, Err(if w.result.Err? then w.result.error else AuthFailure))
      else
        var w := Write(rq.s, Response(codec, Succeeded));
        if w.result.Err? then SocksConn.Negotiation(w.s, Err(w.result.error))
        else SocksConn.Negotiation(w.s, Ok(w.s))
    else if m == MethodNoAcceptable then SocksConn.Negotiation(conn, Err(BadMethod))
    else SocksConn.Negotiation(conn, Ok(conn))
  }

  /** The policy as a handshake configuration: the configured methods to
      offer, `Select` as SelectMethod and `OnSelected` as MethodSelected. */
  function AsConfig(codec: Codec, methods: seq<byte>, users: seq<UserInfo>): SocksConn.Config {
    SocksConn.Config(methods, Some((offered: seq<byte>) => Choice(users)), Some((m: byte, c: Stream) => Admit(codec, users, m, c)))
  }

  // ---------------------------------------------------------------------
  // Properties of the policy

  /** A request ("alice", "") is rejected when the only configured user is
      ("alice", "secret"): none of the three rules applies, whatever the
      subnegotiation version byte says. */
  lemma EmptyPasswordIsNotAWildcard(version: byte)
    ensures !Admitted([UserInfo("alice", Some("secret"))], UserPassRequest(version, "alice", ""))
  {
    var u := UserInfo("alice", Some("secret"));
    assert u.Password() == "secret";
    assert "" != "secret";
    assert "alice" != "";
  }

  /** A configured user with no password accepts every request carrying
      that username, and one with no username accepts every request
      carrying that password. */
  lemma EmptyFieldsAreWildcards(users: seq<UserInfo>, i: nat, req: UserPassRequest)
    requires i < |users|
    ensures users[i].Password() == "" && req.username == users[i].username ==> Admitted(users, req)
    ensures users[i].username == "" && req.password == users[i].Password() ==> Admitted(users, req)
  {
    if (users[i].Password() == "" && req.username == users[i].username)
       || (users[i].username == "" && req.password == users[i].Password()) {
      assert Matches(users[i], req);
    }
  }

  /** Adding users never turns an accepted request away. */
  lemma AdmittedMonotone(users: seq<UserInfo>, more: seq<UserInfo>, req: UserPassRequest)
    requires Admitted(users, req)
    ensures Admitted(users + more, req) && Admitted(more + users, req)
  {
    var i :| 0 <= i < |users| && Matches(users[i], req);
    assert (users + more)[i] == users[i];
    assert (more + users)[|more| + i] == users[i];
  }

  /** Whatever happens, the selector never replaces the connection: on
      success it hands back the connection it was given, after its own
      I/O. */
  lemma AdmitKeepsConnection(codec: Codec, users: seq<UserInfo>, m: byte, conn: Stream)
    ensures var n := Admit(codec, users, m, conn);
      n.result.Ok? ==> n.result.value == n.origin && n.origin.id == conn.id
  {
  }

  /** The policy's callback keeps its origin: whatever it reads and writes,
      it reports the connection it was given. */
  lemma AsConfigKeepsOrigin(codec: Codec, methods: seq<byte>, users: seq<UserInfo>)
    ensures SocksConn.KeepsOrigin(AsConfig(codec, methods, users).methodSelected)
  {
  }

  /** With no users configured, every readable UserPass request is answered
      Succeeded and the connection is handed back. */
  lemma NoUsersAdmitsAll(codec: Codec, conn: Stream)
    requires !conn.readFails && !conn.writeFails
    requires codec.readUserPassRequest(conn.input).result.Ok?
    ensures var n := Admit(codec, [], MethodUserPass, conn);
      var rq := ReadWith(conn, codec.readUserPassRequest);
      && n.result == Ok(n.origin)
      && n.origin == rq.s.(output := conn.output + Response(codec, Succeeded))
  {
  }

  /** With users configured and a request none of them accepts, a Failure
      response is written and the negotiation fails with ErrAuthFailure
      (or with the write error, if that response cannot be written). A
      request that one of them accepts gets a Succeeded response. */
  lemma UsersDecide(codec: Codec, users: seq<UserInfo>, conn: Stream)
    requires |users| > 0 && !conn.readFails
    requires codec.readUserPassRequest(conn.input).result.Ok?
    ensures var req := codec.readUserPassRequest(conn.input).result.value;
      var n := Admit(codec, users, MethodUserPass, conn);
      var rq := ReadWith(conn, codec.readUserPassRequest);
      && (!Admitted(users, req) ==>
            && n.result.Err?
            && (conn.writeFails ==> n.result.error == WriteFailure && n.origin == rq.s)
            && (!conn.writeFails ==>
                  n.result.error == AuthFailure && n.origin.output == conn.output + Response(codec, Failure)))
      && (Admitted(users, req) && !conn.writeFails ==>
            n.result.Ok? && n.origin.output == conn.output + Response(codec, Succeeded))
  {
  }

  /** A UserPass request that cannot be read fails the negotiation with
      that error and nothing is written. */
  lemma UnreadableRequestWritesNothing(codec: Codec, users: seq<UserInfo>, conn: Stream)
    requires conn.readFails || codec.readUserPassRequest(conn.input).result.Err?
    ensures var n := Admit(codec, users, MethodUserPass, conn);
      n.result.Err? && n.origin.output == conn.output
  {
  }

  /** NoAcceptable fails with ErrBadMethod, and every method other than
      UserPass and NoAcceptable is accepted; in both cases nothing is read
      or written. */
  lemma OtherMethodsDoNoIo(codec: Codec, users: seq<UserInfo>, m: byte, conn: Stream)
    requires m != MethodUserPass
    ensures var n := Admit(codec, users, m, conn);
      && n.origin == conn
      && (m == MethodNoAcceptable <==> n.result == Err(BadMethod))
      && (m != MethodNoAcceptable <==> n.result == Ok(conn))
  {
  }

  /** A server connection configured with this policy and at least one
      user only completes its handshake on UserPass, after reading a
      request that a configured user accepts. */
  lemma AuthIsMandatory(codec: Codec, methods: seq<byte>, users: seq<UserInfo>, conn: Stream)
    requires |users| > 0
    ensures var o := SocksConn.ServerRun(codec, SocksConn.Fresh(conn, Some(AsConfig(codec, methods, users))));
      var rm := ReadWith(conn, codec.readMethods);
      var sent := rm.s.(output := rm.s.output + [Ver5, MethodUserPass]);
      var rq := ReadWith(sent, codec.readUserPassRequest);
      o.err.None? ==>
        && o.st.authMethod == MethodUserPass
        && rq.result.Ok? && Admitted(users, rq.result.value)
  {
  }

  /** A server connection configured with this policy and no users
      answers NoAuth to any readable method list and completes its
      handshake on the same connection, with `[5, NoAuth]` written. */
  lemma NoUsersMeansNoAuth(codec: Codec, methods: seq<byte>, conn: Stream)
    requires !conn.readFails && !conn.writeFails
    requires codec.readMethods(conn.input).result.Ok?
    ensures var o := SocksConn.ServerRun(codec, SocksConn.Fresh(conn, Some(AsConfig(codec, methods, []))));
      var rm := ReadWith(conn, codec.readMethods);
      && o.err.None? && o.st.handshaked && o.st.authMethod == MethodNoAuth
      && o.st.c == rm.s.(output := conn.output + [Ver5, MethodNoAuth])
  {
  }

  /** With users configured, a server whose method reader trusts the count
      answers UserPass to a 256-method hello, and the 256 method bytes it
      left unread are what the credentials reader receives: the handshake
      only succeeds if a configured user accepts the request read from
      them. */
  lemma WrappedHelloReachesAuth(codec: Codec, methods: seq<byte>, users: seq<UserInfo>,
                                conn: Stream, offered: seq<byte>, rest: seq<byte>)
    requires |users| > 0 && |offered| == 256
    requires conn.input == SocksConn.Hello(offered) + rest && !conn.readFails && !conn.writeFails
    requires codec.readMethods(conn.input) == ReadCountedMethods(conn.input)
    ensures var o := SocksConn.ServerRun(codec, SocksConn.Fresh(conn, Some(AsConfig(codec, methods, users))));
      var rq := codec.readUserPassRequest(offered + rest);
      o.err.None? ==> rq.result.Ok? && Admitted(users, rq.result.value)
  {
    SocksConn.HelloCountWrapsOnStream(codec, SocksConn.Fresh(conn, Some(AsConfig(codec, methods, users))), offered, rest);
  }

  // ---------------------------------------------------------------------
  // The selector object

  /** `serverSelector`. */
  class ServerSelector {
    var methods: seq<byte>
    var users: seq<UserInfo>

    /** The composite literal `&serverSelector{...}`. */
    constructor (methods: seq<byte>, users: seq<UserInfo>)
      ensures this.methods == methods && this.users == users
    {
      this.methods := methods;
      this.users := users;
    }

    /** `Methods`. */
    method Methods() returns (ms: seq<byte>)
      ensures ms == methods
    {
      return methods;
    }

    /** `AddMethod`: appends in order; the users are untouched. */
    method AddMethod(ms: seq<byte>)
      modifies this
      ensures methods == old(methods) + ms
      ensures users == old(users)
    {
      methods := methods + ms;
    }

    /** `Select`: UserPass exactly when users are configured, otherwise
        NoAuth, whatever the client offered. */
    method Select(offered: seq<byte>) returns (m: byte)
      ensures m == MethodUserPass <==> |users| > 0
      ensures m == MethodNoAuth <==> |users| == 0
    {
      m := MethodNoAuth;
      if |users| > 0 {
        m := MethodUserPass;
      }
    }

    /** `OnSelected`: for UserPass, reads the request, looks for the first
        configured user that accepts it and writes the response. */
    method OnSelected(codec: Codec, m: byte, conn: Stream) returns (n: SocksConn.Negotiation)
      ensures n == Admit(codec, users, m, conn)
    {
      if m == MethodUserPass {
        var rq := ReadWith(conn, codec.readUserPassRequest);
        if rq.result.Err? {
          return SocksConn.Negotiation(rq.s, Err(rq.result.error));
        }
        var req := rq.result.value;
        var valid := false;
        var i := 0;
        while i < |users|
          invariant 0 <= i <= |users|
          invariant forall j :: 0 <= j < i ==> !Matches(users[j], req)
        {
          if Matches(users[i], req) {
            valid := true;
            break;
          }
          i := i + 1;
        }
        assert valid <==> Admitted(users, req);
        if |users| > 0 && !valid {
          var w := Write(rq.s, Response(codec, Failure));
          if w.result.Err? {
            return SocksConn.Negotiation(w.s, Err(w.result.error));
          }
          return SocksConn.Negotiation(w.s, Err(AuthFailure));
        }
        var w := Write(rq.s, Response(codec, Succeeded));
        if w.result.Err? {
          return SocksConn.Negotiation(w.s, Err(w.result.error));
        }
        return SocksConn.Negotiation(w.s, Ok(w.s));
      } else if m == MethodNoAcceptable {
        return SocksConn.Negotiation(conn, Err(BadMethod));
      }
      return SocksConn.Negotiation(conn, Ok(conn));
    }

    /** The selector as the configuration of a server connection. */
    function Config(codec: Codec): (cfg: SocksConn.Config)
      reads this
      ensures cfg.methods == methods
      ensures cfg.selectMethod.Some? && cfg.methodSelected.Some?
      ensures forall offered :: cfg.selectMethod.value(offered) == MethodUserPass <==> |users| > 0
    {
      AsConfig(codec, methods, users)
    }
  }
}
