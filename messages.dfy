/**
  The messages the protocol engine exchanges beyond the method list and the
  command layout: addresses, requests, replies and the username/password
  subnegotiation. Their readers and writers are used by the engine but
  their byte layouts are not part of this model, so a `Codec` value supplies
  them: one parser and one encoder per message kind, and the
  subnegotiation version byte.
 */
module Messages {
  import opened Base
  import opened Streams

  /** gosocks5.Addr: the address type, the host as text and the port. */
  datatype Addr = Addr(atype: byte, host: string, port: uint16)

  /** gosocks5.Request: a command and its target address. */
  datatype Request = Request(cmd: byte, addr: Addr)

  /** gosocks5.Reply: a reply code and an optional bound address (nil when
      the handler passes none). */
  datatype Reply = Reply(rep: byte, addr: Option<Addr>)

  /** The username/password subnegotiation request of RFC 1929. */
  datatype UserPassRequest = UserPassRequest(version: byte, username: string, password: string)

  /** The username/password subnegotiation response of RFC 1929. */
  datatype UserPassResponse = UserPassResponse(version: byte, status: byte)

  /** url.Userinfo: a username and a password that may be unset. */
  datatype UserInfo = UserInfo(username: string, password: Option<string>) {
    /** `user.Password()` with its "is set" flag dropped: "" when unset. */
    function Password(): string {
      password.GetOr("")
    }
  }

  /** The message readers and writers of the gosocks5 package: ReadMethods,
      ReadRequest, ReadReply, ReadUserPassRequest, ReadUserPassResponse and
      the Write methods of Request, Reply, UserPassRequest and
      UserPassResponse, with the constant UserPassVer. */
  datatype Codec = Codec(
    userPassVer: byte,
    readMethods: seq<byte> -> Parsed<seq<byte>>,
    readRequest: seq<byte> -> Parsed<Request>,
    readReply: seq<byte> -> Parsed<Reply>,
    readUserPassRequest: seq<byte> -> Parsed<UserPassRequest>,
    readUserPassResponse: seq<byte> -> Parsed<UserPassResponse>,
    encodeRequest: Request -> seq<byte>,
    encodeReply: Reply -> seq<byte>,
    encodeUserPassRequest: UserPassRequest -> seq<byte>,
    encodeUserPassResponse: UserPassResponse -> seq<byte>)
}
