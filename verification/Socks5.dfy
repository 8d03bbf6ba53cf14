/** The SOCKS5 client of the proxy support against the SOCKS5 server of the comparison
    tools, over two byte streams: sections 3 to 6 of RFC 1928 and section 2 of RFC 1929. */
module Socks5 {
  type Byte = x: int | 0 <= x < 256

  type Bytes = seq<Byte>

  /** What std::stoul makes of the port text; a number is a 64-bit word. */
  datatype Port = NotANumber | Number(value: nat)

  /** host, port, user, password: the client's arguments;
      auth:   whether the server expects credentials;
      dialOk: whether the server reaches the target. */
  datatype Setup = Setup(host: Bytes, port: Port, user: Bytes, password: Bytes, auth: bool, dialOk: bool)

  const USER: Bytes := [117, 115, 101, 114]
  const PASS: Bytes := [112, 97, 115, 115]

  // ---------------------------------------------------------------------------
  // Messages
  // ---------------------------------------------------------------------------

  /** The low eight bits of a length. */
  function Low(n: nat): Byte {
    n % 256
  }

  function BigEndian(high: Byte, low: Byte): nat {
    (high as nat) * 256 + low as nat
  }

  function Greeting(s: Setup): Bytes {
    if s.user != [] || s.password != [] then [5, 1, 2] else [5, 1, 0]
  }

  function Credentials(s: Setup): Bytes {
    [1, Low(|s.user|)] + s.user + [Low(|s.password|)] + s.password
  }

  /** The port as the client casts it to 32 bits. */
  function Truncated(s: Setup): nat {
    if s.port.Number? then s.port.value % 0x1_0000_0000 else 0
  }

  predicate Connectable(s: Setup) {
    |s.host| <= 255 && s.port.Number? && Truncated(s) <= 65535
  }

  function Request(s: Setup): Bytes {
    [5, 1, 0, 3, Low(|s.host|)] + s.host + [Low(Truncated(s) / 256), Low(Truncated(s))]
  }

  // ---------------------------------------------------------------------------
  // The two parties
  // ---------------------------------------------------------------------------

  datatype Client =
    | Begin
    | AwaitMethod
    | AwaitAuth
    | AwaitReply
    | AwaitLength
    | AwaitAddress(size: nat)
    | Connected
    | Failed

  /** What the server has read so far is kept in its fields. */
  datatype Server =
    | Hello
    | Methods(count: nat)
    | AuthHead
    | AuthUser(size: nat)
    | AuthPassLength(user: Bytes)
    | AuthPass(user: Bytes, size: nat)
    | RequestHead
    | Address(size: nat)
    | NameLength
    | Name(size: nat)
    | PortBytes(host: Bytes)
    | Tunnel(host: Bytes, port: nat)
    | Closed

  /** toServer, toClient: bytes written and not yet read;
      login: the credentials the server has decoded. */
  datatype Net = Net(client: Client, server: Server, toServer: Bytes, toClient: Bytes, login: seq<(Bytes, Bytes)>)

  datatype Event = ClientRuns | ServerRuns

  const START := Net(Begin, Hello, [], [], [])

  /** Sends the request, or fails on a host or port it cannot send. */
  function SendRequest(s: Setup, n: Net): Net {
    if Connectable(s) then n.(client := AwaitReply, toServer := n.toServer + Request(s))
    else n.(client := Failed)
  }

  /** How many bytes the client's next read takes. */
  function ClientNeeds(c: Client): nat {
    match c
    case AwaitMethod => 2
    case AwaitAuth => 2
    case AwaitReply => 4
    case AwaitLength => 1
    case AwaitAddress(size) => size
    case _ => 0
  }

  function OnMethod(s: Setup, n: Net, version: Byte, choice: Byte): Net {
    if version != 5 || choice == 255 then n.(client := Failed)
    else if choice == 2 then
      if |s.user| > 255 || |s.password| > 255 then n.(client := Failed)
      else n.(client := AwaitAuth, toServer := n.toServer + Credentials(s))
    else if choice == 0 then SendRequest(s, n)
    else n.(client := Failed)
  }

  function OnReply(n: Net, r: Bytes): Net
    requires |r| == 4
  {
    if r[0] != 5 || r[1] != 0 then n.(client := Failed)
    else if r[3] == 1 then n.(client := AwaitAddress(4 + 2))
    else if r[3] == 3 then n.(client := AwaitLength)
    else if r[3] == 4 then n.(client := AwaitAddress(16 + 2))
    else n.(client := Failed)
  }

  /** One read of the client and what follows it; a read waits for its bytes, and fails
      when the server has closed without them. */
  function StepClient(s: Setup, n: Net): Net {
    var k := ClientNeeds(n.client);
    if |n.toClient| < k then (if n.server.Closed? then n.(client := Failed) else n)
    else
      var r := n.toClient[..k];
      var n' := n.(toClient := n.toClient[k..]);
      match n.client
      case Begin => n.(client := AwaitMethod, toServer := n.toServer + Greeting(s))
      case AwaitMethod => OnMethod(s, n', r[0], r[1])
      case AwaitAuth => if r[0] != 1 || r[1] != 0 then n'.(client := Failed) else SendRequest(s, n')
      case AwaitReply => OnReply(n', r)
      case AwaitLength => n'.(client := AwaitAddress(r[0] as nat + 2))
      case AwaitAddress(_) => n'.(client := Connected)
      case _ => n
  }

  function ServerNeeds(v: Server): nat {
    match v
    case Hello => 2
    case Methods(count) => count
    case AuthHead => 2
    case AuthUser(size) => size
    case AuthPassLength(_) => 1
    case AuthPass(_, size) => size
    case RequestHead => 4
    case Address(size) => size
    case NameLength => 1
    case Name(size) => size
    case PortBytes(_) => 2
    case _ => 0
  }

  function Reply(code: Byte): Bytes {
    [5, code, 0, 1, 0, 0, 0, 0, 0, 0]
  }

  function OnRequest(n: Net, r: Bytes): Net
    requires |r| == 4
  {
    if r[0] != 5 || r[1] != 1 then n.(server := Closed)
    else if r[3] == 1 then n.(server := Address(4))
    else if r[3] == 3 then n.(server := NameLength)
    else if r[3] == 4 then n.(server := Address(16))
    else n.(server := Closed, toClient := n.toClient + Reply(8))
  }

  function OnLogin(n: Net, user: Bytes, password: Bytes): Net {
    var n' := n.(login := n.login + [(user, password)]);
    if user == USER && password == PASS then n'.(server := RequestHead, toClient := n.toClient + [1, 0])
    else n'.(server := Closed, toClient := n.toClient + [1, 1])
  }

  function OnPort(s: Setup, n: Net, host: Bytes, port: nat): Net {
    if s.dialOk then n.(server := Tunnel(host, port), toClient := n.toClient + Reply(0))
    else n.(server := Closed, toClient := n.toClient + Reply(5))
  }

  /** One read of the server and what follows it. */
  function StepServer(s: Setup, n: Net): Net {
    var k := ServerNeeds(n.server);
    if |n.toServer| < k then (if n.client.Failed? then n.(server := Closed) else n)
    else
      var r := n.toServer[..k];
      var n' := n.(toServer := n.toServer[k..]);
      match n.server
      case Hello => n'.(server := if r[0] != 5 then Closed else Methods(r[1]))
      case Methods(_) =>
        if s.auth then n'.(server := AuthHead, toClient := n.toClient + [5, 2])
        else n'.(server := RequestHead, toClient := n.toClient + [5, 0])
      case AuthHead => n'.(server := AuthUser(r[1]))
      case AuthUser(_) => n'.(server := AuthPassLength(r))
      case AuthPassLength(user) => n'.(server := AuthPass(user, r[0]))
      case AuthPass(user, _) => OnLogin(n', user, r)
      case RequestHead => OnRequest(n', r)
      case Address(_) => n'.(server := PortBytes(r))
      case NameLength => n'.(server := Name(r[0]))
      case Name(_) => n'.(server := PortBytes(r))
      case PortBytes(host) => OnPort(s, n', host, BigEndian(r[0], r[1]))
      case _ => n
  }

  function NextNet(s: Setup): (Net, Event) -> Net {
    (n: Net, e: Event) => if e.ClientRuns? then StepClient(s, n) else StepServer(s, n)
  }

  // ---------------------------------------------------------------------------
  // Building the messages
  // ---------------------------------------------------------------------------

  method BuildCredentials(s: Setup) returns (auth: Bytes)
    ensures auth == Credentials(s)
  {
    auth := [1];
    auth := auth + [Low(|s.user|)];
    auth := auth + s.user;
    auth := auth + [Low(|s.password|)];
    auth := auth + s.password;
  }

  method BuildRequest(s: Setup) returns (connect: Bytes)
    ensures connect == Request(s)
  {
    var port := Truncated(s);
    connect := [5, 1, 0, 3];
    connect := connect + [Low(|s.host|)];
    connect := connect + s.host;
    connect := connect + [Low(port / 256)];
    connect := connect + [Low(port)];
  }
}
