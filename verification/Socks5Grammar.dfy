/** Each party alone against any bytes: which conversations the client takes for a tunnel, and
    what the server answers. */
module Socks5Grammar {
  import opened Socks5

  // ---------------------------------------------------------------------------
  // What the client sends
  // ---------------------------------------------------------------------------

  /** One method: credentials if there are any, else none. */
  function Offer(s: Setup): Bytes {
    [5, 1, if s.user == [] && s.password == [] then 0 else 2]
  }

  predicate SendsLogin(s: Setup) {
    |s.user| < 256 && |s.password| < 256
  }

  /** Section 2 of RFC 1929. */
  function LoginMessage(s: Setup): Bytes
    requires SendsLogin(s)
  {
    [1, |s.user|] + s.user + [|s.password|] + s.password
  }

  /** The number that the client checks and sends: its low 32 bits. */
  function PortNumber(s: Setup): nat
    requires s.port.Number?
  {
    s.port.value % 4294967296
  }

  predicate SendsConnect(s: Setup) {
    |s.host| < 256 && s.port.Number? && PortNumber(s) < 65536
  }

  /** Section 4 of RFC 1928, with a domain name. */
  function ConnectMessage(s: Setup): Bytes
    requires SendsConnect(s)
  {
    [5, 1, 0, 3, |s.host|] + s.host + [PortNumber(s) / 256, PortNumber(s) % 256]
  }

  lemma MessagesAsWritten(s: Setup)
    ensures Greeting(s) == Offer(s)
    ensures SendsLogin(s) ==> Credentials(s) == LoginMessage(s)
    ensures Connectable(s) == SendsConnect(s)
    ensures SendsConnect(s) ==> Request(s) == ConnectMessage(s)
  {
  }

  // ---------------------------------------------------------------------------
  // What the client understands
  // ---------------------------------------------------------------------------

  /** The bytes that agree on a method: none, or a login that is accepted. */
  predicate Agrees(s: Setup, input: Bytes, used: nat) {
    || (used == 2 && |input| >= 2 && input[..2] == [5, 0])
    || (used == 4 && |input| >= 4 && input[..4] == [5, 2, 1, 0] && SendsLogin(s))
  }

  /** A reply of success with an address of version 4 or 6 or a name, whatever it is. */
  predicate Confirms(reply: Bytes, used: nat) {
    && |reply| >= 5 && reply[0] == 5 && reply[1] == 0 && used <= |reply|
    && (|| (reply[3] == 1 && used == 4 + 4 + 2)
        || (reply[3] == 4 && used == 4 + 16 + 2)
        || (reply[3] == 3 && used == 4 + 1 + reply[4] as nat + 2))
  }

  /** The conversation up to `used` gives the client its tunnel. */
  predicate Accepts(s: Setup, input: Bytes, agreed: nat, used: nat) {
    Agrees(s, input, agreed) && SendsConnect(s) && agreed <= used && Confirms(input[agreed..], used - agreed)
  }

  function Steps(s: Setup, n: Net, k: nat): Net
    decreases k
  {
    if k == 0 then n else Steps(s, StepClient(s, n), k - 1)
  }

  lemma {:induction false} Over(s: Setup, n: Net, k: nat)
    requires n.client.Failed? || n.client.Connected?
    ensures Steps(s, n, k) == n
  {
    if k > 0 {
      Over(s, n, k - 1);
    }
  }

  /** The client waits with these bytes still to come, and the server is gone. */
  function Left(client: Client, sent: Bytes, input: Bytes): Net {
    Net(client, Closed, sent, input, [])
  }

  lemma AddressRead(s: Setup, sent: Bytes, input: Bytes, size: nat)
    ensures var n := StepClient(s, Left(AwaitAddress(size), sent, input));
            n == if size <= |input| then Left(Connected, sent, input[size..]) else Left(Failed, sent, input)
  {
  }

  lemma LengthRead(s: Setup, sent: Bytes, input: Bytes)
    ensures var n := StepClient(s, Left(AwaitLength, sent, input));
            n == if input != [] then Left(AwaitAddress(input[0] as nat + 2), sent, input[1..])
                 else Left(Failed, sent, input)
  {
  }

  lemma ReplyRead(s: Setup, sent: Bytes, input: Bytes)
    ensures var n := StepClient(s, Left(AwaitReply, sent, input));
            if |input| < 4 then n == Left(Failed, sent, input)
            else
              n == Left(if input[0] != 5 || input[1] != 0 then Failed
                        else if input[3] == 1 then AwaitAddress(6)
                        else if input[3] == 3 then AwaitLength
                        else if input[3] == 4 then AwaitAddress(18) else Failed, sent, input[4..])
  {
  }

  /** After the request the client ends, connected exactly if the reply confirms it, and then
      with all of the reply read and nothing more. */
  lemma ReplyEnds(s: Setup, sent: Bytes, input: Bytes, k: nat)
    requires k >= 3
    ensures var n := Steps(s, Left(AwaitReply, sent, input), k);
            && n.toServer == sent && (n.client.Connected? || n.client.Failed?)
            && (n.client.Connected? <==> exists used: nat :: Confirms(input, used))
            && (forall used: nat :: Confirms(input, used) ==> n.toClient == input[used..])
  {
    ReplyRead(s, sent, input);
    var n1 := StepClient(s, Left(AwaitReply, sent, input));
    if n1.client.Failed? {
      Over(s, n1, k - 1);
    } else if n1.client.AwaitLength? {
      NameEnds(s, sent, input, k);
    } else {
      AddressEnds(s, sent, input, n1.client.size, k);
    }
  }

  lemma AddressEnds(s: Setup, sent: Bytes, input: Bytes, size: nat, k: nat)
    requires k >= 3 && |input| >= 4 && input[0] == 5 && input[1] == 0
    requires (input[3] == 1 && size == 6) || (input[3] == 4 && size == 18)
    ensures var n := Steps(s, Left(AwaitReply, sent, input), k);
            && n.toServer == sent && (n.client.Connected? || n.client.Failed?)
            && (n.client.Connected? <==> exists used: nat :: Confirms(input, used))
            && (forall used: nat :: Confirms(input, used) ==> n.toClient == input[used..])
  {
    ReplyRead(s, sent, input);
    AddressRead(s, sent, input[4..], size);
    var n2 := StepClient(s, Left(AwaitAddress(size), sent, input[4..]));
    Over(s, n2, k - 2);
    assert Steps(s, Left(AwaitAddress(size), sent, input[4..]), k - 1) == Steps(s, n2, k - 2);
    if 4 + size <= |input| {
      assert Confirms(input, 4 + size);
      assert input[4..][size..] == input[4 + size..];
    }
  }

  lemma NameEnds(s: Setup, sent: Bytes, input: Bytes, k: nat)
    requires k >= 3 && |input| >= 4 && input[0] == 5 && input[1] == 0 && input[3] == 3
    ensures var n := Steps(s, Left(AwaitReply, sent, input), k);
            && n.toServer == sent && (n.client.Connected? || n.client.Failed?)
            && (n.client.Connected? <==> exists used: nat :: Confirms(input, used))
            && (forall used: nat :: Confirms(input, used) ==> n.toClient == input[used..])
  {
    ReplyRead(s, sent, input);
    LengthRead(s, sent, input[4..]);
    var n2 := StepClient(s, Left(AwaitLength, sent, input[4..]));
    assert Steps(s, Left(AwaitLength, sent, input[4..]), k - 1) == Steps(s, n2, k - 2);
    if |input| == 4 {
      Over(s, n2, k - 2);
    } else {
      var size := input[4] as nat + 2;
      assert input[4..][1..] == input[5..] && input[4..][0] == input[4];
      AddressRead(s, sent, input[5..], size);
      var n3 := StepClient(s, n2);
      Over(s, n3, k - 3);
      assert Steps(s, n2, k - 2) == Steps(s, n3, k - 3);
      if 5 + size <= |input| {
        assert Confirms(input, 5 + size);
        assert input[5..][size..] == input[5 + size..];
      }
    }
  }

  lemma MethodRead(s: Setup, sent: Bytes, input: Bytes)
    ensures var n := StepClient(s, Left(AwaitMethod, sent, input));
            if |input| < 2 then n == Left(Failed, sent, input)
            else if input[..2] == [5, 2] && SendsLogin(s) then
              n == Left(AwaitAuth, sent + LoginMessage(s), input[2..])
            else if input[..2] == [5, 0] && SendsConnect(s) then
              n == Left(AwaitReply, sent + ConnectMessage(s), input[2..])
            else n == Left(Failed, sent, input[2..])
  {
    MessagesAsWritten(s);
  }

  lemma LoginRead(s: Setup, sent: Bytes, input: Bytes)
    ensures var n := StepClient(s, Left(AwaitAuth, sent, input));
            if |input| < 2 then n == Left(Failed, sent, input)
            else if input[..2] == [1, 0] && SendsConnect(s) then
              n == Left(AwaitReply, sent + ConnectMessage(s), input[2..])
            else n == Left(Failed, sent, input[2..])
  {
    MessagesAsWritten(s);
  }

  /** What the client has sent when it is connected. */
  function AllSent(s: Setup, agreed: nat): Bytes
    requires SendsConnect(s) && (agreed == 4 ==> SendsLogin(s))
  {
    if agreed == 4 then Offer(s) + LoginMessage(s) + ConnectMessage(s) else Offer(s) + ConnectMessage(s)
  }

  /** How the client ends on these bytes. */
  ghost predicate EndsWell(s: Setup, input: Bytes, n: Net) {
    && (n.client.Connected? || n.client.Failed?)
    && (n.client.Connected? <==> exists agreed: nat, used: nat :: Accepts(s, input, agreed, used))
    && (forall agreed: nat, used: nat :: Accepts(s, input, agreed, used) ==>
          n.toClient == input[used..] && n.toServer == AllSent(s, agreed))
  }

  lemma OneAgreement(s: Setup, input: Bytes, a: nat, b: nat)
    requires Agrees(s, input, a) && Agrees(s, input, b)
    ensures a == b
  {
    assert |input| >= 2 ==> input[..2][1] == input[1];
    assert |input| >= 4 ==> input[..4][1] == input[1];
  }

  /** The reply after `a` bytes decides. */
  lemma AfterAgreement(s: Setup, input: Bytes, a: nat, k: nat)
    requires Agrees(s, input, a) && SendsConnect(s) && k >= 3
    ensures EndsWell(s, input, Steps(s, Left(AwaitReply, AllSent(s, a), input[a..]), k))
  {
    var reply := input[a..];
    var n := Steps(s, Left(AwaitReply, AllSent(s, a), reply), k);
    ReplyEnds(s, AllSent(s, a), reply, k);
    forall agreed: nat, used: nat | Accepts(s, input, agreed, used)
      ensures agreed == a && Confirms(reply, used - a) && n.toClient == input[used..]
    {
      OneAgreement(s, input, agreed, a);
      assert reply[used - a..] == input[used..];
    }
    if n.client.Connected? {
      var used: nat :| Confirms(reply, used);
      assert Accepts(s, input, a, a + used);
    }
  }

  lemma NoAgreement(s: Setup, input: Bytes, n: Net)
    requires n.client.Failed? && (!SendsConnect(s) || forall a: nat :: !Agrees(s, input, a))
    ensures EndsWell(s, input, n)
  {
  }

  lemma AfterLogin(s: Setup, input: Bytes, k: nat)
    requires |input| >= 2 && input[..2] == [5, 2] && SendsLogin(s) && k >= 4
    ensures EndsWell(s, input, Steps(s, Left(AwaitAuth, Offer(s) + LoginMessage(s), input[2..]), k))
  {
    var sent := Offer(s) + LoginMessage(s);
    LoginRead(s, sent, input[2..]);
    var n1 := StepClient(s, Left(AwaitAuth, sent, input[2..]));
    assert |input| >= 4 ==> input[2..][..2] == input[2..4] && input[..4] == input[..2] + input[2..4];
    if n1.client.Failed? {
      Over(s, n1, k - 1);
      NoAgreement(s, input, n1);
    } else {
      assert input[2..][2..] == input[4..];
      AfterAgreement(s, input, 4, k - 1);
    }
  }

  lemma AfterOffer(s: Setup, input: Bytes, k: nat)
    requires k >= 5
    ensures EndsWell(s, input, Steps(s, Left(AwaitMethod, Offer(s), input), k))
  {
    MethodRead(s, Offer(s), input);
    var n1 := StepClient(s, Left(AwaitMethod, Offer(s), input));
    assert |input| >= 4 ==> input[..4][..2] == input[..2];
    if n1.client.Failed? {
      Over(s, n1, k - 1);
      NoAgreement(s, input, n1);
    } else if n1.client.AwaitAuth? {
      AfterLogin(s, input, k - 1);
    } else {
      AfterAgreement(s, input, 2, k - 1);
    }
  }

  /** Against any bytes of any server that then closes: after six reads at most the client has
      a tunnel or has failed; it has one exactly if the bytes begin with an agreement on a
      method and a reply of success, and both the login, if asked for, and the target can be
      sent; and then it has read those bytes and no more, and sent offer, login and request. */
  lemma ClientAcceptsExactly(s: Setup, input: Bytes)
    ensures EndsWell(s, input, Steps(s, Left(Begin, [], input), 6))
  {
    MessagesAsWritten(s);
    assert [] + Offer(s) == Offer(s);
    assert StepClient(s, Left(Begin, [], input)) == Left(AwaitMethod, Offer(s), input);
    AfterOffer(s, input, 5);
  }

  // ---------------------------------------------------------------------------
  // What the server answers
  // ---------------------------------------------------------------------------

  /** A reply with this code and an empty address. */
  function Answer(code: Byte): Bytes {
    [5, code, 0] + [1] + [0, 0, 0, 0] + [0, 0]
  }

  /** The server writes `bytes` and goes on in this state, having read k bytes. */
  ghost predicate Answered(n: Net, n': Net, k: nat, server: Server, bytes: Bytes) {
    k <= |n.toServer| && n' == n.(server := server, toServer := n.toServer[k..], toClient := n.toClient + bytes)
  }

  /** For any bytes: the greeting must be of version 5; its methods are read and one is
      chosen, credentials exactly if the server expects them. */
  lemma ServerGreets(s: Setup, n: Net)
    ensures n.server.Hello? && |n.toServer| >= 2 ==>
              Answered(n, StepServer(s, n), 2, if n.toServer[0] == 5 then Methods(n.toServer[1]) else Closed, [])
    ensures n.server.Methods? && |n.toServer| >= n.server.count ==>
              Answered(n, StepServer(s, n), n.server.count, if s.auth then AuthHead else RequestHead,
                       if s.auth then [5, 2] else [5, 0])
  {
    assert n.toClient + [] == n.toClient;
  }

  /** A request must be of version 5 and to connect; an address of an unknown kind is answered
      with code 8, an unreachable target with code 5. */
  lemma ServerAnswers(s: Setup, n: Net)
    ensures n.server.RequestHead? && |n.toServer| >= 4 ==>
              var r := n.toServer[..4];
              if r[0] != 5 || r[1] != 1 then Answered(n, StepServer(s, n), 4, Closed, [])
              else if r[3] == 3 then Answered(n, StepServer(s, n), 4, NameLength, [])
              else if r[3] == 1 then Answered(n, StepServer(s, n), 4, Address(4), [])
              else if r[3] == 4 then Answered(n, StepServer(s, n), 4, Address(16), [])
              else Answered(n, StepServer(s, n), 4, Closed, Answer(8))
    ensures n.server.PortBytes? && |n.toServer| >= 2 ==>
              var port := n.toServer[0] as nat * 256 + n.toServer[1] as nat;
              Answered(n, StepServer(s, n), 2, if s.dialOk then Tunnel(n.server.host, port) else Closed,
                       if s.dialOk then Answer(0) else Answer(5))
  {
    assert n.toClient + [] == n.toClient;
  }

  /** Host and login are read with the lengths that come before them. */
  lemma ServerReads(s: Setup, n: Net)
    requires ServerNeeds(n.server) <= |n.toServer| && !n.server.AuthPass?
    ensures var n' := StepServer(s, n);
            match n.server
            case AuthHead => Answered(n, n', 2, AuthUser(n.toServer[1]), [])
            case AuthUser(size) => Answered(n, n', size, AuthPassLength(n.toServer[..size]), [])
            case AuthPassLength(user) => Answered(n, n', 1, AuthPass(user, n.toServer[0]), [])
            case NameLength => Answered(n, n', 1, Name(n.toServer[0]), [])
            case Name(size) => Answered(n, n', size, PortBytes(n.toServer[..size]), [])
            case Address(size) => Answered(n, n', size, PortBytes(n.toServer[..size]), [])
            case _ => true
  {
    assert n.toClient + [] == n.toClient;
  }

  /** Without its bytes a read waits for a client that may still write, and ends otherwise. */
  lemma ServerWaits(s: Setup, n: Net)
    requires ServerNeeds(n.server) > |n.toServer|
    ensures StepServer(s, n) == if n.client.Failed? then n.(server := Closed) else n
  {
  }

  lemma ClientWaits(s: Setup, n: Net)
    requires ClientNeeds(n.client) > |n.toClient|
    ensures StepClient(s, n) == if n.server.Closed? then n.(client := Failed) else n
  {
  }

  /** A login is recorded and accepted exactly for the one user there is. */
  lemma ServerChecksLogin(s: Setup, n: Net)
    requires n.server.AuthPass? && n.server.size <= |n.toServer|
    ensures var user, password := n.server.user, n.toServer[..n.server.size];
            var known := user == [117, 115, 101, 114] && password == [112, 97, 115, 115];
            StepServer(s, n) == n.(server := if known then RequestHead else Closed,
                                   toServer := n.toServer[n.server.size..],
                                   toClient := n.toClient + (if known then [1, 0] else [1, 1]),
                                   login := n.login + [(user, password)])
  {
  }
}
