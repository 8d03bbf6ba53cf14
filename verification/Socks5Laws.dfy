/** Client and server stay in step, whichever runs when. */
module Socks5Laws {
  import opened Runs
  import opened Socks5

  // ---------------------------------------------------------------------------
  // The conversation
  // ---------------------------------------------------------------------------

  predicate LoginSent(s: Setup) {
    |s.user| <= 255 && |s.password| <= 255
  }

  predicate LoginAccepted(s: Setup) {
    s.user == USER && s.password == PASS
  }

  function Login(s: Setup): seq<(Bytes, Bytes)> {
    if s.auth then [(s.user, s.password)] else []
  }

  /** The port bytes of the request. */
  function PortTail(s: Setup): Bytes {
    [Low(Truncated(s) / 256), Low(Truncated(s))]
  }

  /** Everything that the two parties and the two streams can be at one time before the
      request: the state on the left determines the one on the right. */
  ghost predicate Greeted(s: Setup, n: Net) {
    match (n.client, n.server)
    case (Begin, Hello) => n == START
    case (AwaitMethod, Hello) => n == Net(AwaitMethod, Hello, Greeting(s), [], [])
    case (AwaitMethod, Methods(count)) => n == Net(AwaitMethod, Methods(1), Greeting(s)[2..], [], [])
    case (AwaitMethod, AuthHead) => s.auth && n == Net(AwaitMethod, AuthHead, [], [5, 2], [])
    case (AwaitMethod, RequestHead) => !s.auth && n == Net(AwaitMethod, RequestHead, [], [5, 0], [])
    case _ => false
  }

  ghost predicate LoggingIn(s: Setup, n: Net) {
    && s.auth && LoginSent(s) && n.client.AwaitAuth?
    && match n.server
       case AuthHead => n == Net(AwaitAuth, AuthHead, Credentials(s), [], [])
       case AuthUser(size) => n == Net(AwaitAuth, AuthUser(|s.user|), s.user + [Low(|s.password|)] + s.password, [], [])
       case AuthPassLength(user) => n == Net(AwaitAuth, AuthPassLength(s.user), [Low(|s.password|)] + s.password, [], [])
       case AuthPass(user, size) => n == Net(AwaitAuth, AuthPass(s.user, |s.password|), s.password, [], [])
       case RequestHead => LoginAccepted(s) && n == Net(AwaitAuth, RequestHead, [], [1, 0], Login(s))
       case Closed => !LoginAccepted(s) && n == Net(AwaitAuth, Closed, [], [1, 1], Login(s))
       case _ => false
  }

  /** The server is ready for the request. */
  ghost predicate Admitted(s: Setup) {
    s.auth ==> LoginSent(s) && LoginAccepted(s)
  }

  ghost predicate Requesting(s: Setup, n: Net) {
    && Admitted(s) && Connectable(s) && n.login == Login(s)
    && match (n.client, n.server)
       case (AwaitReply, RequestHead) => n.toServer == Request(s) && n.toClient == []
       case (AwaitReply, NameLength) => n.toServer == [Low(|s.host|)] + s.host + PortTail(s) && n.toClient == []
       case (AwaitReply, Name(size)) => size == |s.host| && n.toServer == s.host + PortTail(s) && n.toClient == []
       case (AwaitReply, PortBytes(host)) => host == s.host && n.toServer == PortTail(s) && n.toClient == []
       case (AwaitReply, Tunnel(host, port)) =>
         s.dialOk && host == s.host && port == Truncated(s) && n.toServer == [] && n.toClient == Reply(0)
       case (AwaitReply, Closed) => !s.dialOk && n.toServer == [] && n.toClient == Reply(5)
       case (AwaitAddress(size), Tunnel(host, port)) =>
         s.dialOk && host == s.host && port == Truncated(s) && n.toServer == [] && size == 6 && |n.toClient| == 6
       case (Connected, Tunnel(host, port)) =>
         s.dialOk && host == s.host && port == Truncated(s) && n.toServer == [] && n.toClient == []
       case _ => false
  }

  /** The client has given up, for one of the reasons there are. */
  ghost predicate GivenUp(s: Setup, n: Net) {
    && n.client.Failed? && n.toServer == [] && (n.login == [] || n.login == Login(s))
    && (n.server.Closed? || n.server.AuthHead? || n.server.RequestHead?)
    && !(Admitted(s) && Connectable(s) && s.dialOk)
  }

  ghost predicate InStep(s: Setup, n: Net) {
    Greeted(s, n) || LoggingIn(s, n) || Requesting(s, n) || GivenUp(s, n)
  }

  // ---------------------------------------------------------------------------
  // Every step keeps it
  // ---------------------------------------------------------------------------

  lemma SendRequestStays(s: Setup, n: Net)
    requires Admitted(s) && n.server.RequestHead? && n.toServer == [] && n.toClient == [] && n.login == Login(s)
    ensures InStep(s, SendRequest(s, n))
  {
    assert [] + Request(s) == Request(s);
  }

  lemma GreetedStays(s: Setup, n: Net)
    requires Greeted(s, n)
    ensures InStep(s, StepServer(s, n))
  {
  }

  lemma GreetedGoesOn(s: Setup, n: Net)
    requires Greeted(s, n)
    ensures InStep(s, StepClient(s, n))
  {
    match (n.client, n.server)
    case (Begin, Hello) => assert [] + Greeting(s) == Greeting(s);
    case (AwaitMethod, AuthHead) => assert [] + Credentials(s) == Credentials(s);
    case (AwaitMethod, RequestHead) => SendRequestStays(s, n.(toClient := []));
    case _ =>
  }

  lemma CredentialsDecode(s: Setup)
    requires LoginSent(s)
    ensures Credentials(s)[..2] == [1, |s.user|]
    ensures Credentials(s)[2..] == s.user + [Low(|s.password|)] + s.password
    ensures (s.user + [Low(|s.password|)] + s.password)[..|s.user|] == s.user
    ensures (s.user + [Low(|s.password|)] + s.password)[|s.user|..] == [Low(|s.password|)] + s.password
    ensures ([Low(|s.password|)] + s.password)[..1] == [|s.password|]
    ensures ([Low(|s.password|)] + s.password)[1..] == s.password
  {
  }

  lemma LoggingInStays(s: Setup, n: Net)
    requires LoggingIn(s, n)
    ensures InStep(s, StepServer(s, n))
  {
    CredentialsDecode(s);
    assert s.password[..|s.password|] == s.password && s.password[|s.password|..] == [];
  }

  lemma LoggingInGoesOn(s: Setup, n: Net)
    requires LoggingIn(s, n)
    ensures InStep(s, StepClient(s, n))
  {
    if n.server.RequestHead? {
      SendRequestStays(s, n.(toClient := []));
    }
  }

  lemma RequestDecodes(s: Setup)
    requires Connectable(s)
    ensures Request(s)[..4] == [5, 1, 0, 3]
    ensures Request(s)[4..] == [Low(|s.host|)] + s.host + PortTail(s)
    ensures ([Low(|s.host|)] + s.host + PortTail(s))[..1] == [|s.host|]
    ensures ([Low(|s.host|)] + s.host + PortTail(s))[1..] == s.host + PortTail(s)
    ensures (s.host + PortTail(s))[..|s.host|] == s.host
    ensures (s.host + PortTail(s))[|s.host|..] == PortTail(s)
    ensures BigEndian(PortTail(s)[0], PortTail(s)[1]) == Truncated(s)
  {
  }

  lemma RequestingStays(s: Setup, n: Net)
    requires Requesting(s, n)
    ensures InStep(s, StepServer(s, n))
  {
    RequestDecodes(s);
    assert PortTail(s)[..2] == PortTail(s) && PortTail(s)[2..] == [];
  }

  lemma RequestingGoesOn(s: Setup, n: Net)
    requires Requesting(s, n)
    ensures InStep(s, StepClient(s, n))
  {
  }

  lemma GivenUpStays(s: Setup, n: Net)
    requires GivenUp(s, n)
    ensures GivenUp(s, StepServer(s, n)) && GivenUp(s, StepClient(s, n))
  {
  }

  lemma StepStays(s: Setup, n: Net, e: Event)
    requires InStep(s, n)
    ensures InStep(s, NextNet(s)(n, e))
  {
    if Greeted(s, n) {
      GreetedStays(s, n);
      GreetedGoesOn(s, n);
    } else if LoggingIn(s, n) {
      LoggingInStays(s, n);
      LoggingInGoesOn(s, n);
    } else if Requesting(s, n) {
      RequestingStays(s, n);
      RequestingGoesOn(s, n);
    } else {
      GivenUpStays(s, n);
    }
  }

  lemma AlwaysInStep(s: Setup, es: seq<Event>)
    ensures InStep(s, Run(NextNet(s), START, es))
  {
    forall n, e | InStep(s, n)
      ensures InStep(s, NextNet(s)(n, e))
    {
      StepStays(s, n, e);
    }
    Always(NextNet(s), (n: Net) => InStep(s, n), START, es);
  }

  // ---------------------------------------------------------------------------
  // What it means
  // ---------------------------------------------------------------------------

  /** The client's arguments as the server has decoded them so far. */
  ghost predicate DecodedRight(s: Setup, n: Net) {
    && (n.login != [] ==> n.login == [(s.user, s.password)])
    && (n.server.PortBytes? ==> n.server.host == s.host)
    && (n.server.Tunnel? ==> n.server.host == s.host && n.server.port == Truncated(s))
  }

  predicate Over(n: Net) {
    (n.client.Connected? && n.server.Tunnel?) || (n.client.Failed? && n.server.Closed?)
  }

  /** Under every schedule the server decodes exactly what the client was given; a
      connected client has a server that tunnels to its target, and neither has left a
      byte unread; a conversation that is not over can go on; and how it ends depends on
      the arguments alone. */
  lemma Lockstep(s: Setup, es: seq<Event>)
    ensures var n := Run(NextNet(s), START, es);
            && DecodedRight(s, n)
            && (n.client.Connected? ==> n.server == Tunnel(s.host, Truncated(s)) && n.toServer == [] && n.toClient == [])
            && (!Over(n) ==> StepClient(s, n) != n || StepServer(s, n) != n)
            && (n.client.Connected? ==> Admitted(s) && Connectable(s) && s.dialOk)
            && (n.client.Failed? ==> !(Admitted(s) && Connectable(s) && s.dialOk))
  {
    AlwaysInStep(s, es);
    if !Over(Run(NextNet(s), START, es)) {
      CanGoOn(s, Run(NextNet(s), START, es));
    }
  }

  /** A party that has its bytes moves on. */
  lemma ServerMoves(s: Setup, n: Net)
    requires |n.toServer| >= ServerNeeds(n.server) && !n.server.Tunnel? && !n.server.Closed?
    ensures StepServer(s, n) != n
  {
  }

  lemma ClientMoves(s: Setup, n: Net)
    requires |n.toClient| >= ClientNeeds(n.client) && !n.client.Connected? && !n.client.Failed?
    ensures StepClient(s, n) != n
  {
  }

  lemma CanGoOn(s: Setup, n: Net)
    requires InStep(s, n) && !Over(n)
    ensures StepClient(s, n) != n || StepServer(s, n) != n
  {
    if |n.toServer| >= ServerNeeds(n.server) && !n.server.Tunnel? && !n.server.Closed? {
      ServerMoves(s, n);
    } else if |n.toClient| >= ClientNeeds(n.client) && !n.client.Connected? && !n.client.Failed? {
      ClientMoves(s, n);
    } else {
      assert GivenUp(s, n);
    }
  }

  function ClientRank(c: Client): nat {
    match c
    case Begin => 6
    case AwaitMethod => 5
    case AwaitAuth => 4
    case AwaitReply => 3
    case AwaitLength => 2
    case AwaitAddress(_) => 1
    case _ => 0
  }

  function ServerRank(v: Server): nat {
    match v
    case Hello => 10
    case Methods(_) => 9
    case AuthHead => 8
    case AuthUser(_) => 7
    case AuthPassLength(_) => 6
    case AuthPass(_, _) => 5
    case RequestHead => 4
    case NameLength => 3
    case Name(_) => 2
    case Address(_) => 2
    case PortBytes(_) => 1
    case _ => 0
  }

  /** Whatever its peer sends, a party that moves comes closer to its end. */
  lemma ClientMovesCount(s: Setup, n: Net)
    ensures var n' := StepClient(s, n);
            n'.server == n.server && (n' == n || ClientRank(n'.client) < ClientRank(n.client) <= 6)
  {
  }

  lemma ServerMovesCount(s: Setup, n: Net)
    ensures var n' := StepServer(s, n);
            n'.client == n.client && (n' == n || ServerRank(n'.server) < ServerRank(n.server) <= 10)
  {
  }

  function Rank(n: Net): nat {
    ClientRank(n.client) + ServerRank(n.server)
  }

  lemma {:induction false} RunAdvances(s: Setup, n: Net, es: seq<Event>)
    ensures var m := Run(NextNet(s), n, es);
            Rank(m) < Rank(n) || (m == n && forall e :: e in es ==> NextNet(s)(n, e) == n)
    decreases |es|
  {
    if es != [] {
      var n' := NextNet(s)(n, es[0]);
      ClientMovesCount(s, n);
      ServerMovesCount(s, n);
      RunAdvances(s, n', es[1..]);
      assert es == [es[0]] + es[1..];
    }
  }

  /** Both parties get a turn. */
  predicate Round(es: seq<Event>) {
    ClientRuns in es && ServerRuns in es
  }

  function Flatten(rounds: seq<seq<Event>>): seq<Event> {
    if rounds == [] then [] else rounds[0] + Flatten(rounds[1..])
  }

  lemma RoundAdvances(s: Setup, n: Net, es: seq<Event>)
    requires InStep(s, n) && Round(es)
    ensures Over(n) || Rank(Run(NextNet(s), n, es)) < Rank(n)
  {
    if !Over(n) {
      CanGoOn(s, n);
      RunAdvances(s, n, es);
      assert NextNet(s)(n, ClientRuns) != n || NextNet(s)(n, ServerRuns) != n;
    }
  }

  lemma OverIsOver(s: Setup, n: Net, es: seq<Event>)
    requires Over(n)
    ensures Run(NextNet(s), n, es) == n
  {
    forall e: Event
      ensures NextNet(s)(n, e) == n
    {
      assert StepClient(s, n) == n && StepServer(s, n) == n;
    }
    Always(NextNet(s), (m: Net) => m == n, n, es);
  }

  lemma StaysInStep(s: Setup, n: Net, es: seq<Event>)
    requires InStep(s, n)
    ensures InStep(s, Run(NextNet(s), n, es))
  {
    forall n, e | InStep(s, n)
      ensures InStep(s, NextNet(s)(n, e))
    {
      StepStays(s, n, e);
    }
    Always(NextNet(s), (n: Net) => InStep(s, n), n, es);
  }

  lemma {:induction false} RoundsAdvance(s: Setup, n: Net, rounds: seq<seq<Event>>)
    requires InStep(s, n) && forall i :: 0 <= i < |rounds| ==> Round(rounds[i])
    ensures var m := Run(NextNet(s), n, Flatten(rounds)); Over(m) || Rank(m) + |rounds| <= Rank(n)
    decreases |rounds|
  {
    if rounds != [] {
      var n' := Run(NextNet(s), n, rounds[0]);
      RunSplit(NextNet(s), n, rounds[0], Flatten(rounds[1..]));
      assert Round(rounds[0]);
      RoundAdvances(s, n, rounds[0]);
      if Over(n) {
        OverIsOver(s, n, rounds[0]);
        OverIsOver(s, n, Flatten(rounds[1..]));
      } else {
        StaysInStep(s, n, rounds[0]);
        RoundsAdvance(s, n', rounds[1..]);
      }
    }
  }

  lemma EndIsOver(s: Setup, n: Net)
    requires InStep(s, n)
    ensures Rank(n) == 0 ==> Over(n)
    ensures Over(n) ==> (n.client.Connected? <==> Admitted(s) && Connectable(s) && s.dialOk)
  {
  }

  /** After sixteen rounds in which both parties get a turn the conversation is over, and
      the client is connected if and only if it is admitted, its target can be sent, and
      the server reaches it. */
  lemma SixteenRounds(s: Setup, rounds: seq<seq<Event>>)
    requires |rounds| >= 16 && forall i :: 0 <= i < |rounds| ==> Round(rounds[i])
    ensures var n := Run(NextNet(s), START, Flatten(rounds));
            Over(n) && (n.client.Connected? <==> Admitted(s) && Connectable(s) && s.dialOk)
  {
    AlwaysInStep(s, []);
    assert Run(NextNet(s), START, []) == START && Rank(START) == 16;
    RoundsAdvance(s, START, rounds);
    StaysInStep(s, START, Flatten(rounds));
    EndIsOver(s, Run(NextNet(s), START, Flatten(rounds)));
  }

  /** The target port is the one given exactly when the number is a port: a number that
      only its low 32 bits make a port is let through as another. */
  lemma PortIsExact(s: Setup)
    requires Connectable(s)
    ensures Truncated(s) == s.port.value <==> s.port.value <= 65535
  {
  }

  /** The smallest such number, for port 80. */
  lemma PortPassesTruncated(host: Bytes)
    requires |host| <= 255
    ensures var s := Setup(host, Number(0x1_0000_0050), [], [], false, true);
            Connectable(s) && Truncated(s) == 80
  {
  }
}
