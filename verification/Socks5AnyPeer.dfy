/**
 What the SOCKS5 server and client do with any peer at all (routing/socks5/server.go:155-286,
 client.go:58-129), stated on the bytes of sections 3 to 6 of RFC 1928 and section 2 of RFC 1929
 as numbers.
 */
module Socks5AnyPeer {
  import opened Common
  import opened Socks5Text
  import opened Socks5Target
  import opened Socks5Handshake

  // ---------------------------------------------------------------- the server

  /** What a peer says before its destination: methods, credentials, command. */
  datatype Opening = Opening(methods: Bytes, login: Byte, user: Bytes, pass: Bytes, command: Byte, reserved: Byte)

  predicate Sized(p: Opening) {
    |p.methods| < 256 && |p.user| < 256 && |p.pass| < 256
  }

  function Hello(methods: Bytes): Bytes
    requires |methods| < 256
  {
    [5, |methods|] + methods
  }

  function Login(p: Opening): Bytes
    requires Sized(p)
  {
    [p.login, |p.user|] + p.user + ([|p.pass|] + p.pass)
  }

  /** The bytes of an opening, to a server with or without credentials. */
  function Opens(v: ServerConfig, p: Opening): Bytes
    requires Sized(p)
  {
    Hello(p.methods) + if v.authenticate.Some? then Login(p) + Command(p) else Command(p)
  }

  function Command(p: Opening): Bytes {
    [5, p.command, p.reserved]
  }

  /** The method the server insists on is offered, and the credentials are accepted. */
  predicate Entitled(v: ServerConfig, p: Opening) {
    match v.authenticate
    case None => 0 in p.methods
    case Some(accepts) => 2 in p.methods && accepts(p.user, p.pass)
  }

  function Welcome(v: ServerConfig): Bytes {
    if v.authenticate.Some? then [5, 2, 1, 0] else [5, 0]
  }

  function ReplyBytes(code: Byte): Bytes {
    [5, code, 0, 1, 0, 0, 0, 0, 0, 0]
  }

  lemma HelloRead(t: IpText, v: ServerConfig, methods: Bytes, x: Bytes)
    requires |methods| < 256
    ensures Server(t, v, Hello(methods) + x) ==
      if (if v.authenticate.Some? then 2 else 0) !in methods then Progress([5, 255], SClosed, x)
      else After([5, if v.authenticate.Some? then 2 else 0],
                 if v.authenticate.Some? then ReadUserPass(t, v, x) else ReadRequest(t, v, x))
  {
    var s := Hello(methods) + x;
    DropFront([5, |methods|], methods, x);
    assert s[2..] == methods + x;
    assert (methods + x)[..|methods|] == methods && (methods + x)[|methods|..] == x;
  }

  lemma LoginRead(t: IpText, v: ServerConfig, p: Opening, x: Bytes)
    requires Sized(p) && v.authenticate.Some?
    ensures ReadUserPass(t, v, Login(p) + x) ==
      if !v.authenticate.value(p.user, p.pass) then Progress([1, 1], SClosed, x)
      else After([1, 0], ReadRequest(t, v, x))
  {
    var u, w := p.user, p.pass;
    var s := Login(p) + x;
    var r := [|w|] + w + x;
    assert s == [p.login, |u|] + u + r;
    assert s[2..2 + |u|] == u && s[2 + |u|..] == r;
    assert r[1..1 + |w|] == w && r[1 + |w|..] == x;
  }

  lemma CommandRead(t: IpText, v: ServerConfig, command: Byte, reserved: Byte, x: Bytes)
    ensures ReadRequest(t, v, [5, command, reserved] + x) == ReadDestination(t, v, command, x)
  {
    assert ([5, command, reserved] + x)[3..] == x;
  }

  lemma AfterTwice<S>(a: Bytes, b: Bytes, p: Progress<S>)
    ensures After(a, After(b, p)) == After(a + b, p)
  {
    Assoc(a, b, p.sent);
  }

  lemma HelloLoginRead(t: IpText, v: ServerConfig, p: Opening, y: Bytes)
    requires Sized(p) && Entitled(v, p) && v.authenticate.Some?
    ensures Server(t, v, Hello(p.methods) + (Login(p) + y)) == After([5, 2, 1, 0], ReadRequest(t, v, y))
  {
    HelloRead(t, v, p.methods, Login(p) + y);
    LoginRead(t, v, p, y);
    AfterTwice([5, 2], [1, 0], ReadRequest(t, v, y));
    assert [5, 2] + [1, 0] == [5, 2, 1, 0];
  }

  lemma LoginOpeningRead(t: IpText, v: ServerConfig, p: Opening, x: Bytes)
    requires Sized(p) && Entitled(v, p) && v.authenticate.Some?
    ensures Server(t, v, Opens(v, p) + x) == After([5, 2, 1, 0], ReadDestination(t, v, p.command, x))
  {
    var y := Command(p) + x;
    CommandRead(t, v, p.command, p.reserved, x);
    assert ReadRequest(t, v, y) == ReadDestination(t, v, p.command, x);
    HelloLoginRead(t, v, p, y);
    Regroup(Hello(p.methods), Login(p), Command(p), x);
    assert Opens(v, p) + x == Hello(p.methods) + (Login(p) + y);
  }

  lemma PlainOpeningRead(t: IpText, v: ServerConfig, p: Opening, x: Bytes)
    requires Sized(p) && Entitled(v, p) && v.authenticate.None?
    ensures Server(t, v, Opens(v, p) + x) == After(Welcome(v), ReadDestination(t, v, p.command, x))
  {
    Assoc(Hello(p.methods), Command(p), x);
    HelloRead(t, v, p.methods, Command(p) + x);
    CommandRead(t, v, p.command, p.reserved, x);
  }

  /** An entitled peer is welcomed and gets as far as its destination. */
  lemma OpeningRead(t: IpText, v: ServerConfig, p: Opening, x: Bytes)
    requires Sized(p) && Entitled(v, p)
    ensures Server(t, v, Opens(v, p) + x) == After(Welcome(v), ReadDestination(t, v, p.command, x))
  {
    if v.authenticate.Some? {
      LoginOpeningRead(t, v, p, x);
    } else {
      PlainOpeningRead(t, v, p, x);
    }
  }

  lemma Regroup(a: Bytes, b: Bytes, c: Bytes, d: Bytes)
    ensures a + (b + c) + d == a + (b + (c + d))
  {
  }

  /**
   The answer to a command and what follows it, after `first` was sent. Commands other than CONNECT
   are refused with code 7 whatever the gate and the dial would say; a refusing gate answers 1; else
   the dial decides. A stream that ends inside its destination, or names an unknown type, gets 8.
   */
  ghost predicate AnsweredRight(v: ServerConfig, command: Byte, d: Decoded, first: Bytes, r: Progress<ServerStatus>) {
    match d
    case Short => r.sent == first && !SDone(r.status) && AtEof(r.status) == ReplyBytes(8)
    case Unsupported => r.sent == first + ReplyBytes(8) && r.status == SClosed
    case Decoded(target, rest) =>
      && r.rest == rest
      && (command != 1 ==> r.sent == first + ReplyBytes(7) && r.status == SClosed)
      && (command == 1 && v.refuse ==> r.sent == first + ReplyBytes(1) && r.status == SClosed)
      && (command == 1 && !v.refuse ==>
            && r.sent == first + ReplyBytes(v.dial(Spell(target)))
            && r.status == if v.dial(Spell(target)) == 0 then STunnel(target) else SClosed)
  }

  lemma DestinationAnswered(t: IpText, v: ServerConfig, command: Byte, x: Bytes)
    ensures AnsweredRight(v, command, DecodeTarget(t, x), [], ReadDestination(t, v, command, x))
  {
    assert forall code: Byte :: [] + ReplyBytes(code) == ReplyBytes(code);
  }

  lemma AnsweredAfter(v: ServerConfig, command: Byte, d: Decoded, first: Bytes, r: Progress<ServerStatus>)
    requires AnsweredRight(v, command, d, [], r)
    ensures AnsweredRight(v, command, d, first, After(first, r))
  {
    assert forall code: Byte :: [] + ReplyBytes(code) == ReplyBytes(code);
    assert first + [] == first;
  }

  /** Every request of an entitled peer is answered so. */
  lemma RequestAnswered(t: IpText, v: ServerConfig, p: Opening, x: Bytes)
    requires Sized(p) && Entitled(v, p)
    ensures AnsweredRight(v, p.command, DecodeTarget(t, x), Welcome(v), Server(t, v, Opens(v, p) + x))
  {
    OpeningRead(t, v, p, x);
    DestinationAnswered(t, v, p.command, x);
    AnsweredAfter(v, p.command, DecodeTarget(t, x), Welcome(v), ReadDestination(t, v, p.command, x));
  }

  /** Peers that are not entitled are told so and closed; nothing else they say is read. */
  lemma NotEntitledIsClosed(t: IpText, v: ServerConfig, p: Opening, x: Bytes)
    requires Sized(p)
    ensures (if v.authenticate.Some? then 2 else 0) !in p.methods ==>
              Server(t, v, Hello(p.methods) + x) == Progress([5, 255], SClosed, x)
    ensures v.authenticate.Some? && 2 in p.methods && !v.authenticate.value(p.user, p.pass) ==>
              Server(t, v, Hello(p.methods) + (Login(p) + x)) == Progress([5, 2, 1, 1], SClosed, x)
  {
    HelloRead(t, v, p.methods, x);
    if v.authenticate.Some? {
      HelloRead(t, v, p.methods, Login(p) + x);
      LoginRead(t, v, p, x);
      assert [5, 2] + [1, 1] == [5, 2, 1, 1];
    }
  }

  /** Another protocol version is closed without a word, at the greeting or at the request. */
  lemma OtherVersionIsClosed(t: IpText, v: ServerConfig, p: Opening, s: Bytes)
    requires |s| >= 3 && s[0] != 5 && Sized(p)
    ensures Server(t, v, s).status == SClosed && Server(t, v, s).sent == []
    ensures Entitled(v, p) ==>
              var r := Server(t, v, Hello(p.methods) + if v.authenticate.Some? then Login(p) + s else s);
              r.status == SClosed && r.sent == Welcome(v)
  {
    if Entitled(v, p) {
      if v.authenticate.Some? {
        HelloLoginRead(t, v, p, s);
      } else {
        HelloRead(t, v, p.methods, s);
      }
    }
  }

  // ---------------------------------------------------------------- every tunnel was asked for

  lemma HelloSplits(s: Bytes)
    requires |s| >= 2 && s[0] == 5 && |s| >= 2 + Len(s[1])
    ensures s == Hello(s[2..][..Len(s[1])]) + s[2..][Len(s[1])..]
  {
    var n := Len(s[1]);
    assert s == [5, n] + s[2..];
    Assoc([5, n], s[2..][..n], s[2..][n..]);
  }

  lemma TunnelHello(t: IpText, v: ServerConfig, s: Bytes) returns (methods: Bytes, x: Bytes)
    requires Server(t, v, s).status.STunnel?
    ensures |methods| < 256 && s == Hello(methods) + x
    ensures (if v.authenticate.Some? then 2 else 0) in methods
    ensures Server(t, v, s).status == (if v.authenticate.Some? then ReadUserPass(t, v, x) else ReadRequest(t, v, x)).status
  {
    methods, x := s[2..][..Len(s[1])], s[2..][Len(s[1])..];
    HelloSplits(s);
  }

  /** The message holds a whole login. */
  predicate HoldsLogin(s: Bytes) {
    |s| >= 2 && |s| >= 3 + Len(s[1]) && |s[2 + Len(s[1])..]| >= 1 + Len(s[2 + Len(s[1])])
  }

  lemma LoginSplits(s: Bytes) returns (login: Byte, user: Bytes, pass: Bytes, x: Bytes)
    requires HoldsLogin(s)
    ensures |user| < 256 && |pass| < 256 && s == [login, |user|] + user + ([|pass|] + pass) + x
  {
    var n := Len(s[1]);
    var r := s[2 + n..];
    var m := Len(r[0]);
    login, user, pass, x := s[0], s[2..2 + n], r[1..1 + m], r[1 + m..];
    assert s == [login, n] + user + r;
    assert r == [m] + pass + x;
    Assoc([login, n] + user, [m] + pass, x);
  }

  lemma TunnelHoldsLogin(t: IpText, v: ServerConfig, s: Bytes)
    requires v.authenticate.Some? && ReadUserPass(t, v, s).status.STunnel?
    ensures HoldsLogin(s)
  {
  }

  lemma TunnelLogin(t: IpText, v: ServerConfig, s: Bytes) returns (login: Byte, user: Bytes, pass: Bytes, x: Bytes)
    requires v.authenticate.Some? && ReadUserPass(t, v, s).status.STunnel?
    ensures |user| < 256 && |pass| < 256 && s == [login, |user|] + user + ([|pass|] + pass) + x
    ensures v.authenticate.value(user, pass)
    ensures ReadUserPass(t, v, s).status == ReadRequest(t, v, x).status
  {
    TunnelHoldsLogin(t, v, s);
    login, user, pass, x := LoginSplits(s);
    var p := Opening([], login, user, pass, 0, 0);
    assert s == Login(p) + x;
    LoginRead(t, v, p, x);
  }

  lemma TunnelCommand(t: IpText, v: ServerConfig, s: Bytes) returns (command: Byte, reserved: Byte, x: Bytes)
    requires ReadRequest(t, v, s).status.STunnel?
    ensures s == [5, command, reserved] + x
  {
    command, reserved, x := s[1], s[2], s[3..];
  }

  lemma TunnelOpening(t: IpText, v: ServerConfig, s: Bytes) returns (p: Opening, x: Bytes)
    requires Server(t, v, s).status.STunnel?
    ensures Sized(p) && Entitled(v, p) && s == Opens(v, p) + x
  {
    var methods, y := TunnelHello(t, v, s);
    if v.authenticate.Some? {
      var login, user, pass, z := TunnelLogin(t, v, y);
      var command, reserved;
      command, reserved, x := TunnelCommand(t, v, z);
      p := Opening(methods, login, user, pass, command, reserved);
      Regroup(Hello(methods), Login(p), Command(p), x);
    } else {
      var command, reserved;
      command, reserved, x := TunnelCommand(t, v, y);
      p := Opening(methods, 0, [], [], command, reserved);
      Assoc(Hello(methods), Command(p), x);
    }
  }

  /**
   A tunnel means: version 5, the required method offered, credentials accepted, version 5 again,
   command 1, a destination, an open gate and a dial that succeeded. For any bytes from any peer.
   */
  lemma TunnelWasAskedFor(t: IpText, v: ServerConfig, s: Bytes) returns (p: Opening, x: Bytes)
    requires Server(t, v, s).status.STunnel?
    ensures Sized(p) && Entitled(v, p) && s == Opens(v, p) + x
    ensures p.command == 1 && !v.refuse && DecodeTarget(t, x).Decoded?
    ensures Server(t, v, s).status == STunnel(DecodeTarget(t, x).target) && v.dial(Spell(DecodeTarget(t, x).target)) == 0
  {
    p, x := TunnelOpening(t, v, s);
    RequestAnswered(t, v, p, x);
  }

  /** `s` opens with an entitled peer's CONNECT to `target`, which the open gate could dial. */
  predicate Asked(t: IpText, v: ServerConfig, s: Bytes, p: Opening, x: Bytes, target: Target) {
    && Sized(p) && Entitled(v, p) && s == Opens(v, p) + x && p.command == 1
    && DecodeTarget(t, x).Decoded? && DecodeTarget(t, x).target == target
    && !v.refuse && v.dial(Spell(target)) == 0
  }

  ghost predicate AskedFor(t: IpText, v: ServerConfig, s: Bytes, target: Target) {
    exists p, x :: Asked(t, v, s, p, x, target)
  }

  lemma AskedIsTunnel(t: IpText, v: ServerConfig, s: Bytes, p: Opening, x: Bytes, target: Target)
    requires Asked(t, v, s, p, x, target)
    ensures Server(t, v, s).status == STunnel(target)
  {
    RequestAnswered(t, v, p, x);
  }

  lemma TunnelIsAsked(t: IpText, v: ServerConfig, s: Bytes)
    ensures var r := Server(t, v, s).status; r.STunnel? ==> AskedFor(t, v, s, r.target)
  {
    if Server(t, v, s).status.STunnel? {
      var p, x := TunnelWasAskedFor(t, v, s);
      assert Asked(t, v, s, p, x, DecodeTarget(t, x).target);
    }
  }

  /** For any bytes from any peer: a tunnel to `target` exactly when it was asked for. */
  lemma TunnelExactlyWhen(t: IpText, v: ServerConfig, s: Bytes, target: Target)
    ensures Server(t, v, s).status == STunnel(target) <==> AskedFor(t, v, s, target)
  {
    TunnelIsAsked(t, v, s);
    if AskedFor(t, v, s, target) {
      var p, x :| Asked(t, v, s, p, x, target);
      AskedIsTunnel(t, v, s, p, x, target);
    }
  }

  /** A refusing gate opens no tunnel for any peer. */
  lemma RefuseMeansNoTunnel(t: IpText, v: ServerConfig, s: Bytes)
    requires v.refuse
    ensures !Server(t, v, s).status.STunnel?
  {
    if Server(t, v, s).status.STunnel? {
      var p, x := TunnelWasAskedFor(t, v, s);
    }
  }

  // ---------------------------------------------------------------- the client

  /** What a peer answers before the bound address. */
  datatype Answers = Answers(chosen: Byte, login: Byte, verdict: Byte, code: Byte, reserved: Byte)

  function Says(a: Answers): Bytes {
    [5, a.chosen] + if a.chosen == 2 then [a.login, a.verdict] + Final(a) else Final(a)
  }

  function Final(a: Answers): Bytes {
    [5, a.code, a.reserved]
  }

  /** What the client has sent once it has sent everything. */
  function Asks(c: ClientConfig, a: Answers, destination: Bytes): Bytes
    requires |c.username| <= 255 && |c.password| <= 255
  {
    [5, 1, if c.username != [] || c.password != [] then 2 else 0]
    + if a.chosen == 2 then Credentials(c) + ([5, 1, 0] + destination) else [5, 1, 0] + destination
  }

  function Credentials(c: ClientConfig): Bytes
    requires |c.username| <= 255 && |c.password| <= 255
  {
    [1, |c.username|] + c.username + ([|c.password|] + c.password)
  }

  /** The client offers exactly one method, credentials when it has any. */
  lemma FirstBytes(t: IpText, c: ClientConfig, s: Bytes)
    ensures [5, 1, if c.username != [] || c.password != [] then 2 else 0] <= Client(t, c, s).sent
  {
  }

  lemma ReplyRead(t: IpText, code: Byte, reserved: Byte, x: Bytes)
    ensures AwaitReply(t, [5, code, reserved] + x) == if code != 0 then Progress([], CFailed, x) else AwaitBound(t, x)
  {
    assert ([5, code, reserved] + x)[3..] == x;
  }

  lemma RequestSent(t: IpText, c: ClientConfig, a: Answers, x: Bytes)
    requires AppendTarget(t, c.host, c.port).Some?
    ensures SendRequest(t, c, Final(a) + x) ==
      After([5, 1, 0] + AppendTarget(t, c.host, c.port).value,
            if a.code != 0 then Progress([], CFailed, x) else AwaitBound(t, x))
  {
    ReplyRead(t, a.code, a.reserved, x);
  }

  lemma LoginSent(t: IpText, c: ClientConfig, login: Byte, verdict: Byte, x: Bytes)
    requires |c.username| <= 255 && |c.password| <= 255
    ensures SendAuth(t, c, [login, verdict] + x) ==
      After(Credentials(c),
            if verdict != 0 then Progress([], CFailed, x) else SendRequest(t, c, x))
  {
    assert ([login, verdict] + x)[2..] == x;
  }

  /** What is left once the client has asked. */
  function Concluded(t: IpText, a: Answers, x: Bytes): Progress<ClientStatus> {
    if a.code != 0 then Progress([], CFailed, x) else AwaitBound(t, x)
  }

  lemma LoginConversation(t: IpText, c: ClientConfig, a: Answers, x: Bytes)
    requires a.chosen == 2 && a.verdict == 0 && |c.username| <= 255 && |c.password| <= 255
    requires AppendTarget(t, c.host, c.port).Some?
    ensures AwaitMethod(t, c, Says(a) + x) ==
      After(Credentials(c), After([5, 1, 0] + AppendTarget(t, c.host, c.port).value, Concluded(t, a, x)))
  {
    Regroup([5, a.chosen], [a.login, a.verdict], Final(a), x);
    ClientReadsPair(t, c, 0, 2, [a.login, a.verdict] + (Final(a) + x));
    LoginSent(t, c, a.login, a.verdict, Final(a) + x);
    RequestSent(t, c, a, x);
  }

  lemma PlainConversation(t: IpText, c: ClientConfig, a: Answers, x: Bytes)
    requires a.chosen == 0 && AppendTarget(t, c.host, c.port).Some?
    ensures AwaitMethod(t, c, Says(a) + x) ==
      After([5, 1, 0] + AppendTarget(t, c.host, c.port).value, Concluded(t, a, x))
  {
    Assoc([5, a.chosen], Final(a), x);
    ClientReadsPair(t, c, 0, 0, Final(a) + x);
    RequestSent(t, c, a, x);
  }

  lemma BoundSendsNothing(t: IpText, a: Answers, x: Bytes)
    ensures Concluded(t, a, x).sent == []
  {
  }

  /**
   The client on a complete conversation with any peer: it has asked in the bytes of the standards,
   and it tunnels exactly when the credentials, if asked for, were accepted, the code is 0 and a
   bound address follows.
   */
  lemma ConversationDecides(t: IpText, c: ClientConfig, a: Answers, x: Bytes)
    requires (a.chosen == 0 || (a.chosen == 2 && a.verdict == 0)) && |c.username| <= 255 && |c.password| <= 255
    requires AppendTarget(t, c.host, c.port).Some?
    ensures var r := Client(t, c, Says(a) + x);
      && r.sent == Asks(c, a, AppendTarget(t, c.host, c.port).value)
      && (a.code != 0 ==> r.status == CFailed)
      && (a.code == 0 ==>
            match DecodeTarget(t, x)
            case Decoded(_, rest) => r.status == CTunnel && r.rest == rest
            case Short => r.status == CWaiting
            case Unsupported => r.status == CFailed)
  {
    var request := [5, 1, 0] + AppendTarget(t, c.host, c.port).value;
    BoundSendsNothing(t, a, x);
    assert request + [] == request;
    if a.chosen == 2 {
      LoginConversation(t, c, a, x);
    } else {
      PlainConversation(t, c, a, x);
    }
  }

  /** Rejected credentials, another method, oversized credentials or an unusable destination: an error, and no request. */
  lemma ClientGivesUp(t: IpText, c: ClientConfig, chosen: Byte, login: Byte, verdict: Byte, x: Bytes)
    ensures chosen != 0 && chosen != 2 ==> Client(t, c, [5, chosen] + x).status == CFailed
    ensures chosen == 2 && (|c.username| > 255 || |c.password| > 255) ==> Client(t, c, [5, 2] + x).status == CFailed
    ensures verdict != 0 && |c.username| <= 255 && |c.password| <= 255 ==>
              Client(t, c, [5, 2] + ([login, verdict] + x)).status == CFailed
    ensures chosen == 0 && AppendTarget(t, c.host, c.port).None? ==> Client(t, c, [5, 0] + x).status == CFailed
  {
    ClientReadsPair(t, c, 0, chosen, x);
    ClientReadsPair(t, c, 0, 2, [login, verdict] + x);
    if |c.username| <= 255 && |c.password| <= 255 {
      LoginSent(t, c, login, verdict, x);
    }
  }

  lemma ToldFinal(t: IpText, c: ClientConfig, s: Bytes) returns (code: Byte, reserved: Byte, x: Bytes)
    requires SendRequest(t, c, s).status == CTunnel
    ensures s == [5, code, reserved] + x && code == 0 && DecodeTarget(t, x).Decoded? && AppendTarget(t, c.host, c.port).Some?
  {
    code, reserved, x := s[1], s[2], s[3..];
  }

  lemma ToldLogin(t: IpText, c: ClientConfig, s: Bytes) returns (login: Byte, x: Bytes)
    requires SendAuth(t, c, s).status == CTunnel
    ensures s == [login, 0] + x && SendRequest(t, c, x).status == CTunnel && |c.username| <= 255 && |c.password| <= 255
  {
    login, x := s[0], s[2..];
  }

  /** A client that tunnels was told so in exactly such a conversation. */
  lemma ClientWasTold(t: IpText, c: ClientConfig, s: Bytes) returns (a: Answers, x: Bytes)
    requires Client(t, c, s).status == CTunnel
    ensures s == Says(a) + x && a.code == 0 && DecodeTarget(t, x).Decoded?
    ensures a.chosen == 0 || (a.chosen == 2 && a.verdict == 0 && |c.username| <= 255 && |c.password| <= 255)
    ensures AppendTarget(t, c.host, c.port).Some?
  {
    var y := s[2..];
    assert s == [5, s[1]] + y;
    var code, reserved;
    if s[1] == 2 {
      var login, z := ToldLogin(t, c, y);
      code, reserved, x := ToldFinal(t, c, z);
      a := Answers(2, login, 0, code, reserved);
      Regroup([5, a.chosen], [a.login, a.verdict], Final(a), x);
    } else {
      code, reserved, x := ToldFinal(t, c, y);
      a := Answers(0, 0, 0, code, reserved);
      Assoc([5, a.chosen], Final(a), x);
    }
  }
}
