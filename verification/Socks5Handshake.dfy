/**
 The SOCKS5 handshake between the project's own client and server
 (routing/socks5/client.go:58-129, routing/socks5/server.go:155-286), sections 3, 4 and 6 of
 RFC 1928 and section 2 of RFC 1929.

 Each peer is a function of the bytes it has received so far: what it has sent, where it stands,
 and which received bytes it has not consumed. The two are composed over byte streams that deliver
 any number of bytes at any time, so a run is one interleaving with one fragmentation.
 */
module Socks5Handshake {
  import opened Common
  import opened Socks5Text
  import opened Socks5Target

  const VERSION5: Byte := 5
  const NO_AUTH: Byte := 0
  const USER_PASS: Byte := 2
  const NO_ACCEPTABLE: Byte := 255
  const CONNECT: Byte := 1

  /** After receiving some bytes: all bytes sent, the peer's standing, the received bytes not read. */
  datatype Progress<S> = Progress(sent: Bytes, status: S, rest: Bytes)

  /** The same, after having sent `first`. */
  function After<S>(first: Bytes, p: Progress<S>): Progress<S> {
    Progress(first + p.sent, p.status, p.rest)
  }

  /** A length field. */
  function Len(b: Byte): nat {
    b
  }

  // ---------------------------------------------------------------- the client

  datatype ClientStatus = CWaiting | CFailed | CTunnel

  datatype ClientConfig = ClientConfig(username: Bytes, password: Bytes, host: Bytes, port: int)

  predicate HasCredentials(c: ClientConfig) {
    c.username != [] || c.password != []
  }

  function Method(c: ClientConfig): Byte {
    if HasCredentials(c) then USER_PASS else NO_AUTH
  }

  function Greeting(c: ClientConfig): Bytes {
    [VERSION5, 1, Method(c)]
  }

  predicate CredentialsFit(c: ClientConfig) {
    |c.username| <= 255 && |c.password| <= 255
  }

  function AuthMessage(c: ClientConfig): Bytes
    requires CredentialsFit(c)
  {
    [1, |c.username|] + c.username + ([|c.password|] + c.password)
  }

  function Client(t: IpText, c: ClientConfig, s: Bytes): Progress<ClientStatus> {
    After(Greeting(c), AwaitMethod(t, c, s))
  }

  function AwaitMethod(t: IpText, c: ClientConfig, s: Bytes): Progress<ClientStatus> {
    if |s| < 2 then Progress([], CWaiting, [])
    else if s[0] != VERSION5 then Progress([], CFailed, s[2..])
    else if s[1] == NO_AUTH then SendRequest(t, c, s[2..])
    else if s[1] == USER_PASS then SendAuth(t, c, s[2..])
    else Progress([], CFailed, s[2..])
  }

  function SendAuth(t: IpText, c: ClientConfig, s: Bytes): Progress<ClientStatus> {
    if !CredentialsFit(c) then Progress([], CFailed, s)
    else After(AuthMessage(c), AwaitAuth(t, c, s))
  }

  function AwaitAuth(t: IpText, c: ClientConfig, s: Bytes): Progress<ClientStatus> {
    if |s| < 2 then Progress([], CWaiting, [])
    else if s[1] != 0 then Progress([], CFailed, s[2..])
    else SendRequest(t, c, s[2..])
  }

  function SendRequest(t: IpText, c: ClientConfig, s: Bytes): Progress<ClientStatus> {
    match AppendTarget(t, c.host, c.port)
    case None => Progress([], CFailed, s)
    case Some(target) => After([VERSION5, CONNECT, 0] + target, AwaitReply(t, s))
  }

  function AwaitReply(t: IpText, s: Bytes): Progress<ClientStatus> {
    if |s| < 3 then Progress([], CWaiting, [])
    else if s[0] != VERSION5 then Progress([], CFailed, s[3..])
    else if s[1] != REP_SUCCESS then Progress([], CFailed, s[3..])
    else AwaitBound(t, s[3..])
  }

  /** The bound address, which CONNECT clients read and ignore. */
  function AwaitBound(t: IpText, s: Bytes): Progress<ClientStatus> {
    match DecodeTarget(t, s)
    case Short => Progress([], CWaiting, [])
    case Unsupported => Progress([], CFailed, s[1..])
    case Decoded(_, rest) => Progress([], CTunnel, rest)
  }

  // ---------------------------------------------------------------- the server

  datatype ServerStatus = SWaiting | SWaitingTarget | SClosed | STunnel(target: Target)

  /** `dial` gives the reply code for a host:port, zero when the upstream connection is made. */
  datatype ServerConfig = ServerConfig(authenticate: Option<(Bytes, Bytes) -> bool>, refuse: bool, dial: Bytes -> Byte)

  function Wanted(v: ServerConfig): Byte {
    if v.authenticate.Some? then USER_PASS else NO_AUTH
  }

  function Reply(code: Byte): Bytes {
    [VERSION5, code, 0, ATYP_IPV4, 0, 0, 0, 0, 0, 0]
  }

  function Server(t: IpText, v: ServerConfig, s: Bytes): Progress<ServerStatus> {
    if |s| < 2 then Progress([], SWaiting, [])
    else if s[0] != VERSION5 then Progress([], SClosed, s[2..])
    else ReadMethods(t, v, s[1], s[2..])
  }

  function ReadMethods(t: IpText, v: ServerConfig, n: nat, s: Bytes): Progress<ServerStatus> {
    if |s| < n then Progress([], SWaiting, [])
    else if Wanted(v) !in s[..n] then Progress([VERSION5, NO_ACCEPTABLE], SClosed, s[n..])
    else After([VERSION5, Wanted(v)],
               if v.authenticate.Some? then ReadUserPass(t, v, s[n..]) else ReadRequest(t, v, s[n..]))
  }

  function ReadUserPass(t: IpText, v: ServerConfig, s: Bytes): Progress<ServerStatus>
    requires v.authenticate.Some?
  {
    if |s| < 2 || |s| < 3 + Len(s[1]) then Progress([], SWaiting, [])
    else ReadPassword(t, v, s[2..2 + Len(s[1])], s[2 + Len(s[1])..])
  }

  function ReadPassword(t: IpText, v: ServerConfig, user: Bytes, s: Bytes): Progress<ServerStatus>
    requires v.authenticate.Some? && |s| >= 1
  {
    if |s| < 1 + Len(s[0]) then Progress([], SWaiting, [])
    else Judge(t, v, user, s[1..1 + Len(s[0])], s[1 + Len(s[0])..])
  }

  /** The decision on the credentials, and the request that follows. */
  function Judge(t: IpText, v: ServerConfig, user: Bytes, pass: Bytes, rest: Bytes): Progress<ServerStatus>
    requires v.authenticate.Some?
  {
    if !v.authenticate.value(user, pass) then Progress([1, 1], SClosed, rest)
    else After([1, 0], ReadRequest(t, v, rest))
  }

  function ReadRequest(t: IpText, v: ServerConfig, s: Bytes): Progress<ServerStatus> {
    if |s| < 3 then Progress([], SWaiting, [])
    else if s[0] != VERSION5 then Progress([], SClosed, s[3..])
    else ReadDestination(t, v, s[1], s[3..])
  }

  function ReadDestination(t: IpText, v: ServerConfig, command: Byte, s: Bytes): Progress<ServerStatus> {
    match DecodeTarget(t, s)
    case Short => Progress([], SWaitingTarget, [])
    case Unsupported => Progress(Reply(REP_ADDR_TYPE_NOT_SUPPORTED), SClosed, s[1..])
    case Decoded(target, rest) => Conclude(target, Verdict(v, command, target), rest)
  }

  function Conclude(target: Target, code: Byte, rest: Bytes): Progress<ServerStatus> {
    Progress(Reply(code), if code == REP_SUCCESS then STunnel(target) else SClosed, rest)
  }

  /** The reply code for a well-formed request. */
  function Verdict(v: ServerConfig, command: Byte, target: Target): Byte {
    if command != CONNECT then REP_COMMAND_NOT_SUPPORTED
    else if v.refuse then REP_GENERAL_FAILURE
    else v.dial(Spell(target))
  }

  /** A stream that ends inside a destination is still answered, as an unsupported address. */
  function AtEof(s: ServerStatus): Bytes {
    if s == SWaitingTarget then Reply(REP_ADDR_TYPE_NOT_SUPPORTED) else []
  }

  // ---------------------------------------------------------------- what arrives later changes nothing

  predicate CDone(x: ClientStatus) {
    x != CWaiting
  }

  predicate SDone(x: ServerStatus) {
    x.SClosed? || x.STunnel?
  }

  /** `q` is `p` with `x` received on top: a finished peer leaves it unread, a waiting one goes on. */
  predicate Continues<S(==)>(p: Progress<S>, done: bool, q: Progress<S>, x: Bytes) {
    if done then q == Progress(p.sent, p.status, p.rest + x) else p.sent <= q.sent
  }

  lemma SliceOfMore(s: Bytes, x: Bytes, a: nat, b: nat)
    requires a <= b <= |s|
    ensures (s + x)[a..b] == s[a..b] && (s + x)[b..] == s[b..] + x
  {
  }

  lemma AwaitBoundContinues(t: IpText, s: Bytes, x: Bytes)
    ensures Continues(AwaitBound(t, s), CDone(AwaitBound(t, s).status), AwaitBound(t, s + x), x)
  {
    DecodeExtends(t, s, x);
    if |s| >= 1 {
      assert (s + x)[1..] == s[1..] + x;
    }
  }

  lemma AwaitReplyContinues(t: IpText, s: Bytes, x: Bytes)
    ensures Continues(AwaitReply(t, s), CDone(AwaitReply(t, s).status), AwaitReply(t, s + x), x)
  {
    if |s| >= 3 {
      assert (s + x)[3..] == s[3..] + x;
      AwaitBoundContinues(t, s[3..], x);
    }
  }

  lemma SendRequestContinues(t: IpText, c: ClientConfig, s: Bytes, x: Bytes)
    ensures Continues(SendRequest(t, c, s), CDone(SendRequest(t, c, s).status), SendRequest(t, c, s + x), x)
  {
    AwaitReplyContinues(t, s, x);
  }

  lemma AwaitAuthContinues(t: IpText, c: ClientConfig, s: Bytes, x: Bytes)
    ensures Continues(AwaitAuth(t, c, s), CDone(AwaitAuth(t, c, s).status), AwaitAuth(t, c, s + x), x)
  {
    if |s| >= 2 {
      assert (s + x)[2..] == s[2..] + x;
      SendRequestContinues(t, c, s[2..], x);
    }
  }

  lemma SendAuthContinues(t: IpText, c: ClientConfig, s: Bytes, x: Bytes)
    ensures Continues(SendAuth(t, c, s), CDone(SendAuth(t, c, s).status), SendAuth(t, c, s + x), x)
  {
    AwaitAuthContinues(t, c, s, x);
  }

  lemma ClientContinues(t: IpText, c: ClientConfig, s: Bytes, x: Bytes)
    ensures Continues(Client(t, c, s), CDone(Client(t, c, s).status), Client(t, c, s + x), x)
  {
    if |s| >= 2 {
      assert (s + x)[2..] == s[2..] + x;
      SendRequestContinues(t, c, s[2..], x);
      SendAuthContinues(t, c, s[2..], x);
    }
  }

  lemma ReadDestinationContinues(t: IpText, v: ServerConfig, command: Byte, s: Bytes, x: Bytes)
    ensures Continues(ReadDestination(t, v, command, s), SDone(ReadDestination(t, v, command, s).status),
                      ReadDestination(t, v, command, s + x), x)
  {
    DecodeExtends(t, s, x);
    if |s| >= 1 {
      assert (s + x)[1..] == s[1..] + x;
    }
  }

  lemma ReadRequestContinues(t: IpText, v: ServerConfig, s: Bytes, x: Bytes)
    ensures Continues(ReadRequest(t, v, s), SDone(ReadRequest(t, v, s).status), ReadRequest(t, v, s + x), x)
  {
    if |s| >= 3 {
      assert (s + x)[3..] == s[3..] + x;
      ReadDestinationContinues(t, v, s[1], s[3..], x);
    }
  }

  lemma JudgeContinues(t: IpText, v: ServerConfig, user: Bytes, pass: Bytes, rest: Bytes, x: Bytes)
    requires v.authenticate.Some?
    ensures Continues(Judge(t, v, user, pass, rest), SDone(Judge(t, v, user, pass, rest).status),
                      Judge(t, v, user, pass, rest + x), x)
  {
    ReadRequestContinues(t, v, rest, x);
  }

  lemma ReadPasswordContinues(t: IpText, v: ServerConfig, user: Bytes, s: Bytes, x: Bytes)
    requires v.authenticate.Some? && |s| >= 1
    ensures Continues(ReadPassword(t, v, user, s), SDone(ReadPassword(t, v, user, s).status),
                      ReadPassword(t, v, user, s + x), x)
  {
    var n := 1 + Len(s[0]);
    if |s| >= n {
      SliceOfMore(s, x, 1, n);
      JudgeContinues(t, v, user, s[1..n], s[n..], x);
    }
  }

  lemma ReadUserPassContinues(t: IpText, v: ServerConfig, s: Bytes, x: Bytes)
    requires v.authenticate.Some?
    ensures Continues(ReadUserPass(t, v, s), SDone(ReadUserPass(t, v, s).status), ReadUserPass(t, v, s + x), x)
  {
    if |s| >= 2 {
      var n := 2 + Len(s[1]);
      if |s| >= n + 1 {
        SliceOfMore(s, x, 2, n);
        ReadPasswordContinues(t, v, s[2..n], s[n..], x);
      }
    }
  }

  lemma ServerContinues(t: IpText, v: ServerConfig, s: Bytes, x: Bytes)
    ensures Continues(Server(t, v, s), SDone(Server(t, v, s).status), Server(t, v, s + x), x)
  {
    if |s| >= 2 {
      assert (s + x)[2..] == s[2..] + x;
      ReadMethodsContinues(t, v, s[1], s[2..], x);
    }
  }

  lemma ReadMethodsContinues(t: IpText, v: ServerConfig, n: nat, s: Bytes, x: Bytes)
    ensures Continues(ReadMethods(t, v, n, s), SDone(ReadMethods(t, v, n, s).status), ReadMethods(t, v, n, s + x), x)
  {
    if |s| >= n {
      assert (s + x)[..n] == s[..n] && (s + x)[n..] == s[n..] + x;
      ReadRequestContinues(t, v, s[n..], x);
      if v.authenticate.Some? {
        ReadUserPassContinues(t, v, s[n..], x);
      }
    }
  }

  // ---------------------------------------------------------------- the two together

  datatype Peers = Peers(client: ClientConfig, server: ServerConfig)

  /** What each side has received so far: `up` by the server, `down` by the client. */
  datatype State = State(up: Bytes, down: Bytes)

  function SentUp(t: IpText, p: Peers, s: State): Bytes {
    Client(t, p.client, s.down).sent
  }

  function SentDown(t: IpText, p: Peers, s: State): Bytes {
    Server(t, p.server, s.up).sent
  }

  /** The network delivers some more bytes, in order, in one direction. */
  predicate Step(t: IpText, p: Peers, s: State, s': State) {
    || (s'.down == s.down && s.up < s'.up <= SentUp(t, p, s))
    || (s'.up == s.up && s.down < s'.down <= SentDown(t, p, s))
  }

  ghost predicate IsRun(t: IpText, p: Peers, run: seq<State>) {
    && |run| > 0
    && run[0] == State([], [])
    && forall i, j :: 0 <= i < j < |run| && j == i + 1 ==> Step(t, p, run[i], run[j])
  }

  /** Nothing is in flight. */
  predicate Quiescent(t: IpText, p: Peers, s: State) {
    s.up == SentUp(t, p, s) && s.down == SentDown(t, p, s)
  }

  /** When the two configurations can work together. */
  predicate Agree(t: IpText, p: Peers) {
    && MethodsMatch(p)
    && Admitted(p)
    && AppendTarget(t, p.client.host, p.client.port).Some?
    && !p.server.refuse
    && p.server.dial(Spell(Wish(t, p))) == REP_SUCCESS
  }

  predicate MethodsMatch(p: Peers) {
    HasCredentials(p.client) <==> p.server.authenticate.Some?
  }

  predicate Admitted(p: Peers) {
    p.server.authenticate.Some? ==>
      && CredentialsFit(p.client)
      && p.server.authenticate.value(p.client.username, p.client.password)
  }

  /** The destination the client asked for. */
  function Wish(t: IpText, p: Peers): Target {
    TargetOf(t, p.client.host, if p.client.port < 0 then 0 else p.client.port)
  }

  // ---------------------------------------------------------------- the conversation the RFCs describe

  /** The whole exchange, written out from sections 3 to 6 of RFC 1928 and section 2 of RFC 1929. */
  function Transcript(t: IpText, p: Peers): State {
    if !MethodsMatch(p) then State(Greeting(p.client), [VERSION5, NO_ACCEPTABLE])
    else
      var rest := if HasCredentials(p.client) then AuthTranscript(t, p) else RequestTranscript(t, p);
      State(Greeting(p.client) + rest.up, [VERSION5, Method(p.client)] + rest.down)
  }

  function AuthTranscript(t: IpText, p: Peers): State
    requires p.server.authenticate.Some?
  {
    if !CredentialsFit(p.client) then State([], [])
    else if !Admitted(p) then State(AuthMessage(p.client), [1, 1])
    else
      var rest := RequestTranscript(t, p);
      State(AuthMessage(p.client) + rest.up, [1, 0] + rest.down)
  }

  function RequestTranscript(t: IpText, p: Peers): State {
    match AppendTarget(t, p.client.host, p.client.port)
    case None => State([], [])
    case Some(target) =>
      State([VERSION5, CONNECT, 0] + target,
            Reply(if p.server.refuse then REP_GENERAL_FAILURE else p.server.dial(Spell(Wish(t, p)))))
  }

  // ---------------------------------------------------------------- each message is read as it was written

  lemma ServerReadsGreeting(t: IpText, p: Peers, x: Bytes)
    ensures Server(t, p.server, Greeting(p.client) + x) ==
      if !MethodsMatch(p) then Progress([VERSION5, NO_ACCEPTABLE], SClosed, x)
      else After([VERSION5, Method(p.client)],
                 if p.server.authenticate.Some? then ReadUserPass(t, p.server, x) else ReadRequest(t, p.server, x))
  {
    var s := Greeting(p.client) + x;
    var m := s[2..];
    assert m[..1] == [Method(p.client)] && m[1..] == x;
  }

  lemma ServerReadsAuth(t: IpText, p: Peers, x: Bytes)
    requires p.server.authenticate.Some? && CredentialsFit(p.client)
    ensures ReadUserPass(t, p.server, AuthMessage(p.client) + x) ==
      if !Admitted(p) then Progress([1, 1], SClosed, x)
      else After([1, 0], ReadRequest(t, p.server, x))
  {
    var u, w := p.client.username, p.client.password;
    var s := AuthMessage(p.client) + x;
    assert s == [1, |u|] + u + ([|w|] + w + x);
    assert s[2..2 + |u|] == u && s[2 + |u|..] == [|w|] + w + x;
    var r := [|w|] + w + x;
    assert r[1..1 + |w|] == w && r[1 + |w|..] == x;
  }

  lemma ServerReadsRequest(t: IpText, p: Peers, x: Bytes)
    requires AppendTarget(t, p.client.host, p.client.port).Some?
    ensures ReadRequest(t, p.server, RequestTranscript(t, p).up + x)
         == Conclude(Wish(t, p), Verdict(p.server, CONNECT, Wish(t, p)), x)
    ensures RequestTranscript(t, p).down == Reply(Verdict(p.server, CONNECT, Wish(t, p)))
  {
    var target := AppendTarget(t, p.client.host, p.client.port).value;
    DropFront([VERSION5, CONNECT, 0], target, x);
    ServerReadsDestination(t, p, x);
  }

  lemma ServerReadsDestination(t: IpText, p: Peers, x: Bytes)
    requires AppendTarget(t, p.client.host, p.client.port).Some?
    ensures ReadDestination(t, p.server, CONNECT, AppendTarget(t, p.client.host, p.client.port).value + x)
         == Conclude(Wish(t, p), Verdict(p.server, CONNECT, Wish(t, p)), x)
  {
    AppendIsWire(t, p.client.host, p.client.port);
    DecodeEncoded(t, p.client.host, p.client.port, x);
  }

  const BOUND: Bytes := [0, 0, 0, 0, 0, 0]

  lemma ClientReadsReply(t: IpText, code: Byte, x: Bytes)
    ensures AwaitReply(t, Reply(code) + x) ==
      if code == REP_SUCCESS then Progress([], CTunnel, x)
      else Progress([], CFailed, [ATYP_IPV4] + BOUND + x)
  {
    assert Reply(code) == [VERSION5, code, 0] + ([ATYP_IPV4] + BOUND);
    DropFront([VERSION5, code, 0], [ATYP_IPV4] + BOUND, x);
    ClientReadsBound(t, BOUND, x);
  }

  lemma ClientReadsBound(t: IpText, bound: Bytes, x: Bytes)
    requires |bound| == 6
    ensures AwaitBound(t, [ATYP_IPV4] + bound + x) == Progress([], CTunnel, x)
  {
    DropFront([ATYP_IPV4], bound, x);
    assert (bound + x)[6..] == x;
  }

  lemma ClientReadsPair(t: IpText, c: ClientConfig, a: Byte, b: Byte, x: Bytes)
    ensures AwaitMethod(t, c, [VERSION5, b] + x) ==
      if b == NO_AUTH then SendRequest(t, c, x)
      else if b == USER_PASS then SendAuth(t, c, x)
      else Progress([], CFailed, x)
    ensures AwaitAuth(t, c, [a, b] + x) == if b != 0 then Progress([], CFailed, x) else SendRequest(t, c, x)
  {
    assert ([VERSION5, b] + x)[2..] == x && ([a, b] + x)[2..] == x;
  }

  // ---------------------------------------------------------------- the transcript settles, and nothing else does

  /** The client and the server each answer `s` from the other with exactly the other half. */
  predicate Meets(client: Progress<ClientStatus>, server: Progress<ServerStatus>, s: State) {
    client.sent == s.up && server.sent == s.down
  }

  /** Both sides end as `agreed` says, and a success leaves nothing unread. */
  predicate Ends(client: Progress<ClientStatus>, server: Progress<ServerStatus>, agreed: bool, wish: Target) {
    && client.status == (if agreed then CTunnel else CFailed)
    && (agreed ==> client.rest == [])
    && (if agreed then server.status == STunnel(wish) else !server.status.STunnel?)
    && server.rest == []
  }

  lemma RequestSettles(t: IpText, p: Peers)
    requires MethodsMatch(p) && Admitted(p)
    ensures var s := RequestTranscript(t, p);
      && Meets(SendRequest(t, p.client, s.down), ReadRequest(t, p.server, s.up), s)
      && Ends(SendRequest(t, p.client, s.down), ReadRequest(t, p.server, s.up), Agree(t, p), Wish(t, p))
  {
    var s := RequestTranscript(t, p);
    if AppendTarget(t, p.client.host, p.client.port).Some? {
      ServerReadsRequest(t, p, []);
      ClientReadsReply(t, Verdict(p.server, CONNECT, Wish(t, p)), []);
      assert s.up + [] == s.up && s.down + [] == s.down;
    }
  }

  lemma AuthSettles(t: IpText, p: Peers)
    requires MethodsMatch(p) && p.server.authenticate.Some?
    ensures var s := AuthTranscript(t, p);
      && Meets(SendAuth(t, p.client, s.down), ReadUserPass(t, p.server, s.up), s)
      && Ends(SendAuth(t, p.client, s.down), ReadUserPass(t, p.server, s.up), Agree(t, p), Wish(t, p))
  {
    if CredentialsFit(p.client) {
      var s, r := AuthTranscript(t, p), RequestTranscript(t, p);
      if Admitted(p) {
        RequestSettles(t, p);
        ServerReadsAuth(t, p, r.up);
        ClientReadsPair(t, p.client, 1, 0, r.down);
      } else {
        ServerReadsAuth(t, p, []);
        ClientReadsPair(t, p.client, 1, 1, []);
        assert s.up + [] == s.up && s.down + [] == s.down;
      }
    }
  }

  /** The transcript is a state with nothing in flight, and the outcome there is the agreed one. */
  lemma TranscriptSettles(t: IpText, p: Peers)
    ensures var s := Transcript(t, p);
      && Quiescent(t, p, s)
      && Ends(Client(t, p.client, s.down), Server(t, p.server, s.up), Agree(t, p), Wish(t, p))
  {
    var s := Transcript(t, p);
    if !MethodsMatch(p) {
      ServerReadsGreeting(t, p, []);
      ClientReadsPair(t, p.client, 0, NO_ACCEPTABLE, []);
      assert s.up + [] == s.up && s.down + [] == s.down;
    } else if HasCredentials(p.client) {
      AuthSettles(t, p);
      ServerReadsGreeting(t, p, AuthTranscript(t, p).up);
      ClientReadsPair(t, p.client, 0, USER_PASS, AuthTranscript(t, p).down);
    } else {
      RequestSettles(t, p);
      ServerReadsGreeting(t, p, RequestTranscript(t, p).up);
      ClientReadsPair(t, p.client, 0, NO_AUTH, RequestTranscript(t, p).down);
    }
  }

  lemma RequestIsForced(t: IpText, p: Peers, s: State)
    requires Meets(SendRequest(t, p.client, s.down), ReadRequest(t, p.server, s.up), s)
    ensures s == RequestTranscript(t, p)
  {
    if AppendTarget(t, p.client.host, p.client.port).Some? {
      var r := RequestTranscript(t, p);
      ServerReadsRequest(t, p, []);
      ReplySendsNothing(t, s.down);
      assert r.up + [] == r.up;
    }
  }

  lemma ReplySendsNothing(t: IpText, s: Bytes)
    ensures AwaitReply(t, s).sent == []
  {
  }

  lemma AuthIsForced(t: IpText, p: Peers, s: State)
    requires p.server.authenticate.Some?
    requires Meets(SendAuth(t, p.client, s.down), ReadUserPass(t, p.server, s.up), s)
    ensures s == AuthTranscript(t, p)
  {
    if CredentialsFit(p.client) {
      var a := AwaitAuth(t, p.client, s.down).sent;
      ServerReadsAuth(t, p, a);
      if Admitted(p) {
        var b := ReadRequest(t, p.server, a).sent;
        ClientReadsPair(t, p.client, 1, 0, b);
        RequestIsForced(t, p, State(a, b));
      } else {
        ClientReadsPair(t, p.client, 1, 1, []);
        assert [1, 1] + [] == s.down;
        assert AuthMessage(p.client) + [] == AuthMessage(p.client);
      }
    }
  }

  /** With nothing in flight, exactly the transcript has been exchanged. */
  lemma QuiescentIsTranscript(t: IpText, p: Peers, s: State)
    ensures Quiescent(t, p, s) <==> s == Transcript(t, p)
  {
    TranscriptSettles(t, p);
    if Quiescent(t, p, s) {
      var g := Greeting(p.client);
      var a := AwaitMethod(t, p.client, s.down).sent;
      ServerReadsGreeting(t, p, a);
      if !MethodsMatch(p) {
        ClientReadsPair(t, p.client, 0, NO_ACCEPTABLE, []);
        assert [VERSION5, NO_ACCEPTABLE] + [] == s.down;
        assert g + [] == g;
      } else if HasCredentials(p.client) {
        var b := ReadUserPass(t, p.server, a).sent;
        ClientReadsPair(t, p.client, 0, USER_PASS, b);
        AuthIsForced(t, p, State(a, b));
      } else {
        var b := ReadRequest(t, p.server, a).sent;
        ClientReadsPair(t, p.client, 0, NO_AUTH, b);
        RequestIsForced(t, p, State(a, b));
      }
    }
  }

  // ---------------------------------------------------------------- every run

  /** Nothing received that was not sent, and nothing beyond the transcript. */
  predicate Sound(t: IpText, p: Peers, s: State) {
    && s.up <= SentUp(t, p, s)
    && s.down <= SentDown(t, p, s)
    && s.up <= Transcript(t, p).up
    && s.down <= Transcript(t, p).down
  }

  /** More bytes received, more bytes sent. */
  lemma ClientMonotone(t: IpText, c: ClientConfig, s: Bytes, s': Bytes)
    requires s <= s'
    ensures Client(t, c, s).sent <= Client(t, c, s').sent
    ensures CDone(Client(t, c, s).status) ==> Client(t, c, s').status == Client(t, c, s).status
  {
    ClientContinues(t, c, s, s'[|s|..]);
    assert s + s'[|s|..] == s';
  }

  lemma ServerMonotone(t: IpText, v: ServerConfig, s: Bytes, s': Bytes)
    requires s <= s'
    ensures Server(t, v, s).sent <= Server(t, v, s').sent
    ensures SDone(Server(t, v, s).status) ==>
              && Server(t, v, s').status == Server(t, v, s).status
              && |Server(t, v, s).rest| <= |Server(t, v, s').rest|
  {
    ServerContinues(t, v, s, s'[|s|..]);
    assert s + s'[|s|..] == s';
  }

  lemma SoundStep(t: IpText, p: Peers, s: State, s': State)
    requires Sound(t, p, s) && Step(t, p, s, s')
    ensures Sound(t, p, s')
    ensures |s'.up| + |s'.down| > |s.up| + |s.down|
  {
    var end := Transcript(t, p);
    TranscriptSettles(t, p);
    ClientMonotone(t, p.client, s.down, s'.down);
    ClientMonotone(t, p.client, s.down, end.down);
    ServerMonotone(t, p.server, s.up, s'.up);
    ServerMonotone(t, p.server, s.up, end.up);
  }

  lemma RunPrefix(t: IpText, p: Peers, run: seq<State>, n: nat)
    requires IsRun(t, p, run) && 0 < n <= |run|
    ensures IsRun(t, p, run[..n])
    ensures n < |run| ==> Step(t, p, run[n - 1], run[n])
  {
  }

  lemma {:induction false} SoundRun(t: IpText, p: Peers, run: seq<State>)
    requires IsRun(t, p, run)
    ensures Sound(t, p, run[|run| - 1])
    ensures |run| <= |run[|run| - 1].up| + |run[|run| - 1].down| + 1
  {
    var n := |run|;
    if n > 1 {
      RunPrefix(t, p, run, n - 1);
      SoundRun(t, p, run[..n - 1]);
      SoundStep(t, p, run[n - 2], run[n - 1]);
    }
  }

  /** However the bytes are cut and interleaved, neither side is misled. */
  lemma NeverMisled(t: IpText, p: Peers, s: State)
    requires Sound(t, p, s)
    ensures var client, server := Client(t, p.client, s.down).status, Server(t, p.server, s.up).status;
      && (client == CTunnel ==> Agree(t, p))
      && (client == CFailed ==> !Agree(t, p))
      && (server.STunnel? ==> Agree(t, p) && server.target == Wish(t, p))
      && (server == SClosed ==> !Agree(t, p))
      && (SDone(server) ==> Server(t, p.server, s.up).rest == [])
  {
    var end := Transcript(t, p);
    TranscriptSettles(t, p);
    ClientMonotone(t, p.client, s.down, end.down);
    ServerMonotone(t, p.server, s.up, end.up);
  }

  /** At most `k` bytes go out before the success reply, which is the last thing sent. */
  predicate Paced(p: Progress<ServerStatus>, k: nat) {
    && (!SDone(p.status) ==> |p.sent| <= k)
    && (p.status.STunnel? ==> |p.sent| == k + 10)
  }

  lemma RequestPaced(t: IpText, v: ServerConfig, s: Bytes)
    ensures Paced(ReadRequest(t, v, s), 0)
  {
  }

  lemma UserPassPaced(t: IpText, v: ServerConfig, s: Bytes)
    requires v.authenticate.Some?
    ensures Paced(ReadUserPass(t, v, s), 2)
  {
    if |s| >= 2 && |s| >= 3 + Len(s[1]) {
      var r := s[2 + Len(s[1])..];
      if |r| >= 1 + Len(r[0]) {
        RequestPaced(t, v, r[1 + Len(r[0])..]);
      }
    }
  }

  function Preamble(v: ServerConfig): nat {
    if v.authenticate.Some? then 4 else 2
  }

  lemma ServerPaced(t: IpText, v: ServerConfig, s: Bytes)
    ensures Paced(Server(t, v, s), Preamble(v))
  {
    if |s| >= 2 && |s[2..]| >= s[1] {
      var r := s[2..][s[1]..];
      RequestPaced(t, v, r);
      if v.authenticate.Some? {
        UserPassPaced(t, v, r);
      }
    }
  }

  /** A client in its tunnel has received everything there is. */
  lemma TunnelledHasAll(t: IpText, p: Peers, s: State)
    requires Sound(t, p, s) && Client(t, p.client, s.down).status == CTunnel
    ensures s.down == Transcript(t, p).down
  {
    var end := Transcript(t, p);
    TranscriptSettles(t, p);
    var x := end.down[|s.down|..];
    assert s.down + x == end.down;
    ClientContinues(t, p.client, s.down, x);
  }

  /** A client in its tunnel has the server in its own, to the destination asked for. */
  lemma ClientTunnelsLast(t: IpText, p: Peers, s: State)
    requires Sound(t, p, s) && Client(t, p.client, s.down).status == CTunnel
    ensures Server(t, p.server, s.up).status == STunnel(Wish(t, p))
  {
    var end := Transcript(t, p);
    NeverMisled(t, p, s);
    TunnelledHasAll(t, p, s);
    TranscriptSettles(t, p);
    ServerPaced(t, p.server, s.up);
    ServerPaced(t, p.server, end.up);
  }

  /** Neither side is misled, and a client tunnels only after the server, to the destination asked for. */
  predicate Honest(t: IpText, p: Peers, s: State) {
    var client, server := Client(t, p.client, s.down).status, Server(t, p.server, s.up).status;
    && (client == CTunnel ==> Agree(t, p) && server == STunnel(Wish(t, p)))
    && (client == CFailed ==> !Agree(t, p))
    && (server.STunnel? ==> Agree(t, p) && server.target == Wish(t, p))
    && (server == SClosed ==> !Agree(t, p))
    && (SDone(server) ==> Server(t, p.server, s.up).rest == [])
  }

  lemma SoundIsHonest(t: IpText, p: Peers, s: State)
    requires Sound(t, p, s)
    ensures Honest(t, p, s)
  {
    NeverMisled(t, p, s);
    if Client(t, p.client, s.down).status == CTunnel {
      ClientTunnelsLast(t, p, s);
    }
  }

  /** That, at every point of every run. */
  lemma EveryRunIsHonest(t: IpText, p: Peers, run: seq<State>, i: nat)
    requires IsRun(t, p, run) && i < |run|
    ensures Honest(t, p, run[i])
  {
    RunPrefix(t, p, run, i + 1);
    SoundRun(t, p, run[..i + 1]);
    SoundIsHonest(t, p, run[i]);
  }

  /** No delivery is possible. */
  ghost predicate AtRest(t: IpText, p: Peers, s: State) {
    forall s' :: !Step(t, p, s, s')
  }

  /** A run can go on exactly while bytes are in flight, and never for longer than the transcript. */
  lemma GoesOn(t: IpText, p: Peers, run: seq<State>)
    requires IsRun(t, p, run)
    ensures |run| <= |Transcript(t, p).up| + |Transcript(t, p).down| + 1
    ensures AtRest(t, p, run[|run| - 1]) <==> run[|run| - 1] == Transcript(t, p)
  {
    var s := run[|run| - 1];
    SoundRun(t, p, run);
    QuiescentIsTranscript(t, p, s);
    if s.up != SentUp(t, p, s) {
      assert Step(t, p, s, State(SentUp(t, p, s), s.down));
    } else if s.down != SentDown(t, p, s) {
      assert Step(t, p, s, State(s.up, SentDown(t, p, s)));
    }
  }

  /**
   Every run that has come to rest ends in a tunnel on both sides exactly when the configurations
   agree, to the destination the client asked for and with no handshake byte left unread; otherwise
   the client has an error.
   */
  lemma HandshakeOutcome(t: IpText, p: Peers, run: seq<State>)
    requires IsRun(t, p, run) && AtRest(t, p, run[|run| - 1])
    ensures var s := run[|run| - 1];
      && s == Transcript(t, p)
      && Ends(Client(t, p.client, s.down), Server(t, p.server, s.up), Agree(t, p), Wish(t, p))
  {
    GoesOn(t, p, run);
    TranscriptSettles(t, p);
  }
}
