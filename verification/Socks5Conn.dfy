/**
 The SOCKS5 peers as they read and write a connection
 (routing/socks5/socks5.go:70-109, client.go:58-129, server.go:155-286), each proved to do what the
 corresponding function of the whole received stream says, however the stream is cut into reads.
 */
module Socks5Conn {
  import opened Common
  import opened Socks5Text
  import opened Socks5Target
  import opened Socks5Handshake
  import opened Socks5AnyPeer

  function Flatten(chunks: seq<Bytes>): Bytes {
    if chunks == [] then [] else chunks[0] + Flatten(chunks[1..])
  }

  /** A connection: the reads still to come until the peer closes, and what has been written. */
  class Conn {
    var chunks: seq<Bytes>
    var written: Bytes

    constructor (chunks: seq<Bytes>)
      ensures Pending() == Flatten(chunks) && written == []
    {
      this.chunks, written := chunks, [];
    }

    ghost function Pending(): Bytes
      reads this
    {
      Flatten(chunks)
    }

    /** One read: at most `n` bytes of the next chunk. */
    method Read(n: nat) returns (b: Bytes)
      requires chunks != []
      modifies this`chunks
      ensures |b| <= n && b + Pending() == old(Pending())
      ensures |b| == n || |chunks| < |old(chunks)|
      ensures |chunks| <= |old(chunks)|
    {
      var first, rest := chunks[0], chunks[1..];
      if |first| <= n {
        b, chunks := first, rest;
      } else {
        b, chunks := first[..n], [first[n..]] + rest;
        assert chunks[1..] == rest;
        assert first == first[..n] + first[n..];
      }
    }

    /** io.ReadFull. */
    method ReadFull(n: nat) returns (ok: bool, b: Bytes)
      modifies this`chunks
      ensures ok <==> n <= |old(Pending())|
      ensures ok ==> b == old(Pending())[..n] && Pending() == old(Pending())[n..]
      ensures !ok ==> Pending() == []
    {
      b := [];
      while |b| < n && chunks != []
        invariant |b| <= n
        invariant b + Pending() == old(Pending())
        decreases n - |b| + |chunks|
      {
        ghost var before := b;
        var more := Read(n - |b|);
        b := b + more;
        assert b + Pending() == before + (more + Pending());
      }
      ok := |b| == n;
    }

    method Write(b: Bytes)
      modifies this`written
      ensures written == old(written) + b
    {
      written := written + b;
    }
  }

  /** readTarget on a connection. */
  method ReadTarget(t: IpText, c: Conn) returns (r: Option<Target>)
    modifies c`chunks
    ensures match DecodeTarget(t, old(c.Pending()))
      case Decoded(target, rest) => r == Some(target) && c.Pending() == rest
      case Short => r == None && c.Pending() == []
      case Unsupported => r == None && c.Pending() == old(c.Pending())[1..]
  {
    var ok, kind := c.ReadFull(1);
    if !ok {
      return None;
    }
    var n: nat;
    if kind[0] == ATYP_IPV4 {
      n := 4;
    } else if kind[0] == ATYP_IPV6 {
      n := 16;
    } else if kind[0] == ATYP_DOMAIN {
      var l;
      ok, l := c.ReadFull(1);
      if !ok {
        return None;
      }
      n := l[0];
    } else {
      return None;
    }
    r := ReadBody(t, c, kind[0], n);
  }

  method ReadBody(t: IpText, c: Conn, kind: Byte, n: nat) returns (r: Option<Target>)
    modifies c`chunks
    ensures match DecodeBody(t, kind, old(c.Pending()), n)
      case Decoded(target, rest) => r == Some(target) && c.Pending() == rest
      case _ => r == None && c.Pending() == []
  {
    var ok, address := c.ReadFull(n);
    if !ok {
      return None;
    }
    var p;
    ok, p := c.ReadFull(2);
    if !ok {
      return None;
    }
    r := Some(Target(kind, HostOf(t, kind, address), PortOf(p[0], p[1])));
  }

  // ---------------------------------------------------------------- the client

  /** Dialer.handshake: succeeds exactly when the client function reaches its tunnel. */
  method Handshake(t: IpText, c: ClientConfig, conn: Conn) returns (ok: bool)
    modifies conn
    ensures ClientDid(Client(t, c, old(conn.Pending())), old(conn.written), conn.written, ok, conn.Pending())
  {
    conn.Write(Greeting(c));
    ok := SelectMethod(t, c, conn);
    Assoc(old(conn.written), Greeting(c), AwaitMethod(t, c, old(conn.Pending())).sent);
  }

  /** All of `whole` was written, and `ok` and the bytes left say how it ended. */
  ghost predicate ClientDid(whole: Progress<ClientStatus>, before: Bytes, now: Bytes, ok: bool, pending: Bytes) {
    && now == before + whole.sent
    && ok == (whole.status == CTunnel)
    && (ok ==> pending == whole.rest)
  }

  /** The answer to the greeting, and what follows from it. */
  method SelectMethod(t: IpText, c: ClientConfig, conn: Conn) returns (ok: bool)
    modifies conn
    ensures ClientDid(AwaitMethod(t, c, old(conn.Pending())), old(conn.written), conn.written, ok, conn.Pending())
  {
    var resp;
    ok, resp := conn.ReadFull(2);
    if !ok || resp[0] != VERSION5 {
      return false;
    }
    if resp[1] == NO_AUTH {
      ok := Request(t, c, conn);
    } else if resp[1] == USER_PASS {
      ok := UserPass(t, c, conn);
    } else {
      return false;
    }
  }

  /** Dialer.userPass, and the request once the credentials are accepted. */
  method UserPass(t: IpText, c: ClientConfig, conn: Conn) returns (ok: bool)
    modifies conn
    ensures ClientDid(SendAuth(t, c, old(conn.Pending())), old(conn.written), conn.written, ok, conn.Pending())
  {
    if !CredentialsFit(c) {
      return false;
    }
    conn.Write(AuthMessage(c));
    ghost var sent := conn.written;
    var resp;
    ok, resp := conn.ReadFull(2);
    if !ok || resp[1] != 0 {
      return false;
    }
    ghost var next := SendRequest(t, c, conn.Pending());
    assert AwaitAuth(t, c, old(conn.Pending())) == next;
    ok := Request(t, c, conn);
    Assoc(old(conn.written), AuthMessage(c), next.sent);
  }

  /** The CONNECT request and its reply. */
  method Request(t: IpText, c: ClientConfig, conn: Conn) returns (ok: bool)
    modifies conn
    ensures ClientDid(SendRequest(t, c, old(conn.Pending())), old(conn.written), conn.written, ok, conn.Pending())
  {
    var target := AppendTarget(t, c.host, c.port);
    if target.None? {
      return false;
    }
    conn.Write([VERSION5, CONNECT, 0] + target.value);
    var head;
    ok, head := conn.ReadFull(3);
    if !ok || head[0] != VERSION5 || head[1] != REP_SUCCESS {
      return false;
    }
    var bound := ReadTarget(t, conn);
    ok := bound.Some?;
  }

  // ---------------------------------------------------------------- the server

  /** The search through the offered methods. */
  method Offered(methods: Bytes, want: Byte) returns (offered: bool)
    ensures offered <==> want in methods
  {
    offered := false;
    for i := 0 to |methods|
      invariant !offered && want !in methods[..i]
    {
      if methods[i] == want {
        return true;
      }
    }
  }

  /** All of `whole` was written, and the result and the bytes left say how it ended. */
  ghost predicate ServerDid(whole: Progress<ServerStatus>, before: Bytes, now: Bytes, r: Option<Target>, pending: Bytes) {
    && now == before + whole.sent + AtEof(whole.status)
    && r == (if whole.status.STunnel? then Some(whole.status.target) else None)
    && (r.Some? ==> pending == whole.rest)
  }

  lemma DidAfter(first: Bytes, p: Progress<ServerStatus>, before: Bytes, now: Bytes, r: Option<Target>, pending: Bytes)
    requires ServerDid(p, before + first, now, r, pending)
    ensures ServerDid(After(first, p), before, now, r, pending)
  {
    Assoc(before, first, p.sent);
  }

  /** Server.handle up to the pipe: the dialled destination, if the handshake succeeded. */
  method Handle(t: IpText, v: ServerConfig, c: Conn) returns (r: Option<Target>)
    modifies c
    ensures ServerDid(Server(t, v, old(c.Pending())), old(c.written), c.written, r, c.Pending())
    ensures r.Some? ==> AskedFor(t, v, old(c.Pending()), r.value)
  {
    TunnelIsAsked(t, v, c.Pending());
    var ok, head := c.ReadFull(2);
    if !ok || head[0] != VERSION5 {
      return None;
    }
    r := Negotiate(t, v, c, head[1]);
  }

  /** Server.negotiate from the method list on, and the request. */
  method Negotiate(t: IpText, v: ServerConfig, c: Conn, n: nat) returns (r: Option<Target>)
    modifies c
    ensures ServerDid(ReadMethods(t, v, n, old(c.Pending())), old(c.written), c.written, r, c.Pending())
  {
    var ok, methods := c.ReadFull(n);
    if !ok {
      return None;
    }
    var offered := Offered(methods, Wanted(v));
    if !offered {
      c.Write([VERSION5, NO_ACCEPTABLE]);
      return None;
    }
    c.Write([VERSION5, Wanted(v)]);
    ghost var start := c.Pending();
    if v.authenticate.Some? {
      r := Authenticate(t, v, c);
      DidAfter([VERSION5, Wanted(v)], ReadUserPass(t, v, start), old(c.written), c.written, r, c.Pending());
    } else {
      r := Serve(t, v, c);
      DidAfter([VERSION5, Wanted(v)], ReadRequest(t, v, start), old(c.written), c.written, r, c.Pending());
    }
  }

  /** Server.readUserPass, and the request once the credentials are accepted. */
  method Authenticate(t: IpText, v: ServerConfig, c: Conn) returns (r: Option<Target>)
    requires v.authenticate.Some?
    modifies c
    ensures ServerDid(ReadUserPass(t, v, old(c.Pending())), old(c.written), c.written, r, c.Pending())
  {
    var ok, head := c.ReadFull(2);
    if !ok {
      return None;
    }
    var user, length;
    ok, user := c.ReadFull(head[1]);
    if !ok {
      return None;
    }
    ok, length := c.ReadFull(1);
    if !ok {
      return None;
    }
    UserAndLength(old(c.Pending()), Len(head[1]));
    r := CheckPassword(t, v, c, user, length[0]);
  }

  /** Where a user name of `n` bytes and the following length sit in the message. */
  lemma UserAndLength(s: Bytes, n: nat)
    requires |s| >= 3 + n
    ensures s[2..][..n] == s[2..2 + n]
    ensures s[2 + n..] == s[2..][n..][..1] + s[2..][n..][1..]
    ensures s[2..][n..][..1] == [s[2..][n..][0]]
  {
  }

  lemma SkipOne(b: Byte, s: Bytes, n: nat)
    ensures n <= |s| ==> ([b] + s)[1..1 + n] == s[..n] && ([b] + s)[1 + n..] == s[n..]
  {
  }

  /** The password of `n` bytes, the decision and the request. */
  method CheckPassword(t: IpText, v: ServerConfig, c: Conn, user: Bytes, n: Byte) returns (r: Option<Target>)
    requires v.authenticate.Some?
    modifies c
    ensures ServerDid(ReadPassword(t, v, user, [n] + old(c.Pending())), old(c.written), c.written, r, c.Pending())
  {
    SkipOne(n, c.Pending(), Len(n));
    var ok, pass := c.ReadFull(n);
    if !ok {
      return None;
    }
    if !v.authenticate.value(user, pass) {
      c.Write([1, 1]);
      return None;
    }
    c.Write([1, 0]);
    ghost var start := c.Pending();
    r := Serve(t, v, c);
    DidAfter([1, 0], ReadRequest(t, v, start), old(c.written), c.written, r, c.Pending());
  }

  /** The request: destination, refusal, dial, reply. */
  method Serve(t: IpText, v: ServerConfig, c: Conn) returns (r: Option<Target>)
    modifies c
    ensures ServerDid(ReadRequest(t, v, old(c.Pending())), old(c.written), c.written, r, c.Pending())
  {
    var ok, head := c.ReadFull(3);
    if !ok || head[0] != VERSION5 {
      return None;
    }
    var target := ReadTarget(t, c);
    if target.None? {
      c.Write(Reply(REP_ADDR_TYPE_NOT_SUPPORTED));
      return None;
    }
    if head[1] != CONNECT {
      c.Write(Reply(REP_COMMAND_NOT_SUPPORTED));
      return None;
    }
    if v.refuse {
      c.Write(Reply(REP_GENERAL_FAILURE));
      return None;
    }
    var code := v.dial(Spell(target.value));
    c.Write(Reply(code));
    r := if code == REP_SUCCESS then target else None;
  }
}
