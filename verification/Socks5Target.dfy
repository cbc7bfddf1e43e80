/**
 SOCKS5 destinations on the wire (routing/socks5/socks5.go:59-145), section 5 of RFC 1928: the
 address type, the address and a two-byte port.
 */
module Socks5Target {
  import opened Common
  import opened Socks5Text

  const ATYP_IPV4: Byte := 1
  const ATYP_DOMAIN: Byte := 3
  const ATYP_IPV6: Byte := 4

  datatype Target = Target(kind: Byte, host: Bytes, port: nat)

  /** What reading a destination from the start of a stream gives: it may need more bytes. */
  datatype Decoded = Decoded(target: Target, rest: Bytes) | Short | Unsupported

  function DecodeTarget(t: IpText, s: Bytes): Decoded {
    if |s| < 1 then Short
    else if s[0] == ATYP_IPV4 then DecodeBody(t, s[0], s[1..], 4)
    else if s[0] == ATYP_IPV6 then DecodeBody(t, s[0], s[1..], 16)
    else if s[0] == ATYP_DOMAIN then
      if |s| < 2 then Short else DecodeBody(t, s[0], s[2..], s[1])
    else Unsupported
  }

  /** An address of `n` bytes, then the port. */
  function DecodeBody(t: IpText, kind: Byte, s: Bytes, n: nat): Decoded {
    if |s| < n + 2 then Short
    else Decoded(Target(kind, HostOf(t, kind, s[..n]), PortOf(s[n], s[n + 1])), s[n + 2..])
  }

  function HostOf(t: IpText, kind: Byte, address: Bytes): Bytes {
    if kind == ATYP_DOMAIN then address else t.show(address)
  }

  function PortOf(hi: nat, lo: nat): nat {
    256 * hi + lo
  }

  function PortBytes(port: nat): (r: Bytes)
    requires port < 65536
    ensures |r| == 2 && PortOf(r[0], r[1]) == port
  {
    [port / 256, port % 256]
  }

  /** Everything but the port: type and address, or nothing for an unusable hostname. */
  function AppendHost(t: IpText, host: Bytes): Option<Bytes> {
    match t.parse(host)
    case V4(b) => Some([ATYP_IPV4] + b)
    case V6(b) => Some([ATYP_IPV6] + b)
    case NotAnAddress =>
      if host == [] || |host| > 255 then None else Some([ATYP_DOMAIN, |host|] + host)
  }

  function AppendTarget(t: IpText, host: Bytes, port: int): Option<Bytes> {
    match AppendHost(t, host)
    case None => None
    case Some(b) => if 0 <= port < 65536 then Some(b + PortBytes(port)) else None
  }

  /** The destination a client names by host and port: literals in the library's spelling. */
  function TargetOf(t: IpText, host: Bytes, port: nat): Target {
    match t.parse(host)
    case V4(b) => Target(ATYP_IPV4, t.show(b), port)
    case V6(b) => Target(ATYP_IPV6, t.show(b), port)
    case NotAnAddress => Target(ATYP_DOMAIN, host, port)
  }

  // ---------------------------------------------------------------- the wire form

  /** A destination field as section 5 of RFC 1928 lays it out. */
  predicate WireForm(kind: Byte, address: Bytes) {
    || (kind == ATYP_IPV4 && |address| == 4)
    || (kind == ATYP_IPV6 && |address| == 16)
    || (kind == ATYP_DOMAIN && |address| < 256)
  }

  function WireHead(kind: Byte, address: Bytes): Bytes
    requires WireForm(kind, address)
  {
    if kind == ATYP_DOMAIN then [kind, |address|] else [kind]
  }

  function Wire(kind: Byte, address: Bytes, port: nat): Bytes
    requires WireForm(kind, address) && port < 65536
  {
    WireHead(kind, address) + (address + PortBytes(port))
  }

  lemma DecodeBodyOf(t: IpText, kind: Byte, address: Bytes, port: nat, tail: Bytes)
    requires port < 65536
    ensures DecodeBody(t, kind, address + PortBytes(port) + tail, |address|)
         == Decoded(Target(kind, HostOf(t, kind, address), port), tail)
  {
    var p, n := PortBytes(port), |address|;
    var s := address + p + tail;
    assert s[..n] == address && s[n] == p[0] && s[n + 1] == p[1] && s[n + 2..] == tail;
  }

  lemma DropFront(front: Bytes, a: Bytes, b: Bytes)
    ensures ((front + a) + b)[|front|..] == a + b
    ensures forall i :: 0 <= i < |front| ==> ((front + a) + b)[i] == front[i]
  {
  }

  lemma DecodeWire(t: IpText, kind: Byte, address: Bytes, port: nat, tail: Bytes)
    requires WireForm(kind, address) && port < 65536
    ensures DecodeTarget(t, Wire(kind, address, port) + tail)
         == Decoded(Target(kind, HostOf(t, kind, address), port), tail)
  {
    DecodeBodyOf(t, kind, address, port, tail);
    DropFront(WireHead(kind, address), address + PortBytes(port), tail);
  }

  /** Decoding succeeds only on a well-formed destination followed by anything. */
  lemma DecodedIsWire(t: IpText, s: Bytes) returns (kind: Byte, address: Bytes, port: nat)
    requires DecodeTarget(t, s).Decoded?
    ensures WireForm(kind, address) && port < 65536
    ensures s == Wire(kind, address, port) + DecodeTarget(t, s).rest
    ensures DecodeTarget(t, s).target == Target(kind, HostOf(t, kind, address), port)
  {
    kind := s[0];
    var from := if kind == ATYP_DOMAIN then 2 else 1;
    var n := if kind == ATYP_DOMAIN then s[1] else if kind == ATYP_IPV4 then 4 else 16;
    var body := s[from..];
    assert DecodeTarget(t, s) == DecodeBody(t, kind, body, n);
    address, port := body[..n], PortOf(body[n], body[n + 1]);
    BodySplits(body, n);
    assert WireHead(kind, address) == s[..from];
    assert s == s[..from] + body;
    Assoc(s[..from], address + PortBytes(port), body[n + 2..]);
  }

  lemma BodySplits(s: Bytes, n: nat)
    requires |s| >= n + 2
    ensures PortOf(s[n], s[n + 1]) < 65536
    ensures s == s[..n] + PortBytes(PortOf(s[n], s[n + 1])) + s[n + 2..]
  {
    var hi: nat, lo: nat := s[n], s[n + 1];
    assert PortOf(hi, lo) / 256 == hi && PortOf(hi, lo) % 256 == lo;
  }

  // ---------------------------------------------------------------- reading back what was written

  /** The raw address field for a host. */
  function AddressOf(t: IpText, host: Bytes): Bytes {
    if t.parse(host).NotAnAddress? then host else t.parse(host).bytes
  }

  lemma AppendIsWire(t: IpText, host: Bytes, port: int)
    ensures AppendTarget(t, host, port).None?
       <==> !(0 <= port < 65536) || (t.parse(host).NotAnAddress? && (host == [] || |host| > 255))
    ensures AppendTarget(t, host, port).Some? ==>
              var kind := TargetOf(t, host, port).kind;
              && WireForm(kind, AddressOf(t, host))
              && AppendTarget(t, host, port).value == Wire(kind, AddressOf(t, host), port)
  {
    if AppendTarget(t, host, port).Some? {
      var kind := TargetOf(t, host, port).kind;
      Assoc(WireHead(kind, AddressOf(t, host)), AddressOf(t, host), PortBytes(port));
    }
  }

  /** readTarget inverts appendTarget and leaves whatever follows untouched. */
  lemma DecodeEncoded(t: IpText, host: Bytes, port: int, tail: Bytes)
    requires AppendTarget(t, host, port).Some?
    ensures DecodeTarget(t, AppendTarget(t, host, port).value + tail) == Decoded(TargetOf(t, host, port), tail)
  {
    AppendIsWire(t, host, port);
    DecodeWire(t, TargetOf(t, host, port).kind, AddressOf(t, host), port, tail);
  }

  /** The destination read back is the one that was asked for: same address, same spelling for names. */
  lemma TargetMeansSame(t: IpText, host: Bytes, port: nat)
    ensures t.parse(TargetOf(t, host, port).host) == t.parse(host)
    ensures t.parse(host).NotAnAddress? ==> TargetOf(t, host, port).host == host
    ensures AppendTarget(t, TargetOf(t, host, port).host, port) == AppendTarget(t, host, port)
  {
  }

  /** No encoding is a proper prefix of another, and equal encodings name the same destination. */
  lemma EncodingsArePrefixFree(t: IpText, h1: Bytes, p1: int, h2: Bytes, p2: int)
    requires AppendTarget(t, h1, p1).Some? && AppendTarget(t, h2, p2).Some?
    requires AppendTarget(t, h1, p1).value <= AppendTarget(t, h2, p2).value
    ensures AppendTarget(t, h1, p1) == AppendTarget(t, h2, p2)
    ensures p1 == p2 && TargetOf(t, h1, p1) == TargetOf(t, h2, p2)
  {
    var e1, e2 := AppendTarget(t, h1, p1).value, AppendTarget(t, h2, p2).value;
    var tail := e2[|e1|..];
    DecodeEncoded(t, h1, p1, tail);
    DecodeEncoded(t, h2, p2, []);
    assert e1 + tail == e2 && e2 + [] == e2;
  }

  /** The bytes of section 5 of RFC 1928: type 1, 3 or 4, a length for names, the port in network order. */
  lemma DestinationBytes(t: IpText, host: Bytes, port: int)
    requires AppendTarget(t, host, port).Some?
    ensures var e := AppendTarget(t, host, port).value;
      && |e| >= 3 && e[|e| - 2] == port / 256 && e[|e| - 1] == port % 256
      && match t.parse(host)
         case V4(b) => e[0] == 1 && e[1..|e| - 2] == b && |b| == 4
         case V6(b) => e[0] == 4 && e[1..|e| - 2] == b && |b| == 16
         case NotAnAddress => e[0] == 3 && e[1] == |host| && e[2..|e| - 2] == host
  {
    AppendIsWire(t, host, port);
    var e := AppendTarget(t, host, port).value;
    var address := AddressOf(t, host);
    var head := WireHead(TargetOf(t, host, port).kind, address);
    assert e[|head|..|e| - 2] == address;
    assert e[|e| - 2] == PortBytes(port)[0] && e[|e| - 1] == PortBytes(port)[1];
    var hi: nat, lo: nat := PortBytes(port)[0], PortBytes(port)[1];
    assert hi == port / 256 && lo == port % 256;
  }

  // ---------------------------------------------------------------- reading more of the same stream

  lemma DecodeBodyExtends(t: IpText, kind: Byte, s: Bytes, n: nat, x: Bytes)
    ensures match DecodeBody(t, kind, s, n)
      case Decoded(tg, rest) => DecodeBody(t, kind, s + x, n) == Decoded(tg, rest + x)
      case Short => |s| < n + 2
      case Unsupported => false
  {
    var y := s + x;
    if |s| >= n + 2 {
      assert y[..n] == s[..n] && y[n] == s[n] && y[n + 1] == s[n + 1] && y[n + 2..] == s[n + 2..] + x;
    }
  }

  /** Once decided, the answer does not depend on what arrives later. */
  lemma DecodeExtends(t: IpText, s: Bytes, x: Bytes)
    ensures match DecodeTarget(t, s)
      case Decoded(tg, rest) => DecodeTarget(t, s + x) == Decoded(tg, rest + x)
      case Short => true
      case Unsupported => DecodeTarget(t, s + x) == Unsupported
  {
    if |s| >= 1 {
      assert (s + x)[1..] == s[1..] + x;
      DecodeBodyExtends(t, s[0], s[1..], if s[0] == ATYP_IPV4 then 4 else 16, x);
      if |s| >= 2 {
        assert (s + x)[2..] == s[2..] + x;
        DecodeBodyExtends(t, s[0], s[2..], s[1], x);
      }
    }
  }

  // ---------------------------------------------------------------- relaying a destination

  function Spell(tg: Target): Bytes {
    JoinHostPort(tg.host, PortText(tg.port))
  }

  /** splitHostPort, then appendTarget: what a dialler makes of a host:port string. */
  function DialBytes(t: IpText, hostport: Bytes): Option<Bytes> {
    match SplitHostPort(hostport)
    case None => None
    case Some(hp) =>
      match Atoi(hp.port)
      case None => None
      case Some(port) => AppendTarget(t, hp.host, port)
  }

  /** Which received destinations go out again as the same bytes; `address` is the raw address field. */
  predicate Relayable(t: IpText, kind: Byte, address: Bytes) {
    if kind == ATYP_DOMAIN then address != [] && BracketFree(address) && t.parse(address).NotAnAddress?
    else if kind == ATYP_IPV6 then !Mapped(address)
    else true
  }

  lemma SplitSpelled(host: Bytes, port: nat)
    requires port < 65536
    ensures var hp := SplitHostPort(JoinHostPort(host, PortText(port)));
            && (hp.Some? && hp.value.host == host && Atoi(hp.value.port) == Some(port) <==> BracketFree(host))
            && (BracketFree(host) ==> hp == Some(HostPort(host, PortText(port))))
  {
    AtoiPortText(port);
    JoinSplit(host, PortText(port));
  }

  /** A bracket-free host reaches the encoder as it was. */
  lemma DialsAsSpelled(t: IpText, kind: Byte, host: Bytes, port: nat)
    requires port < 65536 && BracketFree(host)
    ensures DialBytes(t, Spell(Target(kind, host, port))) == AppendTarget(t, host, port)
  {
    SplitSpelled(host, port);
  }

  /** Decode, host:port, encode: the same bytes leave exactly when the destination is Relayable. */
  lemma RelayExactlyWhen(t: IpText, kind: Byte, address: Bytes, port: nat)
    requires WireForm(kind, address) && port < 65536
    ensures DialBytes(t, Spell(Target(kind, HostOf(t, kind, address), port))) == Some(Wire(kind, address, port))
       <==> Relayable(t, kind, address)
  {
    var host := HostOf(t, kind, address);
    if BracketFree(host) {
      DialsAsSpelled(t, kind, host, port);
      RelayedBracketFree(t, kind, address, port);
    } else {
      RelayedBrackets(t, address, port);
    }
  }

  lemma RelayedBracketFree(t: IpText, kind: Byte, address: Bytes, port: nat)
    requires WireForm(kind, address) && port < 65536 && BracketFree(HostOf(t, kind, address))
    ensures AppendTarget(t, HostOf(t, kind, address), port) == Some(Wire(kind, address, port))
       <==> Relayable(t, kind, address)
  {
    var host := HostOf(t, kind, address);
    AppendIsWire(t, host, port);
    if AppendTarget(t, host, port).Some? {
      assert Wire(kind, address, port)[0] == kind;
      assert AppendTarget(t, host, port).value[0] == TargetOf(t, host, port).kind;
    }
  }

  lemma RelayedBrackets(t: IpText, address: Bytes, port: nat)
    requires |address| < 256 && port < 65536 && !BracketFree(address)
    ensures DialBytes(t, Spell(Target(ATYP_DOMAIN, address, port))) != Some(Wire(ATYP_DOMAIN, address, port))
  {
    var hostport := Spell(Target(ATYP_DOMAIN, address, port));
    SplitSpelled(address, port);
    var out := DialBytes(t, hostport);
    if out == Some(Wire(ATYP_DOMAIN, address, port)) {
      var hp := SplitHostPort(hostport).value;
      DecodeEncoded(t, hp.host, Atoi(hp.port).value, []);
      DecodeWire(t, ATYP_DOMAIN, address, port, []);
    }
  }

  /**
   What the others turn into: a literal sent as a name is retyped, a mapped address shortened, a
   name in brackets becomes what is inside them, and any other bracket is refused.
   */
  lemma RelayRetypes(t: IpText, kind: Byte, address: Bytes, port: nat)
    requires WireForm(kind, address) && port < 65536 && !Relayable(t, kind, address)
    ensures var out := DialBytes(t, Spell(Target(kind, HostOf(t, kind, address), port)));
      && (kind == ATYP_IPV6 ==> out == Some(Wire(ATYP_IPV4, address[12..], port)))
      && (kind == ATYP_DOMAIN && address == [] ==> out == None)
      && (kind == ATYP_DOMAIN && BracketFree(address) && t.parse(address).V4? ==>
            out == Some(Wire(ATYP_IPV4, t.parse(address).bytes, port)))
      && (kind == ATYP_DOMAIN && BracketFree(address) && t.parse(address).V6? ==>
            out == Some(Wire(ATYP_IPV6, t.parse(address).bytes, port)))
      && (kind == ATYP_DOMAIN && !BracketFree(address) ==>
            out == if Wrapped(address) then AppendTarget(t, Inner(address), port) else None)
  {
    var host := HostOf(t, kind, address);
    if BracketFree(host) {
      DialsAsSpelled(t, kind, host, port);
      AppendIsWire(t, host, port);
    } else {
      AtoiPortText(port);
      SplitBrackets(host, PortText(port));
    }
  }

  /** The name `[x]` is dialled as the different name or address `x`. */
  lemma BracketedNameLosesBrackets(t: IpText, port: nat)
    requires port < 65536
    ensures var name: Bytes := [LBRACKET, 120, RBRACKET];
            && DialBytes(t, Spell(Target(ATYP_DOMAIN, name, port))) == AppendTarget(t, [120], port)
            && DialBytes(t, Spell(Target(ATYP_DOMAIN, name, port))) != Some(Wire(ATYP_DOMAIN, name, port))
  {
    var name: Bytes := [LBRACKET, 120, RBRACKET];
    assert !BracketFree(name) && Inner(name) == [120] && Wrapped(name);
    RelayRetypes(t, ATYP_DOMAIN, name, port);
    RelayedBrackets(t, name, port);
  }
}
