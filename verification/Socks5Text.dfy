/**
 SOCKS5 addresses as text (routing/socks5/socks5.go:59-66, 135-145). Strings are byte sequences.

 net.ParseIP and net.IP.String are a parameter: any pair of functions that agree with each other
 the way `Lawful` says. net.JoinHostPort, net.SplitHostPort and strconv are written out.
 */
module Socks5Text {
  import Decimal
  import opened Common

  type Byte = b: nat | b < 256
  type Bytes = seq<Byte>

  // ---------------------------------------------------------------- addresses as text

  datatype Address = NotAnAddress | V4(bytes: Bytes) | V6(bytes: Bytes)

  /** Four-byte addresses in sixteen-byte form. */
  predicate Mapped(b: Bytes) {
    |b| == 16 && b[..10] == [0, 0, 0, 0, 0, 0, 0, 0, 0, 0] && b[10] == 255 && b[11] == 255
  }

  const LBRACKET: Byte := 91
  const RBRACKET: Byte := 93
  const COLON: Byte := 58

  predicate BracketFree(s: Bytes) {
    LBRACKET !in s && RBRACKET !in s
  }

  datatype TextCodec = TextCodec(parse: Bytes -> Address, show: Bytes -> Bytes)

  ghost predicate Lawful(t: TextCodec) {
    && (forall b: Bytes :: |b| == 4 ==> t.parse(t.show(b)) == V4(b))
    && (forall b: Bytes :: |b| == 16 && !Mapped(b) ==> t.parse(t.show(b)) == V6(b))
    && (forall b: Bytes :: Mapped(b) ==> t.show(b) == t.show(b[12..]))
    && (forall b: Bytes :: |b| == 4 || |b| == 16 ==> BracketFree(t.show(b)))
    && (forall h: Bytes :: t.parse(h).V4? ==> |t.parse(h).bytes| == 4)
    && (forall h: Bytes :: t.parse(h).V6? ==> |t.parse(h).bytes| == 16 && !Mapped(t.parse(h).bytes))
    && t.parse([]) == NotAnAddress
  }

  // ---------------------------------------------------------------- a lawful codec exists

  /** A byte as two letters a..p. */
  function Letters(b: Bytes): Bytes {
    if b == [] then [] else Letters(b[..|b| - 1]) + [97 + b[|b| - 1] / 16, 97 + b[|b| - 1] % 16]
  }

  function Unletters(s: Bytes): Bytes {
    if |s| < 2 then []
    else
      var n := |s|;
      var hi: int, lo: int := s[n - 2], s[n - 1];
      var v: int := 16 * (hi - 97) + (lo - 97);
      Unletters(s[..n - 2]) + [if 0 <= v < 256 then v else 0]
  }

  lemma {:induction false} LettersAre(b: Bytes)
    ensures |Letters(b)| == 2 * |b|
    ensures forall i :: 0 <= i < |Letters(b)| ==> 97 <= Letters(b)[i] < 113
  {
    if b != [] {
      LettersAre(b[..|b| - 1]);
    }
  }

  lemma {:induction false} LettersRoundTrip(b: Bytes)
    ensures Unletters(Letters(b)) == b
  {
    if b != [] {
      var front, x: nat := b[..|b| - 1], b[|b| - 1];
      LettersRoundTrip(front);
      var s := Letters(b);
      assert s[..|s| - 2] == Letters(front);
      assert x / 16 * 16 + x % 16 == x;
      assert b == front + [x];
    }
  }

  function LetterPrint(b: Bytes): Bytes {
    if Mapped(b) then Letters(b[12..]) else Letters(b)
  }

  function LetterParse(h: Bytes): Address {
    var b := Unletters(h);
    if Letters(b) != h then NotAnAddress
    else if |b| == 4 then V4(b)
    else if |b| == 16 && !Mapped(b) then V6(b)
    else NotAnAddress
  }

  lemma LetterCodecLawful()
    ensures Lawful(TextCodec(LetterParse, LetterPrint))
  {
    forall b: Bytes
      ensures Unletters(Letters(b)) == b && BracketFree(Letters(b))
    {
      LettersRoundTrip(b);
      LettersAre(b);
    }
    assert Unletters([]) == [] && Letters([]) == [];
  }

  /** Text codecs that behave as the library's do. */
  type IpText = t: TextCodec | Lawful(t) ghost witness (LetterCodecLawful(); TextCodec(LetterParse, LetterPrint))

  // ---------------------------------------------------------------- host and port as text

  function PortText(n: nat): Bytes {
    var ds := Decimal.Digits(n);
    seq(|ds|, i requires 0 <= i < |ds| => var d: int := ds[i]; (48 + d) as Byte)
  }

  predicate IsDigit(b: Byte) {
    48 <= b <= 57
  }

  predicate AllDigits(s: Bytes) {
    forall i :: 0 <= i < |s| ==> IsDigit(s[i])
  }

  function DigitValues(s: Bytes): seq<Decimal.Digit>
    requires AllDigits(s)
  {
    seq(|s|, i requires 0 <= i < |s| => (s[i] - 48) as Decimal.Digit)
  }

  /** strconv.Atoi: an optional sign, then decimal digits, within 64 bits. */
  function Atoi(s: Bytes): Option<int> {
    var signed := s != [] && (s[0] == 43 || s[0] == 45);
    var digits := if signed then s[1..] else s;
    if digits == [] || !AllDigits(digits) then None
    else
      var v: int := Decimal.Value(DigitValues(digits));
      var r: int := if signed && s[0] == 45 then -v else v;
      if -0x8000_0000_0000_0000 <= r < 0x8000_0000_0000_0000 then Some(r) else None
  }

  lemma AtoiPortText(n: nat)
    requires n < 0x8000_0000_0000_0000
    ensures Atoi(PortText(n)) == Some(n) && AllDigits(PortText(n))
  {
    var s := PortText(n);
    assert |s| > 0 && IsDigit(s[0]);
    assert DigitValues(s) == Decimal.Digits(n);
    Decimal.ValueOfDigits(n);
  }

  function JoinHostPort(host: Bytes, port: Bytes): Bytes {
    if COLON in host then [LBRACKET] + host + [RBRACKET, COLON] + port else host + [COLON] + port
  }

  /** Index of the first / last occurrence, or |s| / -1. */
  function IndexOf(s: Bytes, b: Byte): nat
    ensures IndexOf(s, b) <= |s|
    ensures IndexOf(s, b) < |s| ==> s[IndexOf(s, b)] == b
    ensures forall i :: 0 <= i < IndexOf(s, b) ==> s[i] != b
  {
    if s == [] || s[0] == b then 0 else 1 + IndexOf(s[1..], b)
  }

  function LastIndexOf(s: Bytes, b: Byte): int
    ensures -1 <= LastIndexOf(s, b) < |s|
    ensures LastIndexOf(s, b) >= 0 ==> s[LastIndexOf(s, b)] == b
    ensures forall i :: LastIndexOf(s, b) < i < |s| ==> s[i] != b
  {
    if s == [] then -1 else if s[|s| - 1] == b then |s| - 1 else LastIndexOf(s[..|s| - 1], b)
  }

  datatype HostPort = HostPort(host: Bytes, port: Bytes)

  function SplitHostPort(s: Bytes): Option<HostPort> {
    var i := LastIndexOf(s, COLON);
    if i < 0 then None
    else if s[0] == LBRACKET then
      var end := IndexOf(s, RBRACKET);
      if end == |s| || end + 1 != i then None
      else if LBRACKET in s[1..] || RBRACKET in s[end + 1..] then None
      else Some(HostPort(s[1..end], s[i + 1..]))
    else if COLON in s[..i] then None
    else if LBRACKET in s || RBRACKET in s then None
    else Some(HostPort(s[..i], s[i + 1..]))
  }

  /** The layout of a plain host and port. */
  lemma Plain(host: Bytes, port: Bytes)
    requires AllDigits(port) && COLON !in host
    ensures var s := JoinHostPort(host, port);
      && |s| == |host| + 1 + |port|
      && s[..|host|] == host && s[|host| + 1..] == port
      && LastIndexOf(s, COLON) == |host|
  {
    var s, n := JoinHostPort(host, port), |host|;
    assert s[..n] == host && s[n] == COLON && s[n + 1..] == port;
    assert forall k :: n < k < |s| ==> s[k] == port[k - n - 1];
  }

  lemma JoinSplitPlain(host: Bytes, port: Bytes)
    requires AllDigits(port) && COLON !in host
    ensures SplitHostPort(JoinHostPort(host, port)) == Some(HostPort(host, port)) <==> BracketFree(host)
  {
    var s, n := JoinHostPort(host, port), |host|;
    Plain(host, port);
    if BracketFree(host) {
      PlainBracketFree(host, port);
    } else if s[0] != LBRACKET {
      var k :| 0 <= k < n && (host[k] == LBRACKET || host[k] == RBRACKET);
      assert s[..n][k] == s[k];
    } else {
      var r := SplitHostPort(s);
      assert r.Some? ==> |r.value.host| < n;
    }
  }

  lemma PlainBracketFree(host: Bytes, port: Bytes)
    requires AllDigits(port) && COLON !in host && BracketFree(host)
    ensures BracketFree(JoinHostPort(host, port))
  {
    var s := JoinHostPort(host, port);
    forall k | 0 <= k < |s|
      ensures s[k] != LBRACKET && s[k] != RBRACKET
    {
      if k < |host| {
        assert s[k] == host[k] && host[k] in host;
      } else if k > |host| {
        assert s[k] == port[k - |host| - 1];
      }
    }
  }

  /** Joining and splitting is lossless exactly for hosts without brackets. */
  lemma JoinSplit(host: Bytes, port: Bytes)
    requires AllDigits(port)
    ensures SplitHostPort(JoinHostPort(host, port)) == Some(HostPort(host, port)) <==> BracketFree(host)
  {
    if COLON in host {
      JoinSplitBracketed(host, port);
    } else {
      JoinSplitPlain(host, port);
    }
  }

  /** The layout of a bracketed host and port. */
  lemma Bracketed(host: Bytes, port: Bytes)
    requires AllDigits(port) && COLON in host
    ensures
      var s, n := JoinHostPort(host, port), |host|;
      && |s| == n + 3 + |port|
      && s[0] == LBRACKET && s[n + 1] == RBRACKET && s[n + 2] == COLON
      && s[1..n + 1] == host && s[n + 3..] == port
      && LastIndexOf(s, COLON) == n + 2
  {
    var s, n := JoinHostPort(host, port), |host|;
    assert s[n + 3..] == port && s[1..n + 1] == host;
    assert forall k :: n + 2 < k < |s| ==> s[k] == port[k - n - 3];
  }

  lemma JoinSplitBracketed(host: Bytes, port: Bytes)
    requires AllDigits(port) && COLON in host
    ensures SplitHostPort(JoinHostPort(host, port)) == Some(HostPort(host, port)) <==> BracketFree(host)
  {
    Bracketed(host, port);
    if BracketFree(host) {
      JoinSplitBracketFree(host, port);
    } else {
      var s, n := JoinHostPort(host, port), |host|;
      var k :| 0 <= k < n && (host[k] == LBRACKET || host[k] == RBRACKET);
      assert s[1..n + 1][k] == s[1..][k] == host[k];
      assert s[k + 1] == host[k];
      if host[k] == RBRACKET {
        assert IndexOf(s, RBRACKET) <= k + 1;
      }
    }
  }

  lemma JoinSplitBracketFree(host: Bytes, port: Bytes)
    requires AllDigits(port) && COLON in host && BracketFree(host)
    ensures SplitHostPort(JoinHostPort(host, port)) == Some(HostPort(host, port))
  {
    var s, n := JoinHostPort(host, port), |host|;
    Bracketed(host, port);
    var inner := s[1..n + 1];
    forall k | 1 <= k < n + 1
      ensures s[k] != RBRACKET && s[k] != LBRACKET
    {
      assert inner[k - 1] == s[k] && inner[k - 1] in host;
    }
    var rest := s[n + 3..];
    forall k | n + 3 <= k < |s|
      ensures s[k] != RBRACKET && s[k] != LBRACKET
    {
      assert rest[k - n - 3] == s[k];
    }
    assert IndexOf(s, RBRACKET) == n + 1;
    assert LBRACKET !in s[1..];
    assert RBRACKET !in s[n + 2..];
  }

  // ---------------------------------------------------------------- hosts with brackets

  /** A colon-free host inside one pair of brackets. */
  predicate Wrapped(host: Bytes) {
    |host| >= 2 && COLON !in host && host[0] == LBRACKET && host[|host| - 1] == RBRACKET && BracketFree(Inner(host))
  }

  function Inner(host: Bytes): Bytes
    requires |host| >= 2
  {
    host[1..|host| - 1]
  }

  /** Splitting strips one pair of brackets off a colon-free host and refuses all other brackets. */
  lemma SplitBrackets(host: Bytes, port: Bytes)
    requires AllDigits(port) && !BracketFree(host)
    ensures SplitHostPort(JoinHostPort(host, port)) == if Wrapped(host) then Some(HostPort(Inner(host), port)) else None
  {
    if COLON in host {
      ColonBrackets(host, port);
    } else if host[0] == LBRACKET {
      LeadingBracket(host, port);
    } else {
      var s, n := JoinHostPort(host, port), |host|;
      Plain(host, port);
      var k :| 0 <= k < n && (host[k] == LBRACKET || host[k] == RBRACKET);
      assert s[..n][k] == s[k];
      assert s[0] == s[..n][0];
    }
  }

  lemma ColonBrackets(host: Bytes, port: Bytes)
    requires AllDigits(port) && !BracketFree(host) && COLON in host
    ensures SplitHostPort(JoinHostPort(host, port)) == None
  {
    var s, n := JoinHostPort(host, port), |host|;
    Bracketed(host, port);
    var k :| 0 <= k < n && (host[k] == LBRACKET || host[k] == RBRACKET);
    assert s[1..n + 1][k] == s[1..][k] == host[k] == s[k + 1];
    if host[k] == RBRACKET {
      assert IndexOf(s, RBRACKET) <= k + 1;
    }
  }

  lemma LeadingBracket(host: Bytes, port: Bytes)
    requires AllDigits(port) && COLON !in host && host != [] && host[0] == LBRACKET
    ensures SplitHostPort(JoinHostPort(host, port)) == if Wrapped(host) then Some(HostPort(Inner(host), port)) else None
  {
    var s, n := JoinHostPort(host, port), |host|;
    Plain(host, port);
    var end := IndexOf(s, RBRACKET);
    assert forall k :: 0 <= k < n ==> s[k] == s[..n][k] == host[k];
    if Wrapped(host) {
      WrappedIndex(host, port);
    } else if SplitHostPort(s).Some? {
      assert end == n - 1;
      assert host[n - 1] == RBRACKET;
      forall k | 0 <= k < |Inner(host)|
        ensures Inner(host)[k] != LBRACKET && Inner(host)[k] != RBRACKET
      {
        assert Inner(host)[k] == host[k + 1] == s[k + 1] == s[1..][k];
      }
    }
  }

  lemma WrappedIndex(host: Bytes, port: Bytes)
    requires AllDigits(port) && Wrapped(host)
    ensures var s, n := JoinHostPort(host, port), |host|;
            && IndexOf(s, RBRACKET) == n - 1 && LBRACKET !in s[1..] && RBRACKET !in s[n..] && s[1..n - 1] == Inner(host)
  {
    var s, n := JoinHostPort(host, port), |host|;
    forall k | 0 <= k < |s|
      ensures s[k] == LBRACKET ==> k == 0
      ensures s[k] == RBRACKET ==> k == n - 1
    {
      if 0 < k < n - 1 {
        assert s[k] == host[k] == Inner(host)[k - 1] && Inner(host)[k - 1] in Inner(host);
      } else if k > n {
        assert s[k] == port[k - n - 1];
      }
    }
    assert s[n - 1] == RBRACKET;
    assert s[1..n - 1] == Inner(host);
  }
}
