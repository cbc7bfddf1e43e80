/** Values and text handling shared by the components. */
module Common {

  datatype Option<T> = None | Some(value: T)

  // ---------------------------------------------------------------- blanks around text

  predicate Space(c: char) {
    c in " \t\r\n"
  }

  function TrimLeft(s: string): string {
    if s != [] && Space(s[0]) then TrimLeft(s[1..]) else s
  }

  function TrimRight(s: string): string {
    if s != [] && Space(s[|s| - 1]) then TrimRight(s[..|s| - 1]) else s
  }

  function TrimSpace(s: string): string {
    TrimRight(TrimLeft(s))
  }

  // ---------------------------------------------------------------- collections

  lemma Assoc<T>(a: seq<T>, b: seq<T>, c: seq<T>)
    ensures a + (b + c) == (a + b) + c
  {
  }

  /** A subset is no larger, and as large only if it is the whole. */
  lemma SubsetSize<T>(a: set<T>, b: set<T>)
    requires a <= b
    ensures |a| <= |b|
    ensures |a| == |b| ==> a == b
  {
    assert b == a + (b - a);
    assert |b| == |a| + |b - a|;
  }

  // ---------------------------------------------------------------- SOCKS5 reply codes (section 6 of RFC 1928)

  const REP_SUCCESS: nat := 0
  const REP_GENERAL_FAILURE: nat := 1
  const REP_COMMAND_NOT_SUPPORTED: nat := 7
  const REP_ADDR_TYPE_NOT_SUPPORTED: nat := 8
}
