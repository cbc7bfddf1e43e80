/**
 Relay allocation (routing/manager/mullvad.go:155-192, 356-413). `used` holds every address handed
 out or reported failed in this session; whether the relay list can be fetched and which slots have
 a device are inputs.
 */
module Mullvad {
  import opened Common

  datatype Relay = Relay(hostname: string, country: string, active: bool, ipv4: string, pubKey: string)

  datatype Outcome = Picked(relays: seq<Relay>) | NoList | TooFewUnused | TooFewDistinct | NoDevice(slot: nat)

  predicate Candidate(r: Relay, used: set<string>) {
    r.active && r.ipv4 != "" && r.pubKey != "" && r.ipv4 !in used
  }

  function Addresses(rs: seq<Relay>): set<string> {
    set r | r in rs :: r.ipv4
  }

  function Countries(rs: seq<Relay>): set<string> {
    set r | r in rs :: r.country
  }

  /** Addresses still available. */
  function Unused(all: seq<Relay>, used: set<string>): set<string> {
    set r | r in all && Candidate(r, used) :: r.ipv4
  }

  ghost predicate DistinctAddresses(rs: seq<Relay>) {
    forall i, j :: 0 <= i < j < |rs| ==> rs[i].ipv4 != rs[j].ipv4
  }

  // ---------------------------------------------------------------- ordering

  /** Strings by code unit, as the source language orders them. */
  predicate Less(a: string, b: string) {
    if b == [] then false
    else if a == [] then true
    else if a[0] != b[0] then a[0] < b[0]
    else Less(a[1..], b[1..])
  }

  predicate Before(a: Relay, b: Relay) {
    if a.country != b.country then Less(a.country, b.country) else Less(a.hostname, b.hostname)
  }

  /** Stable insertion: `r` goes after everything that is not greater. */
  function Insert(rs: seq<Relay>, r: Relay): seq<Relay> {
    if rs != [] && Before(r, rs[|rs| - 1]) then Insert(rs[..|rs| - 1], r) + [rs[|rs| - 1]]
    else rs + [r]
  }

  function StableSort(rs: seq<Relay>): seq<Relay> {
    if rs == [] then [] else Insert(StableSort(rs[..|rs| - 1]), rs[|rs| - 1])
  }

  lemma CountLast(rs: seq<Relay>)
    requires rs != []
    ensures multiset(rs) == multiset(rs[..|rs| - 1]) + multiset{rs[|rs| - 1]}
  {
    assert rs == rs[..|rs| - 1] + [rs[|rs| - 1]];
  }

  lemma {:induction false} InsertPermutes(rs: seq<Relay>, r: Relay)
    ensures multiset(Insert(rs, r)) == multiset(rs) + multiset{r}
  {
    if rs != [] && Before(r, rs[|rs| - 1]) {
      InsertPermutes(rs[..|rs| - 1], r);
      CountLast(rs);
    }
  }

  lemma {:induction false} SortPermutes(rs: seq<Relay>)
    ensures multiset(StableSort(rs)) == multiset(rs)
  {
    if rs != [] {
      var front, last := rs[..|rs| - 1], rs[|rs| - 1];
      SortPermutes(front);
      InsertPermutes(StableSort(front), last);
      CountLast(rs);
    }
  }

  lemma SortKeepsElements(rs: seq<Relay>)
    ensures |StableSort(rs)| == |rs|
    ensures forall r :: r in StableSort(rs) <==> r in rs
  {
    SortPermutes(rs);
    var s := StableSort(rs);
    assert |multiset(s)| == |s|;
    forall r
      ensures r in s <==> r in rs
    {
      assert r in s <==> r in multiset(s);
      assert r in rs <==> r in multiset(rs);
    }
  }

  lemma {:induction false} LessCompletes(a: string, b: string, c: string)
    ensures !Less(a, b) && !Less(b, c) ==> !Less(a, c)
    ensures !Less(a, b) && !Less(b, a) ==> a == b
    decreases |a| + |b| + |c|
  {
    if a != [] && b != [] {
      if c != [] {
        LessCompletes(a[1..], b[1..], c[1..]);
      } else {
        LessCompletes(a[1..], b[1..], c);
      }
      assert a == [a[0]] + a[1..] && b == [b[0]] + b[1..];
    }
  }

  lemma BeforeCompletes(a: Relay, b: Relay, c: Relay)
    ensures !Before(a, b) && !Before(b, c) ==> !Before(a, c)
  {
    LessCompletes(a.country, b.country, c.country);
    LessCompletes(b.country, c.country, a.country);
    LessCompletes(c.country, a.country, b.country);
    LessCompletes(a.hostname, b.hostname, c.hostname);
  }

  ghost predicate Sorted(rs: seq<Relay>) {
    forall i, j :: 0 <= i < j < |rs| ==> !Before(rs[j], rs[i])
  }

  lemma {:induction false} InsertSorts(rs: seq<Relay>, r: Relay)
    requires Sorted(rs)
    ensures Sorted(Insert(rs, r))
  {
    if rs != [] {
      var n := |rs| - 1;
      if Before(r, rs[n]) {
        var front := rs[..n];
        InsertSorts(front, r);
        InsertPermutes(front, r);
        var out := Insert(front, r);
        forall i | 0 <= i < |out|
          ensures !Before(rs[n], out[i])
        {
          assert out[i] in multiset(out);
          assert out[i] in front || out[i] == r;
          LessCompletes(r.country, rs[n].country, r.country);
          LessCompletes(r.hostname, rs[n].hostname, r.hostname);
          BeforeAsym(r, rs[n]);
        }
      } else {
        forall i | 0 <= i < |rs|
          ensures !Before(r, rs[i])
        {
          BeforeCompletes(r, rs[n], rs[i]);
        }
      }
    }
  }

  lemma {:induction false} LessAsym(a: string, b: string)
    ensures !(Less(a, b) && Less(b, a))
    decreases |a|
  {
    if a != [] && b != [] {
      LessAsym(a[1..], b[1..]);
    }
  }

  lemma BeforeAsym(a: Relay, b: Relay)
    ensures !(Before(a, b) && Before(b, a))
  {
    LessAsym(a.country, b.country);
    LessAsym(a.hostname, b.hostname);
  }

  lemma {:induction false} SortSorts(rs: seq<Relay>)
    ensures Sorted(StableSort(rs))
  {
    if rs != [] {
      SortSorts(rs[..|rs| - 1]);
      InsertSorts(StableSort(rs[..|rs| - 1]), rs[|rs| - 1]);
    }
  }

  // ---------------------------------------------------------------- the allocator

  function Candidates(all: seq<Relay>, used: set<string>): seq<Relay> {
    if all == [] then []
    else
      var front := Candidates(all[..|all| - 1], used);
      if Candidate(all[|all| - 1], used) then front + [all[|all| - 1]] else front
  }

  /** `a` comes strictly before `b` by code unit: at the first difference, or as a proper prefix. */
  lemma {:induction false} LessMeans(a: string, b: string)
    ensures Less(a, b) <==> exists k :: 0 <= k <= |a| && k < |b| && a[..k] == b[..k] && (k == |a| || a[k] < b[k])
  {
    if a != [] && b != [] && a[0] == b[0] {
      LessMeans(a[1..], b[1..]);
      var x, y := a[1..], b[1..];
      if Less(a, b) {
        var k :| 0 <= k <= |x| && k < |y| && x[..k] == y[..k] && (k == |x| || x[k] < y[k]);
        assert a[..k + 1] == [a[0]] + x[..k] && b[..k + 1] == [b[0]] + y[..k];
      }
      if k :| 0 <= k <= |a| && k < |b| && a[..k] == b[..k] && (k == |a| || a[k] < b[k]) {
        assert k > 0;
        var j := k - 1;
        assert x[..j] == a[..k][1..] && y[..j] == b[..k][1..];
        assert j <= |x| && j < |y| && x[..j] == y[..j] && (j == |x| || x[j] < y[j]);
      }
    } else if a == [] && b != [] {
      assert a[..0] == b[..0];
    } else if a != [] && b != [] {
      assert a[..0] == b[..0];
      forall k | 0 < k <= |a| && k < |b|
        ensures a[..k] != b[..k]
      {
        assert a[..k][0] != b[..k][0];
      }
    }
  }

  /** The order of the candidates: by country, then by hostname. */
  lemma SortOrders(rs: seq<Relay>, i: nat, j: nat)
    requires i < j < |StableSort(rs)|
    ensures var a, b := StableSort(rs)[i], StableSort(rs)[j];
            !Less(b.country, a.country) && (a.country == b.country ==> !Less(b.hostname, a.hostname))
  {
    SortSorts(rs);
    var a, b := StableSort(rs)[i], StableSort(rs)[j];
    assert !Before(b, a);
    LessAsym(a.country, a.country);
  }

  /** The relays of one country and hostname, in order. */
  function Named(rs: seq<Relay>, country: string, hostname: string): seq<Relay> {
    if rs == [] then []
    else
      var r := rs[|rs| - 1];
      Named(rs[..|rs| - 1], country, hostname) + if r.country == country && r.hostname == hostname then [r] else []
  }

  lemma {:induction false} InsertStable(rs: seq<Relay>, r: Relay, country: string, hostname: string)
    ensures Named(Insert(rs, r), country, hostname) == Named(rs + [r], country, hostname)
  {
    assert (rs + [r])[..|rs|] == rs;
    if rs != [] && Before(r, rs[|rs| - 1]) {
      var front, last := rs[..|rs| - 1], rs[|rs| - 1];
      InsertStable(front, r, country, hostname);
      assert (front + [r])[..|front|] == front;
      var moved := Insert(front, r) + [last];
      assert moved[..|moved| - 1] == Insert(front, r);
      LessAsym(r.country, last.country);
      LessAsym(r.hostname, last.hostname);
    }
  }

  /** Relays that compare equal keep their order. */
  lemma {:induction false} SortIsStable(rs: seq<Relay>, country: string, hostname: string)
    ensures Named(StableSort(rs), country, hostname) == Named(rs, country, hostname)
  {
    if rs != [] {
      var front, last := rs[..|rs| - 1], rs[|rs| - 1];
      SortIsStable(front, country, hostname);
      InsertStable(StableSort(front), last, country, hostname);
      assert (StableSort(front) + [last])[..|StableSort(front)|] == StableSort(front);
    }
  }

  /** An address is available when an active relay with a key has it and it was not used. */
  lemma UnusedAre(all: seq<Relay>, used: set<string>, ip: string)
    ensures ip in Unused(all, used) <==>
            exists r :: r in all && r.active && r.pubKey != "" && r.ipv4 == ip && ip != "" && ip !in used
  {
  }

  lemma {:induction false} CandidatesAre(all: seq<Relay>, used: set<string>)
    ensures forall r :: r in Candidates(all, used) <==> r in all && Candidate(r, used)
    ensures Addresses(Candidates(all, used)) == Unused(all, used)
  {
    if all != [] {
      var front := all[..|all| - 1];
      CandidatesAre(front, used);
      assert all == front + [all[|all| - 1]];
    }
    forall r
      ensures r in Candidates(all, used) <==> r in all && Candidate(r, used)
    {
      if all != [] {
        assert r in all <==> r in all[..|all| - 1] || r == all[|all| - 1];
      }
    }
  }

  lemma {:induction false} AddressesBound(rs: seq<Relay>)
    ensures |Addresses(rs)| <= |rs|
    ensures |Countries(rs)| <= |rs|
    ensures DistinctAddresses(rs) ==> |Addresses(rs)| == |rs|
  {
    if rs != [] {
      var front, last := rs[..|rs| - 1], rs[|rs| - 1];
      AddressesBound(front);
      ImagesOfLast(rs);
      if DistinctAddresses(rs) {
        assert last.ipv4 !in Addresses(front);
      }
    }
  }

  lemma ImagesOfLast(rs: seq<Relay>)
    requires rs != []
    ensures var front, last := rs[..|rs| - 1], rs[|rs| - 1];
      && Addresses(rs) == Addresses(front) + {last.ipv4}
      && Countries(rs) == Countries(front) + {last.country}
  {
    assert rs == rs[..|rs| - 1] + [rs[|rs| - 1]];
  }

  lemma ImagesGrow(a: seq<Relay>, b: seq<Relay>)
    requires forall r :: r in a ==> r in b
    ensures Addresses(a) <= Addresses(b) && Countries(a) <= Countries(b)
    ensures |Addresses(a)| <= |Addresses(b)| && |Countries(a)| <= |Countries(b)|
  {
    SubsetSize(Addresses(a), Addresses(b));
    SubsetSize(Countries(a), Countries(b));
  }

  /** With distinct addresses, a country-first pass that ran dry has visited every country. */
  lemma PassCoversCountries(cs: seq<Relay>, out: seq<Relay>)
    requires DistinctAddresses(cs) && (forall r :: r in out ==> r in cs)
    requires forall c :: c in cs ==> c.ipv4 in Addresses(out) || c.country in Countries(out)
    ensures Countries(cs) == Countries(out)
  {
    forall c | c in cs
      ensures c.country in Countries(out)
    {
      if c.ipv4 in Addresses(out) {
        var r :| r in out && r.ipv4 == c.ipv4;
        var i :| 0 <= i < |cs| && cs[i] == c;
        var j :| 0 <= j < |cs| && cs[j] == r;
        assert i == j;
      }
    }
    ImagesGrow(out, cs);
  }

  /** What the two passes achieve together: first every country once, then whatever is left. */
  lemma FirstPassSpreads(cs: seq<Relay>, n: nat, first: seq<Relay>, out: seq<Relay>)
    requires DistinctAddresses(cs) && |first| <= n && |out| == n && first <= out
    requires (forall r :: r in first ==> r in cs) && (forall r :: r in out ==> r in cs)
    requires |first| < n ==> forall c :: c in cs ==> c.ipv4 in Addresses(first) || c.country in Countries(first)
    requires |Countries(first)| >= |first|
    ensures |Countries(out)| == Min(n, |Countries(cs)|)
  {
    ImagesGrow(first, out);
    ImagesGrow(out, cs);
    AddressesBound(out);
    if |first| < n {
      AddressesBound(first);
      PassCoversCountries(cs, first);
    } else {
      assert first == out;
    }
  }

  lemma TwoPasses(unsorted: seq<Relay>, cs: seq<Relay>, n: nat, first: seq<Relay>, out: seq<Relay>)
    requires cs == StableSort(unsorted) && |first| <= n && |out| <= n && first <= out
    requires (forall r :: r in first ==> r in cs) && (forall r :: r in out ==> r in cs) && DistinctAddresses(out)
    requires |first| < n ==> forall c :: c in cs ==> c.ipv4 in Addresses(first) || c.country in Countries(first)
    requires |Countries(first)| >= |first|
    requires |out| < n ==> Addresses(cs) <= Addresses(out)
    ensures |out| == n <==> |Addresses(unsorted)| >= n
    ensures |out| < n ==> Addresses(out) == Addresses(unsorted) && !(DistinctAddresses(unsorted) && |unsorted| >= n)
    ensures DistinctAddresses(unsorted) && |out| == n ==> |Countries(out)| == Min(n, |Countries(unsorted)|)
  {
    SortKeepsElements(unsorted);
    ImagesGrow(unsorted, cs);
    ImagesGrow(cs, unsorted);
    ImagesGrow(out, cs);
    CountDecides(unsorted, n, out);
    if DistinctAddresses(unsorted) && |out| == n {
      DistinctIsOrderFree(unsorted);
      FirstPassSpreads(cs, n, first, out);
    }
  }

  /** Distinct addresses taken until none is left or `n` are found. */
  lemma CountDecides(candidates: seq<Relay>, n: nat, out: seq<Relay>)
    requires |out| <= n && DistinctAddresses(out)
    requires Addresses(out) <= Addresses(candidates) && |Addresses(out)| <= |Addresses(candidates)|
    requires |out| < n ==> Addresses(candidates) <= Addresses(out)
    ensures |out| == n <==> |Addresses(candidates)| >= n
    ensures |out| < n ==> Addresses(out) == Addresses(candidates) && !(DistinctAddresses(candidates) && |candidates| >= n)
  {
    AddressesBound(out);
    AddressesBound(candidates);
  }

  lemma DistinctIsOrderFree(cs: seq<Relay>)
    ensures DistinctAddresses(cs) ==> DistinctAddresses(StableSort(cs))
  {
    if DistinctAddresses(cs) {
      SortKeepsElements(cs);
      var s := StableSort(cs);
      ImagesGrow(cs, s);
      ImagesGrow(s, cs);
      AddressesBound(cs);
      FullCountDistinct(s);
    }
  }

  /** As many addresses as relays: so it is without the last one, whose address is new. */
  lemma LastIsNew(rs: seq<Relay>)
    requires rs != [] && |Addresses(rs)| == |rs|
    ensures var front, last := rs[..|rs| - 1], rs[|rs| - 1];
            |Addresses(front)| == |front| && last.ipv4 !in Addresses(front)
  {
    ImagesOfLast(rs);
    AddressesBound(rs[..|rs| - 1]);
  }

  lemma LastJoins(rs: seq<Relay>)
    requires rs != [] && DistinctAddresses(rs[..|rs| - 1]) && rs[|rs| - 1].ipv4 !in Addresses(rs[..|rs| - 1])
    ensures DistinctAddresses(rs)
  {
    var front, last := rs[..|rs| - 1], rs[|rs| - 1];
    forall i, j | 0 <= i < j < |rs|
      ensures rs[i].ipv4 != rs[j].ipv4
    {
      assert rs[i] == front[i] && front[i] in front;
      assert j < |front| ==> rs[j] == front[j];
    }
  }

  lemma {:induction false} FullCountDistinct(rs: seq<Relay>)
    requires |Addresses(rs)| == |rs|
    ensures DistinctAddresses(rs)
  {
    if rs != [] {
      LastIsNew(rs);
      FullCountDistinct(rs[..|rs| - 1]);
      LastJoins(rs);
    }
  }

  function Min(a: nat, b: nat): nat {
    if a < b then a else b
  }

  class Allocator {
    const all: seq<Relay>
    var used: set<string>
    /** Every relay ever returned to a caller or consumed by a failed call. */
    ghost var taken: seq<Relay>

    ghost predicate Valid()
      reads this
    {
      && DistinctAddresses(taken)
      && forall r :: r in taken ==> r in all && r.active && r.ipv4 in used
    }

    constructor (all: seq<Relay>)
      ensures Valid() && this.all == all && used == {} && taken == []
    {
      this.all := all;
      used := {};
      taken := [];
    }

    /** One pass of the greedy selection over the sorted candidates. */
    method Take(cs: seq<Relay>, n: nat, filterCountry: bool, out0: seq<Relay>)
      returns (out: seq<Relay>)
      requires |out0| <= n && DistinctAddresses(out0) && Addresses(out0) <= used
      modifies this`used
      ensures used == old(used) + Addresses(out)
      ensures out0 <= out && |out| <= n && DistinctAddresses(out)
      ensures forall r :: r in out ==> r in out0 || r in cs
      ensures out0 == [] && cs != [] && n >= 1 ==> out != [] && out[0] == cs[0]
      ensures |out| < n && !filterCountry ==> Addresses(cs) <= Addresses(out)
      ensures |out| < n && filterCountry ==>
                forall c :: c in cs ==> c.ipv4 in Addresses(out) || c.country in Countries(out)
      ensures filterCountry ==> |Countries(out)| >= |Countries(out0)| + (|out| - |out0|)
    {
      out := out0;
      var seenIP := Addresses(out0);
      var seenC := Countries(out0);
      for i := 0 to |cs|
        invariant out0 <= out && |out| <= n && DistinctAddresses(out)
        invariant used == old(used) + Addresses(out)
        invariant seenIP == Addresses(out) && seenC == Countries(out)
        invariant forall r :: r in out ==> r in out0 || r in cs
        invariant i == 0 ==> out == out0
        invariant out0 == [] && i > 0 && n >= 1 ==> out != [] && out[0] == cs[0]
        invariant |out| < n ==> forall j :: 0 <= j < i ==>
                    cs[j].ipv4 in Addresses(out) || (filterCountry && cs[j].country in Countries(out))
        invariant filterCountry ==> |Countries(out)| >= |Countries(out0)| + (|out| - |out0|)
      {
        if |out| >= n {
          return;
        }
        var c := cs[i];
        if c.ipv4 in seenIP {
          continue;
        }
        if filterCountry && c.country in seenC {
          continue;
        }
        TakeOne(out, c);
        out := out + [c];
        seenC := seenC + {c.country};
        seenIP := seenIP + {c.ipv4};
        used := used + {c.ipv4};
      }
    }

    /** Both passes over the sorted candidates. */
    method Greedy(unsorted: seq<Relay>, n: nat) returns (out: seq<Relay>)
      modifies this`used
      ensures used == old(used) + Addresses(out)
      ensures DistinctAddresses(out) && |out| <= n && forall r :: r in out ==> r in unsorted
      ensures unsorted != [] && n >= 1 ==> out != [] && StableSort(unsorted) != [] && out[0] == StableSort(unsorted)[0]
      ensures |out| == n <==> |Addresses(unsorted)| >= n
      ensures |out| < n ==> Addresses(out) == Addresses(unsorted) && !(DistinctAddresses(unsorted) && |unsorted| >= n)
      ensures DistinctAddresses(unsorted) && |out| == n ==> |Countries(out)| == Min(n, |Countries(unsorted)|)
    {
      var cs := StableSort(unsorted);
      SortKeepsElements(unsorted);
      var first := Take(cs, n, true, []);
      out := Take(cs, n, false, first);
      ImagesGrow(first, out);
      TwoPasses(unsorted, cs, n, first, out);
    }

    /**
     Picks n relays. It succeeds exactly when n distinct addresses are unused; with pairwise
     distinct candidate addresses the result also visits as many countries as it can.
     */
    method Pick(n: nat, fetched: bool) returns (o: Outcome)
      requires Valid()
      modifies this`used, this`taken
      ensures Valid() && !o.NoDevice?
      ensures o.NoList? <==> !fetched
      ensures !fetched ==> used == old(used) && taken == old(taken)
      ensures o.Picked? <==> fetched && |Unused(all, old(used))| >= n
      ensures o.Picked? ==>
                && |o.relays| == n && DistinctAddresses(o.relays)
                && (forall r :: r in o.relays ==>
                      r in all && r.active && r.pubKey != "" && r.ipv4 != "" && r.ipv4 !in old(used))
                && (n >= 1 ==>
                      var sorted := StableSort(Candidates(all, old(used)));
                      sorted != [] && o.relays[0] == sorted[0])
                && used == old(used) + Addresses(o.relays) && taken == old(taken) + o.relays
      ensures o.Picked? && DistinctAddresses(Candidates(all, old(used))) ==>
                |Countries(o.relays)| == Min(n, |Countries(Candidates(all, old(used)))|)
      ensures o.TooFewUnused? ==> used == old(used) && taken == old(taken) && |Candidates(all, old(used))| < n
      ensures o.TooFewDistinct? ==> used == old(used) + Unused(all, old(used))
      ensures o.TooFewDistinct? ==> !DistinctAddresses(Candidates(all, old(used)))
      ensures old(taken) <= taken
    {
      if !fetched {
        return NoList;
      }
      var unsorted := Candidates(all, used);
      CandidatesAre(all, used);
      if |unsorted| < n {
        AddressesBound(unsorted);
        return TooFewUnused;
      }
      ghost var used0 := used;
      var out := Greedy(unsorted, n);
      TakenGrows(taken, out, used0);
      taken := taken + out;
      o := if |out| < n then TooFewDistinct else Picked(out);
    }

    /** Provision: a missing device is noticed after the relays are taken. */
    method Provision(n: nat, fetched: bool, devices: set<nat>) returns (o: Outcome)
      requires Valid()
      modifies this`used, this`taken
      ensures Valid() && old(taken) <= taken
      ensures o.Picked? <==> fetched && |Unused(all, old(used))| >= n && forall s :: 1 <= s <= n ==> s in devices
      ensures o.NoDevice? <==> fetched && |Unused(all, old(used))| >= n && !forall s :: 1 <= s <= n ==> s in devices
      ensures o.NoDevice? ==> 1 <= o.slot <= n && o.slot !in devices && (forall s :: 1 <= s < o.slot ==> s in devices)
      ensures o.Picked? || o.NoDevice? ==> |taken| == |old(taken)| + n
      ensures o.Picked? ==> |o.relays| == n && taken == old(taken) + o.relays
    {
      o := Pick(n, fetched);
      if !o.Picked? {
        return;
      }
      for i := 0 to n
        invariant forall s :: 1 <= s <= i ==> s in devices
      {
        if i + 1 !in devices {
          return NoDevice(i + 1);
        }
      }
    }

    /**
     Reestablish: a failed route's address is retired before a replacement is picked, and a slot
     without a device fails after the replacement is taken.
     */
    method Replace(slot: nat, failed: string, fetched: bool, devices: set<nat>) returns (o: Outcome)
      requires Valid()
      modifies this`used, this`taken
      ensures Valid() && old(taken) <= taken
      ensures var retired := old(used) + (if failed != "" then {failed} else {});
              && (!fetched ==> used == retired && taken == old(taken))
              && (o.Picked? <==> fetched && slot in devices && |Unused(all, retired)| >= 1)
              && (o.NoDevice? <==> fetched && slot !in devices && |Unused(all, retired)| >= 1)
      ensures o.Picked? || o.NoDevice? ==> |taken| == |old(taken)| + 1
      ensures o.Picked? ==>
                && |o.relays| == 1 && taken == old(taken) + o.relays
                && o.relays[0].ipv4 !in old(used) && o.relays[0].ipv4 != failed && o.relays[0].active
    {
      if failed != "" {
        used := used + {failed};
      }
      o := Pick(1, fetched);
      if !o.Picked? {
        return;
      }
      assert o.relays[0] in o.relays;
      if slot !in devices {
        return NoDevice(slot);
      }
    }
  }

  lemma TakenGrows(taken: seq<Relay>, out: seq<Relay>, used: set<string>)
    requires DistinctAddresses(taken) && DistinctAddresses(out)
    requires forall r :: r in taken ==> r.ipv4 in used
    requires forall r :: r in out ==> r.ipv4 !in used
    ensures DistinctAddresses(taken + out)
  {
    forall i, j | 0 <= i < |taken| && 0 <= j < |out|
      ensures taken[i].ipv4 != out[j].ipv4
    {
      assert taken[i] in taken && out[j] in out;
    }
  }

  lemma TakeOne(out: seq<Relay>, c: Relay)
    requires DistinctAddresses(out) && c.ipv4 !in Addresses(out)
    ensures DistinctAddresses(out + [c])
    ensures Addresses(out + [c]) == Addresses(out) + {c.ipv4}
    ensures Countries(out + [c]) == Countries(out) + {c.country}
  {
    forall i | 0 <= i < |out| ensures out[i].ipv4 != c.ipv4 {
      assert out[i] in out;
    }
    assert c in out + [c];
    assert forall r :: r in out ==> r in out + [c];
  }
}
