/**
 Sticky session slots and their state file (routing/manager/decodo.go:66-93, 188-358). Clock
 readings, random session ids and the outcome of reading or writing the file are inputs. The file a
 provisioner finds may come from anywhere; a missing file counts as an empty one.
 */
module DecodoSlots {
  import opened Common
  import opened DecodoUsername

  datatype Slot = Slot(session: string, created: nat)

  datatype Entry = Entry(slot: int, session: string, created: nat)

  datatype Outcome<T> = Done(value: T) | Failed

  type Slots = map<nat, Slot>

  // ---------------------------------------------------------------- the state file

  const NANOS_PER_MINUTE: nat := 60_000_000_000

  /** The sticky window. */
  function Life(minutes: int): nat {
    if minutes < 0 then 0 else minutes * NANOS_PER_MINUTE
  }

  /** load(): entries override memory, one by one; malformed entries are skipped. */
  function LoadInto(m: Slots, es: seq<Entry>): Slots {
    if es == [] then m
    else
      var rest := LoadInto(m, es[..|es| - 1]);
      var e := es[|es| - 1];
      if e.slot < 1 || e.session == "" then rest else rest[e.slot := Slot(e.session, e.created)]
  }

  ghost predicate Ascending(es: seq<Entry>) {
    forall i, j :: 0 <= i < j < |es| ==> es[i].slot < es[j].slot
  }

  ghost predicate ListedIn(e: Entry, m: Slots) {
    e.slot in m && m[e.slot] == Slot(e.session, e.created)
  }

  ghost predicate HasSlot(es: seq<Entry>, s: nat) {
    exists i :: 0 <= i < |es| && es[i].slot == s
  }

  /** The entries are those of the map, no more and no fewer. */
  ghost predicate Lists(m: Slots, es: seq<Entry>) {
    && (forall i :: 0 <= i < |es| ==> ListedIn(es[i], m))
    && (forall s :: s in m ==> HasSlot(es, s))
  }

  /** The file content that save() writes for a map. */
  ghost predicate Encodes(m: Slots, es: seq<Entry>) {
    Ascending(es) && Lists(m, es)
  }

  lemma EmptyEncoding(m: Slots)
    requires Lists(m, [])
    ensures m == map[]
  {
    assert m.Keys == {};
  }

  /** Both encodings of a map end with the same entry. */
  lemma SameLast(m: Slots, a: seq<Entry>, b: seq<Entry>)
    requires Encodes(m, a) && Encodes(m, b) && a != []
    ensures b != [] && a[|a| - 1] == b[|b| - 1]
  {
    var x := a[|a| - 1];
    assert ListedIn(x, m) && HasSlot(b, x.slot);
    var k :| 0 <= k < |b| && b[k].slot == x.slot;
    var y := b[|b| - 1];
    assert ListedIn(y, m) && HasSlot(a, y.slot);
    var h :| 0 <= h < |a| && a[h].slot == y.slot;
    assert x.slot <= y.slot <= x.slot;
  }

  lemma EmptyTogether(m: Slots, a: seq<Entry>, b: seq<Entry>)
    requires Lists(m, a) && Lists(m, b) && a == []
    ensures b == []
  {
    assert b == [] || ListedIn(b[0], m);
    EmptyEncoding(m);
  }

  lemma {:induction false} EncodingIsUniqueBy(m: Slots, a: seq<Entry>, b: seq<Entry>, n: nat)
    requires Encodes(m, a) && Encodes(m, b) && n == |a|
    ensures a == b
    decreases n
  {
    if a == [] {
      EmptyTogether(m, a, b);
    } else {
      var m', a', b' := Peel(m, a, b);
      EncodingIsUniqueBy(m', a', b', n - 1);
    }
  }

  /** Two encodings of a map without the entry they both end with. */
  lemma Peel(m: Slots, a: seq<Entry>, b: seq<Entry>) returns (m': Slots, a': seq<Entry>, b': seq<Entry>)
    requires Encodes(m, a) && Encodes(m, b) && a != []
    ensures Encodes(m', a') && Encodes(m', b') && |a'| == |a| - 1
    ensures a' == b' ==> a == b
  {
    SameLast(m, a, b);
    DropLast(m, a);
    DropLast(m, b);
    m', a', b' := m - {a[|a| - 1].slot}, a[..|a| - 1], b[..|b| - 1];
    if a' == b' {
      SameFrontAndLast(a, b);
    }
  }

  lemma SameFrontAndLast(a: seq<Entry>, b: seq<Entry>)
    requires a != [] && b != [] && a[..|a| - 1] == b[..|b| - 1] && a[|a| - 1] == b[|b| - 1]
    ensures a == b
  {
    assert a == a[..|a| - 1] + [a[|a| - 1]];
    assert b == b[..|b| - 1] + [b[|b| - 1]];
  }

  /** The file content depends on the map only, not on the order in which the map is walked. */
  lemma EncodingIsUnique(m: Slots, a: seq<Entry>, b: seq<Entry>)
    requires Encodes(m, a) && Encodes(m, b)
    ensures a == b
  {
    EncodingIsUniqueBy(m, a, b, |a|);
  }

  lemma DropLast(m: Slots, es: seq<Entry>)
    requires Encodes(m, es) && es != []
    ensures Encodes(m - {es[|es| - 1].slot}, es[..|es| - 1])
    ensures ListedIn(es[|es| - 1], m)
  {
    var n := |es| - 1;
    var m', front := m - {es[n].slot}, es[..n];
    forall i | 0 <= i < n
      ensures ListedIn(front[i], m')
    {
      assert ListedIn(es[i], m) && es[i].slot < es[n].slot;
    }
    forall s | s in m'
      ensures HasSlot(front, s)
    {
      assert HasSlot(es, s);
      var i :| 0 <= i < |es| && es[i].slot == s;
      assert front[i].slot == s;
    }
  }

  /** What load() lets through. */
  ghost predicate Loadable(m: Slots) {
    forall s :: s in m ==> s >= 1 && m[s].session != ""
  }

  ghost predicate WellFormed(m: Slots) {
    forall s :: s in m ==> s >= 1 && AlphaNum(m[s].session)
  }

  /** Loading any file, skipped and repeated entries included, overrides memory with what it holds. */
  lemma {:induction false} LoadIsOverride(m: Slots, es: seq<Entry>)
    ensures LoadInto(m, es) == m + LoadInto(map[], es) && Loadable(LoadInto(map[], es))
    decreases |es|
  {
    if es == [] {
      assert m + map[] == m;
    } else {
      LoadIsOverride(m, es[..|es| - 1]);
      var e := es[|es| - 1];
      if !(e.slot < 1 || e.session == "") {
        PutOver(m, LoadInto(map[], es[..|es| - 1]), e.slot, Slot(e.session, e.created));
      }
    }
  }

  lemma PutOver(m: Slots, loaded: Slots, k: nat, x: Slot)
    ensures (m + loaded)[k := x] == m + loaded[k := x]
  {
  }

  lemma PutLast(m: Slots, saved: Slots, k: nat)
    requires k in saved
    ensures (m + (saved - {k}))[k := saved[k]] == m + saved
  {
  }

  /** What loading a saved file does to any memory. */
  lemma {:induction false} LoadOverrides(m: Slots, saved: Slots, es: seq<Entry>)
    requires Loadable(saved) && Encodes(saved, es)
    ensures LoadInto(m, es) == m + saved
    decreases |es|
  {
    if es == [] {
      EmptyEncoding(saved);
      assert m + saved == m;
    } else {
      var x := es[|es| - 1];
      DropLast(saved, es);
      LoadOverrides(m, saved - {x.slot}, es[..|es| - 1]);
      PutLast(m, saved, x.slot);
    }
  }

  /** Load after save is the identity, from an empty memory or from the memory that was saved. */
  lemma SaveLoadRoundTrip(m: Slots, es: seq<Entry>)
    requires Loadable(m) && Encodes(m, es)
    ensures LoadInto(map[], es) == m && LoadInto(m, es) == m
  {
    LoadOverrides(map[], m, es);
    LoadOverrides(m, m, es);
    assert map[] + m == m && m + m == m;
  }

  // ---------------------------------------------------------------- sorting in place

  method SwapDown(a: array<Entry>, j: int)
    requires 0 < j < a.Length
    modifies a
    ensures a[j] == old(a[j - 1]) && a[j - 1] == old(a[j])
    ensures forall k :: 0 <= k < a.Length && k != j && k != j - 1 ==> a[k] == old(a[k])
    ensures multiset(a[..]) == multiset(old(a[..]))
  {
    a[j], a[j - 1] := a[j - 1], a[j];
  }

  /** The inner loop: sink entry i into the sorted part before it. */
  method Sink(a: array<Entry>, i: int)
    requires 0 <= i < a.Length
    requires forall p, q :: 0 <= p < q < i ==> a[p].slot <= a[q].slot
    modifies a
    ensures multiset(a[..]) == multiset(old(a[..]))
    ensures forall p, q :: 0 <= p < q <= i ==> a[p].slot <= a[q].slot
  {
    var j := i;
    while j > 0 && a[j].slot < a[j - 1].slot
      invariant 0 <= j <= i
      invariant multiset(a[..]) == multiset(old(a[..]))
      invariant forall p, q :: 0 <= p < q <= i && p != j && q != j ==> a[p].slot <= a[q].slot
      invariant forall q :: j < q <= i ==> a[j].slot <= a[q].slot
    {
      SwapDown(a, j);
      j := j - 1;
    }
  }

  /** The insertion sort of save(). */
  method SortEntries(a: array<Entry>)
    modifies a
    ensures multiset(a[..]) == multiset(old(a[..]))
    ensures forall p, q :: 0 <= p < q < a.Length ==> a[p].slot <= a[q].slot
  {
    var i := 0;
    while i < a.Length
      invariant 0 <= i <= a.Length
      invariant multiset(a[..]) == multiset(old(a[..]))
      invariant forall p, q :: 0 <= p < q < i ==> a[p].slot <= a[q].slot
    {
      Sink(a, i);
      i := i + 1;
    }
  }

  /** save()'s file content, whatever order the map yields its entries in. */
  method Encode(m: Slots) returns (es: seq<Entry>)
    ensures Encodes(m, es)
  {
    var list: seq<Entry> := [];
    var rest := m.Keys;
    while rest != {}
      invariant rest <= m.Keys
      invariant forall i :: 0 <= i < |list| ==> ListedIn(list[i], m) && list[i].slot !in rest
      invariant forall s :: s in m && s !in rest ==> HasSlot(list, s)
      invariant DistinctSlots(list)
      decreases rest
    {
      var k :| k in rest;
      HasSlotGrows(list, Entry(k, m[k].session, m[k].created));
      list := list + [Entry(k, m[k].session, m[k].created)];
      rest := rest - {k};
    }
    var a := new Entry[|list|](i requires 0 <= i < |list| => list[i]);
    assert a[..] == list;
    SortEntries(a);
    es := a[..];
    SortedEncoding(m, list, es);
  }

  ghost predicate DistinctSlots(list: seq<Entry>) {
    forall i, j :: 0 <= i < j < |list| ==> list[i].slot != list[j].slot
  }

  lemma HasSlotGrows(list: seq<Entry>, e: Entry)
    ensures forall s :: HasSlot(list + [e], s) <==> HasSlot(list, s) || s == e.slot
  {
    forall s
      ensures HasSlot(list + [e], s) <==> HasSlot(list, s) || s == e.slot
    {
      if HasSlot(list, s) {
        var i :| 0 <= i < |list| && list[i].slot == s;
        assert (list + [e])[i].slot == s;
      }
      assert (list + [e])[|list|] == e;
    }
  }

  lemma SameElements(list: seq<Entry>, es: seq<Entry>)
    requires multiset(es) == multiset(list)
    ensures forall i :: 0 <= i < |es| ==> es[i] in list
    ensures forall i :: 0 <= i < |list| ==> list[i] in es
  {
    forall i | 0 <= i < |es| ensures es[i] in list {
      assert es[i] in multiset(es);
    }
    forall i | 0 <= i < |list| ensures list[i] in es {
      assert list[i] in multiset(list);
    }
  }

  lemma SortedEncoding(m: Slots, list: seq<Entry>, es: seq<Entry>)
    requires Lists(m, list) && multiset(es) == multiset(list) && DistinctSlots(list)
    requires forall p, q :: 0 <= p < q < |es| ==> es[p].slot <= es[q].slot
    ensures Encodes(m, es)
  {
    SameElements(list, es);
    forall i | 0 <= i < |es|
      ensures ListedIn(es[i], m)
    {
      var j :| 0 <= j < |list| && list[j] == es[i];
    }
    forall s | s in m
      ensures HasSlot(es, s)
    {
      assert HasSlot(list, s);
      var j :| 0 <= j < |list| && list[j].slot == s;
      var i :| 0 <= i < |es| && es[i] == list[j];
    }
    forall p, q | 0 <= p < q < |es|
      ensures es[p].slot != es[q].slot
    {
      assert ListedIn(es[p], m) && ListedIn(es[q], m);
      OnceEach(list, es[p]);
      if es[p] == es[q] {
        CountTwice(es, p, q);
      }
    }
  }

  lemma CountTwice(es: seq<Entry>, p: nat, q: nat)
    requires p < q < |es| && es[p] == es[q]
    ensures multiset(es)[es[p]] >= 2
  {
    assert es == es[..q] + es[q..];
    assert es[p] in es[..q] by { assert es[..q][p] == es[p]; }
    assert es[q] in es[q..] by { assert es[q..][0] == es[q]; }
    assert multiset(es) == multiset(es[..q]) + multiset(es[q..]);
  }

  lemma {:induction false} OnceEach(list: seq<Entry>, e: Entry)
    requires DistinctSlots(list)
    ensures multiset(list)[e] <= 1
  {
    if list != [] {
      var front, x := list[..|list| - 1], list[|list| - 1];
      OnceEach(front, e);
      assert list == front + [x];
      if x == e {
        assert e !in front;
      }
    }
  }

  // ---------------------------------------------------------------- the provisioner

  /** Every session id was minted for one slot. */
  ghost predicate Owned(m: Slots, owner: map<string, nat>) {
    forall s :: s in m ==> m[s].session in owner && owner[m[s].session] == s
  }

  /** Ids are never rebound to another slot. */
  ghost predicate OwnerGrows(before: map<string, nat>, after: map<string, nat>) {
    forall id :: id in before ==> id in after && after[id] == before[id]
  }

  lemma OwnedSessionsDiffer(m: Slots, owner: map<string, nat>, s: nat, t: nat)
    requires Owned(m, owner) && s in m && t in m && s != t
    ensures m[s].session != m[t].session
  {
  }

  /** A slot is renewed when it is missing, empty or past its sticky window. */
  predicate Stale(m: Slots, slot: nat, now: nat, life: nat) {
    !(slot in m && m[slot].session != "" && now < m[slot].created + life)
  }

  /** The slots after ensuring 1..n. */
  function Ensured(m: Slots, n: nat, now: nat, life: nat, ids: seq<string>): Slots
    requires n <= |ids|
  {
    if n == 0 then m
    else
      var before := Ensured(m, n - 1, now, life, ids);
      if Stale(before, n, now, life) then before[n := Slot(ids[n - 1], now)] else before
  }

  lemma {:induction false} EnsuredAt(m: Slots, n: nat, now: nat, life: nat, ids: seq<string>, s: nat)
    requires n <= |ids|
    ensures var r := Ensured(m, n, now, life, ids);
            if 1 <= s <= n && Stale(m, s, now, life) then s in r && r[s] == Slot(ids[s - 1], now)
            else (s in r <==> s in m) && (s in m ==> r[s] == m[s])
  {
    if n > 0 {
      EnsuredAt(m, n - 1, now, life, ids, s);
      EnsuredAt(m, n - 1, now, life, ids, n);
    }
  }

  /** Over `n` slots, with the window in nanoseconds: which change, and to what. */
  lemma EnsuredPlainly(m: Slots, n: nat, now: nat, minutes: nat, ids: seq<string>, s: nat)
    requires 1 <= s <= n <= |ids|
    ensures var r := Ensured(m, n, now, Life(minutes), ids);
      && (s in m && m[s].session != "" && now < m[s].created + minutes * 60_000_000_000 ==> s in r && r[s] == m[s])
      && (s !in m || m[s].session == "" || now >= m[s].created + minutes * 60_000_000_000 ==>
            s in r && r[s].session == ids[s - 1] && r[s].created == now)
  {
    EnsuredAt(m, n, now, Life(minutes), ids, s);
  }

  /** The last well-formed entry of a slot is the one that counts. */
  lemma {:induction false} LastEntryCounts(es: seq<Entry>, k: nat)
    requires k < |es| && es[k].slot >= 1 && es[k].session != ""
    requires forall j :: k < j < |es| && es[j].slot == es[k].slot ==> es[j].session == ""
    ensures es[k].slot in LoadInto(map[], es) && LoadInto(map[], es)[es[k].slot] == Slot(es[k].session, es[k].created)
    decreases |es|
  {
    if k < |es| - 1 {
      var front := es[..|es| - 1];
      assert front[k] == es[k];
      LastEntryCounts(front, k);
    }
  }

  /** A slot that no well-formed entry names is not loaded. */
  lemma {:induction false} NoEntryNoSlot(es: seq<Entry>, s: nat)
    requires forall j :: 0 <= j < |es| && es[j].slot == s ==> s < 1 || es[j].session == ""
    ensures s !in LoadInto(map[], es)
    decreases |es|
  {
    if es != [] {
      NoEntryNoSlot(es[..|es| - 1], s);
    }
  }

  lemma EnsuredNext(m: Slots, k: nat, slot: nat, now: nat, life: nat, ids: seq<string>, id: string)
    requires k < |ids| && slot == k + 1 && id == ids[k]
    ensures var before := Ensured(m, k, now, life, ids);
            Ensured(m, slot, now, life, ids) == if Stale(before, slot, now, life) then before[slot := Slot(id, now)] else before
  {
  }

  /** Fresh, usable ids: hexadecimal, pairwise different and never seen before. */
  ghost predicate FreshIds(ids: seq<string>, owner: map<string, nat>) {
    && (forall i :: 0 <= i < |ids| ==> AlphaNum(ids[i]) && ids[i] !in owner)
    && (forall i, j :: 0 <= i < j < |ids| ==> ids[i] != ids[j])
  }

  /** The ids from `k` on are still unused. */
  ghost predicate RestFresh(ids: seq<string>, k: nat, owner: map<string, nat>) {
    && (forall i :: 0 <= i < |ids| ==> AlphaNum(ids[i]))
    && (forall i, j :: 0 <= i < j < |ids| ==> ids[i] != ids[j])
    && (forall i :: k <= i < |ids| ==> ids[i] !in owner)
  }

  lemma OneIdUsed(ids: seq<string>, k: nat, slot: nat, id: string, before: map<string, nat>, after: map<string, nat>)
    requires k < |ids| && slot == k + 1 && id == ids[k]
    requires RestFresh(ids, k, before) && forall other :: other in after ==> other in before || other == id
    ensures RestFresh(ids, slot, after)
  {
  }

  /** The loop of load(). */
  method ReadEntries(m: Slots, es: seq<Entry>) returns (out: Slots)
    ensures out == LoadInto(m, es)
  {
    out := m;
    for i := 0 to |es|
      invariant out == LoadInto(m, es[..i])
    {
      assert es[..i + 1][..i] == es[..i];
      if es[i].slot < 1 || es[i].session == "" {
        continue;
      }
      out := out[es[i].slot := Slot(es[i].session, es[i].created)];
    }
    assert es[..|es|] == es;
  }

  predicate InSlot(m: Slots, s: nat, session: string) {
    s in m && m[s].session == session
  }

  /** A usable session always gives a username. */
  lemma UsernameAccepted(account: string, country: string, session: string, minutes: int)
    requires Acceptable(Normalise(account, country, "session", minutes)) && AlphaNum(session)
    ensures Username(account, country, session, minutes).Ok?
  {
    AlphaNumIsTrimmed(session);
  }

  /** Two slots share an upstream username exactly when their sessions do, blanks aside; genuine ones never do. */
  lemma SlotsGetDistinctUsers(account: string, country: string, minutes: int, m: Slots, owner: map<string, nat>, s: nat, t: nat)
    requires Acceptable(Normalise(account, country, "session", minutes)) && s in m && t in m && s != t
    ensures var u, v := Username(account, country, m[s].session, minutes), Username(account, country, m[t].session, minutes);
            && (u.Ok? && v.Ok? ==> (u == v <==> TrimSpace(m[s].session) == TrimSpace(m[t].session)))
            && (WellFormed(m) && Owned(m, owner) ==> u.Ok? && v.Ok? && u != v)
  {
    var u, v := Username(account, country, m[s].session, minutes), Username(account, country, m[t].session, minutes);
    if u.Ok? && v.Ok? {
      SameUserExactlyWhen(account, country, m[s].session, m[t].session, minutes);
    }
    if WellFormed(m) && Owned(m, owner) {
      UsernameAccepted(account, country, m[s].session, minutes);
      UsernameAccepted(account, country, m[t].session, minutes);
      OwnedSessionsDiffer(m, owner, s, t);
      SessionsGiveDistinctUsernames(account, country, m[s].session, m[t].session, minutes);
    }
  }

  // ---------------------------------------------------------------- when provisioned sessions differ

  function Same(session: string): string {
    session
  }

  /** Slots 1..n are filled and differ in their sessions' keys. */
  ghost predicate KeysDiffer(m: Slots, n: nat, key: string -> string) {
    && (forall s :: 1 <= s <= n ==> s in m)
    && (forall s, t :: 1 <= s < t <= n ==> s in m && t in m && key(m[s].session) != key(m[t].session))
  }

  /** So do those of slots 1..n that are not due for renewal. */
  ghost predicate LiveKeysDiffer(m: Slots, n: nat, now: nat, life: nat, key: string -> string) {
    forall s, t :: 1 <= s < t <= n && !Stale(m, s, now, life) && !Stale(m, t, now, life) ==>
      key(m[s].session) != key(m[t].session)
  }

  /** The ids differ from one another and from every session's key. */
  ghost predicate NewUnder(ids: seq<string>, m: Slots, key: string -> string) {
    && (forall i :: 0 <= i < |ids| ==> key(ids[i]) == ids[i])
    && (forall i, j :: 0 <= i < j < |ids| ==> ids[i] != ids[j])
    && (forall i, s :: 0 <= i < |ids| && s in m ==> ids[i] != key(m[s].session))
  }

  /** After renewal the sessions of 1..n differ exactly when the live ones did; expired ones do no harm. */
  lemma EnsuredDifferExactlyWhen(m: Slots, n: nat, now: nat, life: nat, ids: seq<string>, key: string -> string)
    requires n <= |ids| && NewUnder(ids, m, key)
    ensures KeysDiffer(Ensured(m, n, now, life, ids), n, key) <==> LiveKeysDiffer(m, n, now, life, key)
  {
    var r := Ensured(m, n, now, life, ids);
    forall s | 1 <= s <= n
      ensures s in r && r[s] == if Stale(m, s, now, life) then Slot(ids[s - 1], now) else m[s]
    {
      EnsuredAt(m, n, now, life, ids, s);
    }
    if LiveKeysDiffer(m, n, now, life, key) {
      forall s, t | 1 <= s < t <= n
        ensures key(r[s].session) != key(r[t].session)
      {
        assert ids[s - 1] != ids[t - 1];
      }
    }
  }

  /** A freshly minted session may take over a slot. */
  lemma MintKeeps(m: Slots, owner: map<string, nat>, slot: nat, x: Slot)
    requires Owned(m, owner) && x.session !in owner
    ensures Owned(m[slot := x], owner[x.session := slot]) && OwnerGrows(owner, owner[x.session := slot])
  {
  }

  lemma OwnedStays(m: Slots, before: map<string, nat>, after: map<string, nat>)
    requires Owned(m, before) && OwnerGrows(before, after)
    ensures Owned(m, after)
  {
  }

  ghost predicate DistinctSessions(m: Slots) {
    forall s, t :: s in m && t in m && s != t ==> m[s].session != m[t].session
  }

  ghost function OwnersOf(m: Slots): map<string, nat> {
    map id | id in (set s | s in m :: m[s].session) :: SlotOf(m, id)
  }

  ghost function SlotOf(m: Slots, id: string): (s: nat)
    ensures (exists t :: t in m && m[t].session == id) ==> s in m && m[s].session == id
  {
    if exists t :: t in m && m[t].session == id then
      var s :| s in m && m[s].session == id; s
    else 0
  }

  lemma DistinctAreOwned(m: Slots)
    requires DistinctSessions(m)
    ensures Owned(m, OwnersOf(m))
  {
  }

  /** Slots 1..n's sessions in order, pairwise different. */
  ghost predicate HandsOut(m: Slots, n: nat, sessions: seq<string>) {
    && |sessions| == n
    && (forall i :: 0 <= i < n ==> InSlot(m, i + 1, sessions[i]))
    && (forall i, j :: 0 <= i < j < n ==> sessions[i] != sessions[j])
  }

  lemma SessionsDiffer(m: Slots, owner: map<string, nat>, n: nat, sessions: seq<string>)
    requires Owned(m, owner) && |sessions| == n && forall i :: 0 <= i < n ==> InSlot(m, i + 1, sessions[i])
    ensures HandsOut(m, n, sessions)
  {
    forall i, j | 0 <= i < j < n
      ensures sessions[i] != sessions[j]
    {
      assert InSlot(m, i + 1, sessions[i]) && InSlot(m, j + 1, sessions[j]);
      OwnedSessionsDiffer(m, owner, i + 1, j + 1);
    }
  }

  /** Keys of slots 1, 2, ... and of the sessions they hold. */
  lemma SlotsAndSessions(m: Slots, sessions: seq<string>, key: string -> string)
    requires forall i :: 0 <= i < |sessions| ==> InSlot(m, i + 1, sessions[i])
    ensures KeysDiffer(m, |sessions|, key) <==>
            forall i, j :: 0 <= i < j < |sessions| ==> key(sessions[i]) != key(sessions[j])
  {
    forall s | 1 <= s <= |sessions|
      ensures s in m && m[s].session == sessions[s - 1]
    {
      var i := s - 1;
      assert InSlot(m, i + 1, sessions[i]);
    }
    if KeysDiffer(m, |sessions|, key) {
      forall i, j | 0 <= i < j < |sessions|
        ensures key(sessions[i]) != key(sessions[j])
      {
        assert InSlot(m, i + 1, sessions[i]) && InSlot(m, j + 1, sessions[j]);
        assert key(m[i + 1].session) != key(m[j + 1].session);
      }
    }
  }

  class Decodo {
    const account: string
    const country: string
    const minutes: int
    /** False when no state path is configured. */
    const persistent: bool
    var slots: Slots
    var file: seq<Entry>
    /** Every id known at the start or minted since, with its slot. */
    ghost var owner: map<string, nat>

    ghost predicate Valid()
      reads this
    {
      Acceptable(Normalise(account, country, "session", minutes)) && Loadable(slots)
    }

    /** Whether a session makes an upstream username. */
    predicate Accepts(session: string) {
      Username(account, country, session, minutes).Ok?
    }

    /** What the file holds. */
    ghost function Saved(): Slots
      reads this
    {
      LoadInto(map[], file)
    }

    /** File and memory agree. */
    ghost predicate InStep()
      reads this
    {
      persistent ==> Saved() == slots
    }

    ghost function Loaded(): Slots
      reads this
    {
      if persistent then slots + Saved() else slots
    }

    /** Well-formed ids that each belong to one slot, in memory and in the file. */
    ghost predicate Genuine()
      reads this
    {
      WellFormed(slots) && WellFormed(Saved()) && Owned(slots, owner) && Owned(Saved(), owner)
    }

    /** A provisioner starts with empty memory beside any state file. */
    constructor (account: string, country: string, minutes: int, persistent: bool, file: seq<Entry>)
      requires Acceptable(Normalise(account, country, "session", minutes))
      ensures Valid() && slots == map[] && this.file == file && this.persistent == persistent && owner == OwnersOf(Saved())
      ensures this.account == account && this.country == country && this.minutes == minutes
      ensures WellFormed(Saved()) && DistinctSessions(Saved()) ==> Genuine()
    {
      this.account, this.country, this.minutes, this.persistent := account, country, minutes, persistent;
      slots, this.file, owner := map[], file, OwnersOf(LoadInto(map[], file));
      new;
      if DistinctSessions(Saved()) {
        DistinctAreOwned(Saved());
      }
    }

    method Load(readable: bool) returns (ok: bool)
      requires Valid()
      modifies this`slots
      ensures Valid() && ok == (readable || !persistent)
      ensures slots == if ok then old(Loaded()) else old(slots)
      ensures old(Genuine()) ==> Genuine()
    {
      if !persistent {
        return true;
      }
      if !readable {
        return false;
      }
      LoadIsOverride(slots, file);
      slots := ReadEntries(slots, file);
      return true;
    }

    method Save(writable: bool) returns (ok: bool)
      requires Valid()
      modifies this`file
      ensures Valid() && ok == (writable || !persistent)
      ensures if ok && persistent then Saved() == slots else file == old(file)
      ensures old(Genuine()) ==> Genuine()
    {
      if !persistent {
        return true;
      }
      var es := Encode(slots);
      SaveLoadRoundTrip(slots, es);
      if !writable {
        return false;
      }
      file := es;
      return true;
    }

    /** route(): fails for a session that makes no username. */
    method Route(slot: nat) returns (r: Outcome<string>)
      requires Valid() && slot in slots
      ensures r == RouteOf(slots, slot)
    {
      var u := Username(account, country, slots[slot].session, minutes);
      if u.Err? {
        return Failed;
      }
      return Done(slots[slot].session);
    }

    /** ensure(): keep a live slot, renew a missing or expired one. */
    method EnsureSlot(slot: nat, now: nat, id: string)
      requires Valid() && slot >= 1 && AlphaNum(id) && id !in owner
      modifies this`slots, this`owner
      ensures Valid() && slot in slots && OwnerGrows(old(owner), owner)
      ensures forall other :: other in owner ==> other in old(owner) || other == id
      ensures slots == if Stale(old(slots), slot, now, Life(minutes)) then old(slots)[slot := Slot(id, now)] else old(slots)
      ensures slots == old(slots) || slots == old(slots)[slot := Slot(id, now)]
      ensures slot in old(slots) && old(slots)[slot].session != "" && now < old(slots)[slot].created + minutes * 60_000_000_000 ==>
                slots == old(slots)
      ensures slot !in old(slots) || old(slots)[slot].session == "" || now >= old(slots)[slot].created + minutes * 60_000_000_000 ==>
                slots[slot] == Slot(id, now)
      ensures old(Genuine()) ==> Genuine()
    {
      if slot in slots && slots[slot].session != "" && now < slots[slot].created + Life(minutes) {
        return;
      }
      if Genuine() {
        MintKeeps(slots, owner, slot, Slot(id, now));
        OwnedStays(Saved(), owner, owner[id := slot]);
      }
      slots := slots[slot := Slot(id, now)];
      owner := owner[id := slot];
    }

    /** Slots 1..k of `start` have been ensured. */
    ghost predicate EnsuredFrom(start: Slots, k: nat, now: nat, ids: seq<string>)
      reads this
    {
      k <= |ids| && slots == Ensured(start, k, now, Life(minutes), ids)
    }

    /** One turn of the slot loop, for slot |sessions| + 1. */
    method EnsureNext(ghost start: Slots, sessions: seq<string>, now: nat, ids: seq<string>, ghost k: nat)
      returns (r: Outcome<string>, ghost k': nat)
      requires Valid() && k == |sessions| < |ids| && RestFresh(ids, k, owner)
      requires HandsOver(slots, sessions) && EnsuredFrom(start, k, now, ids)
      modifies this`slots, this`owner
      ensures k' == k + 1 && Valid() && OwnerGrows(old(owner), owner) && RestFresh(ids, k', owner)
      ensures EnsuredFrom(start, k', now, ids)
      ensures TurnEnds(slots, sessions, r, k')
      ensures old(Genuine()) ==> Genuine()
    {
      var slot, id := |sessions| + 1, ids[|sessions|];
      k' := slot;
      EnsureSlot(slot, now, id);
      EnsuredNext(start, k, slot, now, Life(minutes), ids, id);
      OneIdUsed(ids, k, slot, id, old(owner), owner);
      HandsOverStep(old(slots), slots, sessions, Slot(id, now), slot);
      r := Route(slot);
    }

    /** The session of `slot` was handed over, or makes no username. */
    ghost predicate TurnEnds(m: Slots, sessions: seq<string>, r: Outcome<string>, slot: nat) {
      if r.Done? then HandsOver(m, sessions + [r.value]) else HandsOver(m, sessions) && Refused(m, slot)
    }

    function RouteOf(m: Slots, slot: nat): Outcome<string>
      requires slot in m
    {
      if Accepts(m[slot].session) then Done(m[slot].session) else Failed
    }

    /** The slot loop of Provision; it stops at a slot whose session makes no username. */
    method EnsureSlots(n: nat, now: nat, ids: seq<string>) returns (sessions: seq<string>, ghost reached: nat)
      requires Valid() && |ids| == n && FreshIds(ids, owner)
      modifies this`slots, this`owner
      ensures Valid() && OwnerGrows(old(owner), owner)
      ensures |sessions| <= n && HandsOver(slots, sessions)
      ensures EnsuredFrom(old(slots), reached, now, ids)
      ensures |sessions| == n ==> reached == n
      ensures |sessions| < n ==> reached == |sessions| + 1 && Refused(slots, reached)
      ensures old(Genuine()) ==> Genuine()
    {
      sessions, reached := [], 0;
      while |sessions| < n
        invariant reached == |sessions| <= n && Valid() && OwnerGrows(old(owner), owner)
        invariant EnsuredFrom(old(slots), reached, now, ids)
        invariant HandsOver(slots, sessions) && RestFresh(ids, reached, owner)
        invariant old(Genuine()) ==> Genuine()
        decreases n - |sessions|
      {
        var r;
        r, reached := EnsureNext(old(slots), sessions, now, ids, reached);
        if r.Failed? {
          return;
        }
        sessions := sessions + [r.value];
      }
    }

    /** `sessions` are those of slots 1, 2, ... and all accepted. */
    ghost predicate HandsOver(m: Slots, sessions: seq<string>) {
      forall i :: 0 <= i < |sessions| ==> InSlot(m, i + 1, sessions[i]) && Accepts(sessions[i])
    }

    /** The slot's session makes no username. */
    ghost predicate Refused(m: Slots, slot: nat) {
      slot in m && !Accepts(m[slot].session)
    }

    lemma HandsOverStep(m: Slots, m': Slots, sessions: seq<string>, x: Slot, slot: nat)
      requires HandsOver(m, sessions) && slot == |sessions| + 1 && (m' == m || m' == m[slot := x]) && slot in m'
      ensures TurnEnds(m', sessions, RouteOf(m', slot), slot)
    {
      forall i | 0 <= i < |sessions|
        ensures InSlot(m', i + 1, sessions[i])
      {
        assert InSlot(m, i + 1, sessions[i]);
      }
    }

    /** Slots 1..n of `m` all make usernames. */
    ghost predicate AllAccepted(m: Slots, n: nat) {
      forall s :: 1 <= s <= n ==> s in m && Accepts(m[s].session)
    }

    lemma EnsuredAccepted(m: Slots, n: nat, k: nat, now: nat, ids: seq<string>)
      requires k <= n <= |ids| && AllAccepted(Ensured(m, n, now, Life(minutes), ids), n)
      ensures AllAccepted(Ensured(m, k, now, Life(minutes), ids), k)
    {
      var life := Life(minutes);
      forall s | 1 <= s <= k
        ensures s in Ensured(m, k, now, life, ids) && Accepts(Ensured(m, k, now, life, ids)[s].session)
      {
        EnsuredAt(m, n, now, life, ids, s);
        EnsuredAt(m, k, now, life, ids, s);
        assert s in Ensured(m, n, now, life, ids);
      }
    }

    lemma GenuineIsAccepted(m: Slots, n: nat, now: nat, ids: seq<string>)
      requires Acceptable(Normalise(account, country, "session", minutes))
      requires WellFormed(m) && |ids| == n && forall i :: 0 <= i < n ==> AlphaNum(ids[i])
      ensures AllAccepted(Ensured(m, n, now, Life(minutes), ids), n)
    {
      var r := Ensured(m, n, now, Life(minutes), ids);
      forall s | 1 <= s <= n
        ensures s in r && Accepts(r[s].session)
      {
        EnsuredAt(m, n, now, Life(minutes), ids, s);
        UsernameAccepted(account, country, r[s].session, minutes);
      }
    }

    /**
     Sessions handed out from `start`, fresh ids given: they differ exactly when those of the live
     slots do, and their upstream usernames exactly when those of the live slots do, blanks aside.
     */
    ghost predicate DifferAsLive(start: Slots, now: nat, ids: seq<string>, sessions: seq<string>) {
      && (NewUnder(ids, start, Same) ==>
            (Differ(sessions) <==> LiveKeysDiffer(start, |sessions|, now, Life(minutes), Same)))
      && (NewUnder(ids, start, TrimSpace) ==>
            (UsersDiffer(sessions) <==> LiveKeysDiffer(start, |sessions|, now, Life(minutes), TrimSpace)))
    }

    lemma HandedOverAsLive(start: Slots, now: nat, ids: seq<string>, sessions: seq<string>)
      requires HandsOver(slots, sessions) && EnsuredFrom(start, |sessions|, now, ids)
      ensures DifferAsLive(start, now, ids, sessions)
    {
      HandedOverDiffer(sessions);
      if NewUnder(ids, start, Same) {
        EnsuredDifferExactlyWhen(start, |sessions|, now, Life(minutes), ids, Same);
      }
      if NewUnder(ids, start, TrimSpace) {
        EnsuredDifferExactlyWhen(start, |sessions|, now, Life(minutes), ids, TrimSpace);
      }
    }

    /** The slots that Provision leaves when it gets as far as its loop. */
    ghost predicate Renewed(start: Slots, n: nat, now: nat, ids: seq<string>, reached: nat)
      reads this
    {
      reached <= n && EnsuredFrom(start, reached, now, ids) && (reached < n ==> reached >= 1 && Refused(slots, reached))
    }

    ghost predicate AllRenewable(start: Slots, n: nat, now: nat, ids: seq<string>)
      requires n <= |ids|
    {
      AllAccepted(Ensured(start, n, now, Life(minutes), ids), n)
    }

    /** The slot loop and the save. */
    method Renew(n: nat, now: nat, ids: seq<string>, writable: bool) returns (r: Outcome<seq<string>>, ghost reached: nat)
      requires Valid() && |ids| == n >= 1 && FreshIds(ids, owner)
      modifies this
      ensures Valid() && OwnerGrows(old(owner), owner) && (old(Genuine()) ==> Genuine())
      ensures Renewed(old(slots), n, now, ids, reached)
      ensures r.Done? <==> AllRenewable(old(slots), n, now, ids) && (!persistent || writable)
      ensures AllRenewable(old(slots), n, now, ids) ==> reached == n
      ensures r.Done? ==> InStep() && |r.value| == n && HandsOver(slots, r.value)
      ensures r.Done? ==> DifferAsLive(old(slots), now, ids, r.value)
    {
      var out;
      out, reached := EnsureSlots(n, now, ids);
      if |out| < n {
        if AllRenewable(old(slots), n, now, ids) {
          EnsuredAccepted(old(slots), n, reached, now, ids);
        }
        return Failed, reached;
      }
      AllHandedOver(out);
      HandedOverAsLive(old(slots), now, ids, out);
      var stored := Save(writable);
      if !stored {
        return Failed, reached;
      }
      r := Done(out);
    }

    /**
     Renews only missing or expired slots of 1..n and returns the n sessions. With a file and
     memory of genuine ids it fails only where the file does, and the sessions differ pairwise.
     With any file, DifferAsLive says exactly when they do.
     */
    method Provision(n: nat, now: nat, ids: seq<string>, readable: bool, writable: bool)
      returns (r: Outcome<seq<string>>, ghost reached: nat)
      requires Valid() && |ids| == n && FreshIds(ids, owner)
      modifies this
      ensures Valid() && OwnerGrows(old(owner), owner) && (old(Genuine()) ==> Genuine())
      ensures n < 1 || (persistent && !readable) ==> r.Failed? && slots == old(slots)
      ensures n >= 1 && (!persistent || readable) ==>
                && Renewed(old(Loaded()), n, now, ids, reached)
                && (r.Done? <==> AllRenewable(old(Loaded()), n, now, ids) && (!persistent || writable))
      ensures old(Genuine()) && n >= 1 && (!persistent || readable) ==> reached == n && (r.Done? <==> !persistent || writable)
      ensures r.Done? ==> InStep() && |r.value| == n && HandsOver(slots, r.value)
      ensures r.Done? ==> DifferAsLive(old(Loaded()), now, ids, r.value)
      ensures r.Done? && old(Genuine()) ==> HandsOut(slots, n, r.value)
    {
      if n < 1 {
        return Failed, 0;
      }
      var ok := Load(readable);
      if !ok {
        return Failed, 0;
      }
      if Genuine() {
        GenuineIsAccepted(slots, n, now, ids);
      }
      r, reached := Renew(n, now, ids, writable);
      if r.Done? && Genuine() {
        SessionsDiffer(slots, owner, n, r.value);
      }
    }

    ghost predicate Differ(sessions: seq<string>) {
      forall i, j :: 0 <= i < j < |sessions| ==> sessions[i] != sessions[j]
    }

    /** No two sessions dial with the same upstream username. */
    ghost predicate UsersDiffer(sessions: seq<string>) {
      forall i, j :: 0 <= i < j < |sessions| ==> UserOf(sessions[i]) != UserOf(sessions[j])
    }

    function UserOf(session: string): Result {
      Username(account, country, session, minutes)
    }

    lemma HandedOverDiffer(sessions: seq<string>)
      requires HandsOver(slots, sessions)
      ensures Differ(sessions) <==> KeysDiffer(slots, |sessions|, Same)
      ensures UsersDiffer(sessions) <==> KeysDiffer(slots, |sessions|, TrimSpace)
    {
      forall i, j | 0 <= i < j < |sessions|
        ensures UserOf(sessions[i]) == UserOf(sessions[j]) <==> TrimSpace(sessions[i]) == TrimSpace(sessions[j])
      {
        SameUserExactlyWhen(account, country, sessions[i], sessions[j], minutes);
      }
      SlotsAndSessions(slots, sessions, Same);
      SlotsAndSessions(slots, sessions, TrimSpace);
    }

    lemma AllHandedOver(sessions: seq<string>)
      requires HandsOver(slots, sessions)
      ensures AllAccepted(slots, |sessions|)
    {
      forall s | 1 <= s <= |sessions|
        ensures s in slots && Accepts(slots[s].session)
      {
        var i := s - 1;
        assert InSlot(slots, i + 1, sessions[i]);
      }
    }

    /** Reconnects the slot's own session; with file and memory in step it changes nothing. */
    method Reestablish(slot: nat, readable: bool) returns (r: Outcome<string>)
      requires Valid()
      modifies this`slots
      ensures Valid() && (old(Genuine()) ==> Genuine())
      ensures slots == if slot >= 1 && (!persistent || readable) then old(Loaded()) else old(slots)
      ensures old(InStep()) ==> slots == old(slots)
      ensures r.Done? <==> slot >= 1 && (!persistent || readable) && slot in old(Loaded()) && Accepts(old(Loaded())[slot].session)
      ensures r.Done? ==> InSlot(slots, slot, r.value)
      ensures old(Genuine()) ==> (r.Done? <==> slot >= 1 && (!persistent || readable) && slot in old(Loaded()))
    {
      if slot < 1 {
        return Failed;
      }
      var ok := Load(readable);
      if !ok || slot !in slots || slots[slot].session == "" {
        return Failed;
      }
      if Genuine() {
        UsernameAccepted(account, country, slots[slot].session, minutes);
      }
      r := Route(slot);
    }

    /** Mints a new session for one slot and touches no other. */
    method ReplaceSession(slot: nat, id: string, now: nat, readable: bool, writable: bool) returns (r: Outcome<string>)
      requires Valid() && FreshIds([id], owner)
      modifies this
      ensures Valid() && OwnerGrows(old(owner), owner) && (old(Genuine()) ==> Genuine())
      ensures r.Done? <==> slot >= 1 && (!persistent || (readable && writable))
      ensures slot >= 1 && (!persistent || readable) ==> slots == old(Loaded())[slot := Slot(id, now)]
      ensures slot < 1 || (persistent && !readable) ==> slots == old(slots)
      ensures r.Done? ==> r.value == id && InStep()
    {
      if slot < 1 {
        return Failed;
      }
      var ok := Load(readable);
      if !ok {
        return Failed;
      }
      assert id == [id][0];
      if Genuine() {
        MintKeeps(slots, owner, slot, Slot(id, now));
        OwnedStays(Saved(), owner, owner[id := slot]);
      }
      slots := slots[slot := Slot(id, now)];
      owner := owner[id := slot];
      var stored := Save(writable);
      if !stored {
        return Failed;
      }
      UsernameAccepted(account, country, id, minutes);
      r := Route(slot);
    }
  }

  lemma LoadTwo(x: Entry, y: Entry)
    requires 1 <= x.slot < y.slot && x.session != "" && y.session != ""
    ensures LoadInto(map[], [x, y]) == map[x.slot as nat := Slot(x.session, x.created), y.slot as nat := Slot(y.session, y.created)]
  {
    assert [x, y][..1] == [x] && [x][..0] == [];
    assert LoadInto(map[], [x]) == map[x.slot as nat := Slot(x.session, x.created)];
  }

  /** A state file that gives two live slots one session keeps them sharing it: load and ensure trust the file. */
  lemma SharedSessionSurvives(session: string, now: nat, life: nat, ids: seq<string>)
    requires session != "" && life > 0 && |ids| == 2
    ensures var m := Ensured(LoadInto(map[], [Entry(1, session, now), Entry(2, session, now)]), 2, now, life, ids);
            1 in m && 2 in m && m[1].session == m[2].session == session && !DistinctSessions(m)
  {
    var m: Slots := map[1 := Slot(session, now), 2 := Slot(session, now)];
    LoadTwo(Entry(1, session, now), Entry(2, session, now));
    assert Ensured(m, 1, now, life, ids) == m;
  }

  /** Two live sessions that differ only by a blank are kept apart as ids and dial as one user. */
  lemma PaddedSessionsShareUser(account: string, country: string, minutes: int, session: string, now: nat, ids: seq<string>)
    requires Username(account, country, session, minutes).Ok? && session != "" && |ids| == 2
    ensures var file := [Entry(1, session, now), Entry(2, " " + session, now)];
            var m := Ensured(LoadInto(map[], file), 2, now, Life(minutes), ids);
            && 1 in m && 2 in m && m[1].session != m[2].session
            && Username(account, country, m[1].session, minutes) == Username(account, country, m[2].session, minutes)
  {
    var m: Slots := map[1 := Slot(session, now), 2 := Slot(" " + session, now)];
    LoadTwo(Entry(1, session, now), Entry(2, " " + session, now));
    assert |" " + session| == |session| + 1;
    assert Ensured(m, 1, now, Life(minutes), ids) == m;
    PaddedSessionSameUser(account, country, session, minutes);
  }
}
