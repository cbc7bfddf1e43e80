/**
 The start-up sequence (controller/startup/session.go:75-585, 623-657) and the checks that move
 addresses and gates (controller/verify/verify.go:141-154, 194-270, 426-491). Per-subject phases
 that the source runs in parallel touch only their own subject and are loops here. Answers of the
 network, the provisioner, the browser and the pass/fail checks are inputs.
 */
module Startup {
  import opened Common
  import opened RouteLifecycle

  /** Whether and against which address egress is compared with the host's own. */
  datatype Compare = Compare(on: bool, hostIPv4: Option<IP>)

  function HostToAvoid(c: Compare): Option<IP> {
    if c.on then c.hostIPv4 else None
  }

  predicate IsHost(c: Compare, ip: IP) {
    HostToAvoid(c) == Some(ip)
  }

  // ---------------------------------------------------------------- checks on one subject

  datatype Checked = Checked(s: Subject, passed: bool)

  /** V1: the controller answers the public address through the route. */
  function V1RouteUp(s: Subject, read: Read): Checked {
    var got := ReadThrough(s.status, read);
    match got
    case NoAnswer => Checked(s, false)
    case Address(ip) => Checked(s.(routeIP := Some(ip), egress := Some(ip)), true)
  }

  /** V2: what the browser sees becomes the session address, unless it is the host's. */
  function V2BrowserEgress(s: Subject, read: Read, c: Compare): Checked {
    match read
    case NoAnswer => Checked(s, false)
    case Address(ip) =>
      var seen := s.(browserIP := Some(ip), egress := Some(ip));
      if IsHost(c, ip) then Checked(seen, false) else Checked(seen.(routeIP := Some(ip)), true)
  }

  /** What V7 observes: blocked while closed, no leaks, resumed, the address then, a gate CONNECT. */
  datatype Drill = Drill(blocked: bool, leaks: bool, resumed: bool, read: Read, connected: bool)

  /** V7: close, prove nothing flows, reopen, and take the address of the resumed path as the session's. */
  function V7FailClosed(s: Subject, d: Drill, c: Compare): Checked {
    var reopened := s.(gateOpen := true);
    if !d.blocked || d.leaks || !d.resumed || d.read.NoAnswer? then Checked(reopened, false)
    else
      var seen := reopened.(egress := Some(d.read.ip));
      if IsHost(c, d.read.ip) || !d.connected then Checked(seen, false)
      else Checked(seen.(browserIP := Some(d.read.ip), routeIP := Some(d.read.ip)), true)
  }

  /** Inputs of bringUpRoute for one subject. */
  datatype BringUp = BringUp(
    started: bool, read: Read,
    replaced: bool, nextStarted: bool, next: RouteId, secondRead: Read,
    repinned: bool, pinnedRead: Read
  )

  function SwapRoute(s: Subject, next: RouteId): Subject {
    s.(route := next, gateRoute := next, status := Verifying)
  }

  function BringUpRoute(s: Subject, b: BringUp, hasReplacer: bool, hasPinner: bool): Checked {
    if !b.started then Checked(s.(status := Down), false)
    else
      var up := s.(status := Verifying);
      var first := V1RouteUp(up, b.read);
      var c := if !first.passed && hasReplacer && b.replaced && b.nextStarted
               then V1RouteUp(SwapRoute(first.s, b.next), b.secondRead) else first;
      if !c.passed then c
      else
        var pinned := if hasPinner && b.repinned && b.pinnedRead.Address?
                      then c.s.(routeIP := Some(b.pinnedRead.ip), egress := Some(b.pinnedRead.ip)) else c.s;
        Checked(pinned.(status := Ready), true)
  }

  /** Inputs of a browser launch. */
  datatype Launch = Launch(launched: bool, hasPage: bool, began: bool)

  // ---------------------------------------------------------------- shared exits

  /** First subject whose known address an earlier subject already has, or |ss|. */
  function SharedIndex(ss: seq<Subject>): nat
    ensures SharedIndex(ss) <= |ss|
  {
    if ss == [] then 0
    else
      var n := |ss| - 1;
      var k := SharedIndex(ss[..n]);
      if k < n then k
      else if ss[n].routeIP.Some? && exists i :: 0 <= i < n && ss[i].routeIP == ss[n].routeIP then n
      else n + 1
  }

  ghost predicate KnownDistinct(ss: seq<Subject>) {
    forall i, j :: 0 <= i < j < |ss| && ss[i].routeIP.Some? ==> ss[i].routeIP != ss[j].routeIP
  }

  lemma {:induction false} SharedIndexMeans(ss: seq<Subject>)
    ensures SharedIndex(ss) == |ss| <==> KnownDistinct(ss)
    ensures var at := SharedIndex(ss);
            at < |ss| ==> KnownDistinct(ss[..at]) && ss[at].routeIP.Some? && exists i :: 0 <= i < at && ss[i].routeIP == ss[at].routeIP
  {
    if ss != [] {
      var n := |ss| - 1;
      SharedIndexMeans(ss[..n]);
      assert SharedIndex(ss) <= n ==> ss[..n][..SharedIndex(ss)] == ss[..SharedIndex(ss)];
      if SharedIndex(ss[..n]) < n {
        var i, j :| 0 <= i < j < n && ss[..n][i].routeIP.Some? && ss[..n][i].routeIP == ss[..n][j].routeIP;
        assert ss[i].routeIP == ss[j].routeIP;
      }
    }
  }

  ghost predicate SlotsDistinct(ss: seq<Subject>) {
    && (forall i :: 0 <= i < |ss| ==> ss[i].slot >= 1)
    && (forall i, j :: 0 <= i < j < |ss| ==> ss[i].slot != ss[j].slot)
  }

  /** The seen-map loop of sharedExit. */
  method SharedExit(ss: seq<Subject>) returns (slot: nat, at: nat)
    ensures at == SharedIndex(ss) && slot == SharedSlot(ss)
  {
    var seen: set<IP> := {};
    for n := 0 to |ss|
      invariant SharedIndex(ss[..n]) == n
      invariant forall i :: 0 <= i < n && ss[i].routeIP.Some? ==> ss[i].routeIP.value in seen
      invariant forall ip :: ip in seen ==> exists i :: 0 <= i < n && ss[i].routeIP == Some(ip)
    {
      assert ss[..n + 1][..n] == ss[..n];
      if ss[n].routeIP.Some? {
        if ss[n].routeIP.value in seen {
          assert SharedIndex(ss[..n + 1]) == n by {
            var i :| 0 <= i < n && ss[i].routeIP == ss[n].routeIP;
            assert ss[..n + 1][i].routeIP == ss[..n + 1][n].routeIP;
          }
          SharedIndexPrefix(ss, n + 1);
          return ss[n].slot, n;
        }
        seen := seen + {ss[n].routeIP.value};
      }
    }
    assert ss[..|ss|] == ss;
    return 0, |ss|;
  }

  lemma {:induction false} SharedIndexPrefix(ss: seq<Subject>, n: nat)
    requires n <= |ss| && SharedIndex(ss[..n]) < n
    ensures SharedIndex(ss) == SharedIndex(ss[..n])
    decreases |ss|
  {
    if n < |ss| {
      assert ss[..|ss| - 1][..n] == ss[..n];
      SharedIndexPrefix(ss[..|ss| - 1], n);
    } else {
      assert ss[..n] == ss;
    }
  }

  /** What the replacer, the new route and the echo service answer. */
  function Replacement(s: Subject, x: Attempt): Checked {
    if !x.provisioned || !x.started then Checked(s, false)
    else
      var c := V1RouteUp(SwapRoute(s, x.next), x.read);
      if c.passed then Checked(c.s.(status := Ready), true) else Checked(c.s.(status := Stopped), false)
  }

  /** The replacement was provisioned, started and answered with an address. */
  predicate Usable(x: Attempt) {
    x.provisioned && x.started && x.read.Address?
  }

  /** The subject has what the replacement gave. */
  predicate DrawnFrom(s: Subject, x: Attempt) {
    Usable(x) ==> s.route == x.next && s.gateRoute == x.next && s.routeIP == Some(x.read.ip) && s.egress == s.routeIP
  }

  /**
   `order` lists the slots in the order in which they were replaced, none twice. A slot outside it
   keeps its subject; the k-th has what the k-th replacement gave.
   */
  ghost predicate Traced(ss: seq<Subject>, out: seq<Subject>, answer: nat -> Attempt, order: seq<nat>, replaced: set<nat>, ok: bool) {
    && |ss| == |out|
    && (ok ==> forall k :: 0 <= k < |order| ==> Usable(answer(k)))
    && (forall a, b :: 0 <= a < b < |order| ==> order[a] != order[b])
    && (forall slot :: slot in order <==> slot in replaced)
    && (forall i :: 0 <= i < |ss| && ss[i].slot !in replaced ==> out[i] == ss[i])
    && (SlotsDistinct(ss) ==>
          forall i, k :: 0 <= i < |ss| && 0 <= k < |order| && order[k] == ss[i].slot ==> DrawnFrom(out[i], answer(k)))
  }

  lemma TracedStep(ss: seq<Subject>, out: seq<Subject>, answer: nat -> Attempt, order: seq<nat>, replaced: set<nat>, i: nat, c: Checked)
    requires Traced(ss, out, answer, order, replaced, true) && i < |out|
    requires out[i].slot == ss[i].slot && ss[i].slot !in replaced
    requires c == Replacement(out[i], answer(|order|))
    ensures Traced(ss, out[i := c.s], answer, order + [ss[i].slot], replaced + {ss[i].slot}, c.passed)
    ensures c.passed == Usable(answer(|order|))
  {
    var slot := ss[i].slot;
    var next := order + [slot];
    assert slot !in order;
    forall other
      ensures other in next <==> other in replaced + {slot}
    {
    }
    if SlotsDistinct(ss) {
      forall j, k | 0 <= j < |ss| && 0 <= k < |next| && next[k] == ss[j].slot
        ensures DrawnFrom(out[i := c.s][j], answer(k))
      {
        if k < |order| {
          assert order[k] in order;
          assert j != i;
        } else {
          assert j == i;
        }
      }
    }
  }

  /** A slot that was replaced already collides again. */
  ghost predicate StillShared(ss: seq<Subject>, replaced: set<nat>) {
    SharedIndex(ss) < |ss| && ss[SharedIndex(ss)].slot in replaced
  }

  ghost function SlotSet(ss: seq<Subject>): set<nat> {
    set s | s in ss :: s.slot
  }

  /** Same identities; only subjects of the given slots may differ. */
  ghost predicate OnlySlotsChanged(a: seq<Subject>, b: seq<Subject>, slots: set<nat>) {
    && |a| == |b|
    && (forall i :: 0 <= i < |a| ==> a[i].slot == b[i].slot && a[i].gateOpen == b[i].gateOpen)
    && (forall i :: 0 <= i < |a| && a[i].slot !in slots ==> a[i] == b[i])
  }

  ghost predicate AllReady(ss: seq<Subject>) {
    forall i :: 0 <= i < |ss| ==> ss[i].status.Ready?
  }

  /**
   Replaces colliding sessions until the known addresses are pairwise distinct, each slot at most
   once. `answer(k)` is the outcome of the k-th replacement. It ends for any addresses the network
   returns.
   */
  method SeparateSharedExits(ss: seq<Subject>, hasReplacer: bool, answer: nat -> Attempt)
    returns (out: seq<Subject>, ok: bool, calls: nat, replaced: set<nat>, ghost order: seq<nat>)
    requires RoutesAgree(ss)
    ensures Spared(ss, out, replaced) && calls == |replaced| == |order|
    ensures ok && AllReady(ss) ==> AllReady(out)
    ensures !hasReplacer ==> ok && out == ss && calls == 0
    ensures ok && hasReplacer && SlotsDistinct(ss) ==> KnownDistinct(out)
    ensures KnownDistinct(ss) ==> ok && out == ss && calls == 0
    ensures Traced(ss, out, answer, order, replaced, ok)
    ensures !ok ==> StillShared(out, replaced) || (calls > 0 && !Usable(answer(calls - 1)))
    ensures hasReplacer ==> Decided(ss, answer, ok)
  {
    if !hasReplacer {
      return ss, true, 0, {}, [];
    }
    out, ok, calls, replaced, order := SeparateLoop(ss, answer);
    SharedIndexMeans(ss);
    SharedIndexMeans(out);
    if ok && SlotsDistinct(ss) {
      NoneShared(ss, out, replaced);
    }
  }

  /** The loop is under way. */
  ghost predicate Going(ss: seq<Subject>, out: seq<Subject>, replaced: set<nat>, order: seq<nat>, calls: nat, answer: nat -> Attempt) {
    && calls == |replaced| == |order| && Separating(ss, out, replaced)
    && Traced(ss, out, answer, order, replaced, true)
    && (SharedIndex(ss) == |ss| ==> out == ss && calls == 0)
    && Awaiting(ss, out, replaced, calls, answer)
  }

  /** The loop has ended with `ok`. */
  ghost predicate Finished(ss: seq<Subject>, out: seq<Subject>, replaced: set<nat>, order: seq<nat>, calls: nat, answer: nat -> Attempt, ok: bool) {
    && calls == |replaced| == |order| && Spared(ss, out, replaced)
    && (ok ==> Separating(ss, out, replaced) && SharedSlot(out) == 0)
    && (SharedIndex(ss) == |ss| ==> ok && out == ss && calls == 0)
    && Traced(ss, out, answer, order, replaced, ok)
    && (!ok ==> StillShared(out, replaced) || (calls > 0 && !Usable(answer(calls - 1))))
    && Decided(ss, answer, ok)
  }

  lemma GoingStart(ss: seq<Subject>, answer: nat -> Attempt)
    requires RoutesAgree(ss)
    ensures Going(ss, ss, {}, [], 0, answer)
  {
    AwaitingStart(ss, answer);
  }

  lemma GoingEnds(ss: seq<Subject>, out: seq<Subject>, replaced: set<nat>, order: seq<nat>, calls: nat, answer: nat -> Attempt)
    requires Going(ss, out, replaced, order, calls, answer)
    ensures SharedSlot(out) == 0 ==> Finished(ss, out, replaced, order, calls, answer, true)
    ensures SharedSlot(out) != 0 && SharedSlot(out) in replaced ==> Finished(ss, out, replaced, order, calls, answer, false)
    ensures calls <= |ss|
  {
    AwaitingEnds(ss, out, replaced, calls, answer);
  }

  method SeparateLoop(ss: seq<Subject>, answer: nat -> Attempt)
    returns (out: seq<Subject>, ok: bool, calls: nat, replaced: set<nat>, ghost order: seq<nat>)
    requires RoutesAgree(ss)
    ensures Finished(ss, out, replaced, order, calls, answer, ok)
  {
    out, ok, calls, replaced, order := ss, true, 0, {}, [];
    GoingStart(ss, answer);
    while true
      invariant ok && Going(ss, out, replaced, order, calls, answer)
      decreases |ss| - calls
    {
      GoingEnds(ss, out, replaced, order, calls, answer);
      var slot, at := SharedExit(out);
      if slot == 0 {
        return;
      }
      if slot in replaced {
        ok := false;
        return;
      }
      out, ok, calls, replaced, order := ReplaceShared(ss, out, answer, calls, slot, replaced, order);
      if !ok {
        return;
      }
    }
  }

  function SharedSlot(ss: seq<Subject>): nat {
    if SharedIndex(ss) < |ss| then ss[SharedIndex(ss)].slot else 0
  }

  lemma NoneShared(ss: seq<Subject>, out: seq<Subject>, replaced: set<nat>)
    requires OnlySlotsChanged(ss, out, replaced) && SlotsDistinct(ss) && SharedSlot(out) == 0
    ensures SharedIndex(out) == |out|
  {
  }

  /** One turn of the loop: the session of the slot that collided is replaced. */
  method ReplaceShared(ghost ss: seq<Subject>, now: seq<Subject>, answer: nat -> Attempt, calls: nat, slot: nat, replaced: set<nat>,
                       ghost order: seq<nat>)
    returns (out: seq<Subject>, passed: bool, calls': nat, replaced': set<nat>, ghost order': seq<nat>)
    requires Going(ss, now, replaced, order, calls, answer) && slot == SharedSlot(now) && slot != 0 && slot !in replaced
    ensures if passed then Going(ss, out, replaced', order', calls', answer)
            else Finished(ss, out, replaced', order', calls', answer, false)
    ensures calls < calls' <= |ss|
  {
    calls', replaced', order' := calls + 1, replaced + {slot}, order + [slot];
    SharedIsHeld(now, slot);
    var i := FirstWithSlot(now, slot);
    var c := Replacement(now[i], answer(calls));
    out, passed := now[i := c.s], c.passed;
    GoingStep(ss, now, replaced, order, calls, answer, slot, i, c, out, replaced', order', calls');
  }

  lemma SharedIsHeld(ss: seq<Subject>, slot: nat)
    requires slot == SharedSlot(ss) && slot != 0
    ensures exists j :: 0 <= j < |ss| && ss[j].slot == slot
  {
    assert ss[SharedIndex(ss)].slot == slot;
  }

  lemma GoingStep(ss: seq<Subject>, now: seq<Subject>, replaced: set<nat>, order: seq<nat>, calls: nat, answer: nat -> Attempt,
                  slot: nat, i: nat, c: Checked, out: seq<Subject>, replaced': set<nat>, order': seq<nat>, calls': nat)
    requires Going(ss, now, replaced, order, calls, answer) && slot == SharedSlot(now) && slot != 0 && slot !in replaced
    requires i < |now| && now[i].slot == slot && c == Replacement(now[i], answer(calls))
    requires out == now[i := c.s] && replaced' == replaced + {slot} && order' == order + [slot] && calls' == calls + 1
    ensures if c.passed then Going(ss, out, replaced', order', calls', answer)
            else Finished(ss, out, replaced', order', calls', answer, false)
    ensures calls' <= |ss|
  {
    StepTraced(ss, now, replaced, order, calls, answer, slot, i, c, out, replaced', order');
    StepSpared(ss, now, replaced, answer(calls), slot, i, c, out, replaced');
    StepAwaits(ss, now, replaced, order, calls, answer, slot, i, c, out, replaced', calls');
    SharedAtStart(ss, now, replaced, order, calls, answer);
    assert calls' == |replaced'| == |order'| && calls' - 1 == calls;
    Assemble(ss, out, replaced', order', calls', answer, c.passed);
  }

  lemma StepAwaits(ss: seq<Subject>, now: seq<Subject>, replaced: set<nat>, order: seq<nat>, calls: nat, answer: nat -> Attempt,
                   slot: nat, i: nat, c: Checked, out: seq<Subject>, replaced': set<nat>, calls': nat)
    requires Going(ss, now, replaced, order, calls, answer) && slot == SharedSlot(now) && slot != 0 && slot !in replaced
    requires i < |now| && now[i].slot == slot && c == Replacement(now[i], answer(calls))
    requires out == now[i := c.s] && replaced' == replaced + {slot} && calls' == calls + 1
    ensures if c.passed then Awaiting(ss, out, replaced', calls', answer) else Decided(ss, answer, false)
  {
    AwaitingStep(ss, now, replaced, calls, answer, i);
  }

  lemma StepTraced(ss: seq<Subject>, now: seq<Subject>, replaced: set<nat>, order: seq<nat>, calls: nat, answer: nat -> Attempt,
                   slot: nat, i: nat, c: Checked, out: seq<Subject>, replaced': set<nat>, order': seq<nat>)
    requires Going(ss, now, replaced, order, calls, answer) && slot !in replaced
    requires i < |now| && now[i].slot == slot && c == Replacement(now[i], answer(calls))
    requires out == now[i := c.s] && replaced' == replaced + {slot} && order' == order + [slot]
    ensures Traced(ss, out, answer, order', replaced', c.passed) && c.passed == Usable(answer(calls))
  {
    assert OnlySlotsChanged(ss, now, replaced);
    TracedStep(ss, now, answer, order, replaced, i, c);
  }

  lemma SharedIsLater(ss: seq<Subject>)
    requires SharedSlot(ss) != 0
    ensures var at := SharedIndex(ss); 0 < at < |ss| && ss[at].slot == SharedSlot(ss)
  {
    SharedIndexMeans(ss);
  }

  lemma StepSpared(ss: seq<Subject>, now: seq<Subject>, replaced: set<nat>, x: Attempt, slot: nat, i: nat, c: Checked,
                   out: seq<Subject>, replaced': set<nat>)
    requires Separating(ss, now, replaced) && slot == SharedSlot(now) && slot != 0 && slot !in replaced
    requires i < |now| && now[i].slot == slot && c == Replacement(now[i], x)
    requires out == now[i := c.s] && replaced' == replaced + {slot}
    ensures Spared(ss, out, replaced') && (c.passed ==> Separating(ss, out, replaced'))
    ensures |replaced'| == |replaced| + 1
  {
    SharedIsLater(now);
    assert SameRoute(now[i]);
    SeparatingStep(ss, now, replaced, SharedIndex(now), i, c);
  }

  /** A collision under way means there was one at the start. */
  lemma SharedAtStart(ss: seq<Subject>, now: seq<Subject>, replaced: set<nat>, order: seq<nat>, calls: nat, answer: nat -> Attempt)
    requires Going(ss, now, replaced, order, calls, answer) && SharedSlot(now) != 0
    ensures SharedIndex(ss) != |ss|
  {
  }

  lemma Assemble(ss: seq<Subject>, out: seq<Subject>, replaced: set<nat>, order: seq<nat>, calls: nat, answer: nat -> Attempt, passed: bool)
    requires calls == |replaced| == |order| && calls > 0 && Spared(ss, out, replaced) && SharedIndex(ss) != |ss|
    requires Traced(ss, out, answer, order, replaced, passed) && passed == Usable(answer(calls - 1))
    requires if passed then Separating(ss, out, replaced) && Awaiting(ss, out, replaced, calls, answer) else Decided(ss, answer, false)
    ensures if passed then Going(ss, out, replaced, order, calls, answer) else Finished(ss, out, replaced, order, calls, answer, false)
    ensures calls <= |ss|
  {
  }

  // ---------------------------------------------------------------- the loop seen from the addresses

  /** First address that an earlier one equals, or |a|. */
  function FirstShared(a: seq<IP>): nat
    ensures FirstShared(a) <= |a|
  {
    if a == [] then 0
    else
      var n := |a| - 1;
      var k := FirstShared(a[..n]);
      if k < n then k else if a[n] in a[..n] then n else n + 1
  }

  ghost function NotDone(n: nat, done: set<nat>): set<nat> {
    set x: nat | x < n && x !in done
  }

  /**
   Whether drawing a new address for the first one that is shared, for each position at most once,
   makes them all different. `done` are the positions drawn for so far, `k` the draws made.
   */
  ghost predicate Separates(a: seq<IP>, done: set<nat>, k: nat, answer: nat -> Attempt)
    decreases |NotDone(|a|, done)|
  {
    var i := FirstShared(a);
    i == |a| ||
    (i !in done && Usable(answer(k)) &&
     (assert NotDone(|a|, done + {i}) == NotDone(|a|, done) - {i};
      Separates(a[i := answer(k).read.ip], done + {i}, k + 1, answer)))
  }

  /** Addresses that differ to begin with need no draw. */
  lemma {:induction false} DistinctAreUnshared(a: seq<IP>)
    ensures FirstShared(a) == |a| <==> forall i, j :: 0 <= i < j < |a| ==> a[i] != a[j]
  {
    if a != [] {
      var n := |a| - 1;
      DistinctAreUnshared(a[..n]);
      if FirstShared(a[..n]) < n {
        var i, j :| 0 <= i < j < n && a[..n][i] == a[..n][j];
        assert a[i] == a[j];
      } else if a[n] in a[..n] {
        var i :| 0 <= i < n && a[..n][i] == a[n];
        assert a[i] == a[n];
      }
    }
  }

  ghost predicate AllKnown(ss: seq<Subject>) {
    forall i :: 0 <= i < |ss| ==> ss[i].routeIP.Some?
  }

  function Addrs(ss: seq<Subject>): seq<IP> {
    seq(|ss|, i requires 0 <= i < |ss| => if ss[i].routeIP.Some? then ss[i].routeIP.value else 0)
  }

  lemma {:induction false} SharedAtSame(ss: seq<Subject>)
    requires AllKnown(ss)
    ensures SharedIndex(ss) == FirstShared(Addrs(ss))
  {
    if ss != [] {
      var n := |ss| - 1;
      SharedAtSame(ss[..n]);
      assert Addrs(ss[..n]) == Addrs(ss)[..n];
      if exists i :: 0 <= i < n && ss[i].routeIP == ss[n].routeIP {
        var i :| 0 <= i < n && ss[i].routeIP == ss[n].routeIP;
        assert Addrs(ss)[..n][i] == Addrs(ss)[n];
      }
    }
  }

  /** Positions whose slot has been replaced. */
  ghost function DoneAt(ss: seq<Subject>, done: set<nat>): set<nat> {
    set j: nat | j < |ss| && ss[j].slot in done
  }

  /** What remains to be decided about `ss` is what remains to be decided about `out`. */
  ghost predicate Awaiting(ss: seq<Subject>, out: seq<Subject>, done: set<nat>, calls: nat, answer: nat -> Attempt) {
    SlotsDistinct(ss) && AllKnown(ss) ==>
      && SlotsDistinct(out) && AllKnown(out)
      && (Separates(Addrs(ss), {}, 0, answer) <==> Separates(Addrs(out), DoneAt(out, done), calls, answer))
  }

  /** The answer of the loop, read off the addresses. */
  ghost predicate Decided(ss: seq<Subject>, answer: nat -> Attempt, ok: bool) {
    SlotsDistinct(ss) && AllKnown(ss) ==> (ok <==> Separates(Addrs(ss), {}, 0, answer))
  }

  lemma AwaitingStart(ss: seq<Subject>, answer: nat -> Attempt)
    ensures Awaiting(ss, ss, {}, 0, answer)
  {
    assert DoneAt(ss, {}) == {};
  }

  /** No shared slot: separated. A shared slot that was replaced already: not to be separated. */
  lemma AwaitingEnds(ss: seq<Subject>, out: seq<Subject>, done: set<nat>, calls: nat, answer: nat -> Attempt)
    requires Awaiting(ss, out, done, calls, answer)
    ensures SharedSlot(out) == 0 ==> Decided(ss, answer, true)
    ensures SharedSlot(out) != 0 && SharedSlot(out) in done ==> Decided(ss, answer, false)
  {
    if SlotsDistinct(ss) && AllKnown(ss) {
      SharedAtSame(out);
    }
  }

  lemma AwaitingStep(ss: seq<Subject>, out: seq<Subject>, done: set<nat>, calls: nat, answer: nat -> Attempt, i: nat)
    requires Awaiting(ss, out, done, calls, answer)
    requires SharedSlot(out) != 0 && SharedSlot(out) !in done && i < |out| && out[i].slot == SharedSlot(out)
    ensures var c := Replacement(out[i], answer(calls));
            if c.passed then Awaiting(ss, out[i := c.s], done + {SharedSlot(out)}, calls + 1, answer) else Decided(ss, answer, false)
  {
    if SlotsDistinct(ss) && AllKnown(ss) {
      SharedAtSame(out);
      var c := Replacement(out[i], answer(calls));
      assert i == SharedIndex(out);
      if c.passed {
        var next := out[i := c.s];
        assert Addrs(next) == Addrs(out)[i := answer(calls).read.ip];
        assert DoneAt(next, done + {SharedSlot(out)}) == DoneAt(out, done) + {i};
      }
    }
  }

  /** What the loop keeps, apart from readiness, which a failed replacement gives up. */
  ghost predicate Spared(ss: seq<Subject>, out: seq<Subject>, replaced: set<nat>) {
    && OnlySlotsChanged(ss, out, replaced) && RoutesAgree(out)
    && replaced <= SlotSet(ss) && |replaced| <= |ss| && SpareFirst(ss, replaced)
  }

  ghost predicate Separating(ss: seq<Subject>, out: seq<Subject>, replaced: set<nat>) {
    Spared(ss, out, replaced) && (AllReady(ss) ==> AllReady(out))
  }

  lemma SeparatingStep(ss: seq<Subject>, out: seq<Subject>, replaced: set<nat>, at: nat, i: nat, c: Checked)
    requires Separating(ss, out, replaced) && 0 < at < |out| && i < |out| && out[i].slot == out[at].slot && out[at].slot !in replaced
    requires c.s.slot == out[i].slot && c.s.gateOpen == out[i].gateOpen && SameRoute(c.s) && (c.passed ==> c.s.status.Ready?)
    ensures Spared(ss, out[i := c.s], replaced + {out[at].slot})
    ensures c.passed ==> Separating(ss, out[i := c.s], replaced + {out[at].slot})
    ensures |replaced + {out[at].slot}| == |replaced| + 1
  {
    SparesFirst(ss, out, replaced, at);
    CountFits(ss, replaced + {out[at].slot});
    ReplaceKeeps(ss, out, replaced, i, c.s);
  }

  /** With distinct slots the first subject keeps its session, so at most N-1 are replaced. */
  ghost predicate SpareFirst(ss: seq<Subject>, replaced: set<nat>) {
    SlotsDistinct(ss) && ss != [] ==> ss[0].slot !in replaced && |replaced| <= |ss| - 1
  }

  lemma SparesFirst(ss: seq<Subject>, out: seq<Subject>, replaced: set<nat>, at: nat)
    requires OnlySlotsChanged(ss, out, replaced) && replaced <= SlotSet(ss) && SpareFirst(ss, replaced)
    requires 0 < at < |out|
    ensures replaced + {out[at].slot} <= SlotSet(ss) && SpareFirst(ss, replaced + {out[at].slot})
  {
    assert ss[at] in ss && ss[at].slot == out[at].slot;
    CountFits(ss, replaced + {out[at].slot});
  }

  lemma ReplaceKeeps(ss: seq<Subject>, out: seq<Subject>, replaced: set<nat>, i: nat, s: Subject)
    requires OnlySlotsChanged(ss, out, replaced) && RoutesAgree(out) && i < |out|
    requires s.slot == out[i].slot && s.gateOpen == out[i].gateOpen && SameRoute(s)
    ensures OnlySlotsChanged(ss, out[i := s], replaced + {s.slot}) && RoutesAgree(out[i := s])
    ensures AllReady(out) && s.status.Ready? ==> AllReady(out[i := s])
  {
  }

  method FirstWithSlot(ss: seq<Subject>, slot: nat) returns (i: nat)
    requires exists j :: 0 <= j < |ss| && ss[j].slot == slot
    ensures i < |ss| && ss[i].slot == slot
  {
    i := 0;
    while ss[i].slot != slot
      invariant i < |ss| && forall j :: 0 <= j < i ==> ss[j].slot != slot
      decreases |ss| - i
    {
      i := i + 1;
    }
  }

  /** With distinct slots, replacing none of the first subject's leaves at most N-1. */
  lemma CountFits(ss: seq<Subject>, slots: set<nat>)
    requires slots <= SlotSet(ss)
    ensures |slots| <= |ss|
    ensures ss != [] && SlotsDistinct(ss) && ss[0].slot !in slots ==> |slots| <= |ss| - 1
  {
    SlotSetSize(ss);
    SubsetSize(slots, SlotSet(ss));
    if ss != [] && ss[0].slot !in slots {
      assert ss[0] in ss;
      SubsetSize(slots, SlotSet(ss) - {ss[0].slot});
    }
  }

  lemma {:induction false} SlotSetSize(ss: seq<Subject>)
    ensures |SlotSet(ss)| <= |ss|
  {
    if ss != [] {
      var front, last := ss[..|ss| - 1], ss[|ss| - 1];
      SlotSetSize(front);
      assert ss == front + [last];
      assert SlotSet(ss) == SlotSet(front) + {last.slot};
    }
  }

  // ---------------------------------------------------------------- separation

  /** V3: every browser address known, off the host and pairwise distinct. */
  ghost predicate BrowsersSeparated(ss: seq<Subject>, c: Compare) {
    && (forall i :: 0 <= i < |ss| ==> ss[i].browserIP.Some?)
    && (forall i :: 0 <= i < |ss| && c.on && c.hostIPv4.Some? ==> ss[i].browserIP != c.hostIPv4)
    && (forall i, j :: 0 <= i < j < |ss| ==> ss[i].browserIP != ss[j].browserIP)
  }

  method V3Separation(ss: seq<Subject>, c: Compare) returns (ok: bool)
    ensures ok <==> BrowsersSeparated(ss, c)
  {
    ok := true;
    for i := 0 to |ss|
      invariant ok <==>
        && (forall a :: 0 <= a < i ==> ss[a].browserIP.Some?)
        && (forall a :: 0 <= a < i && c.on && c.hostIPv4.Some? ==> ss[a].browserIP != c.hostIPv4)
        && (forall a, b :: 0 <= a < i && a < b < |ss| && ss[a].browserIP.Some? ==> ss[a].browserIP != ss[b].browserIP)
    {
      if ss[i].browserIP.None? {
        ok := false;
        continue;
      }
      if IsHost(c, ss[i].browserIP.value) {
        ok := false;
      }
      for j := i + 1 to |ss|
        invariant ok <==>
          && (forall a :: 0 <= a <= i ==> ss[a].browserIP.Some?)
          && (forall a :: 0 <= a <= i && c.on && c.hostIPv4.Some? ==> ss[a].browserIP != c.hostIPv4)
          && (forall a, b :: 0 <= a < i && a < b < |ss| && ss[a].browserIP.Some? ==> ss[a].browserIP != ss[b].browserIP)
          && (forall b :: i < b < j ==> ss[i].browserIP != ss[b].browserIP)
      {
        if ss[j].browserIP.Some? && ss[i].browserIP.value == ss[j].browserIP.value {
          ok := false;
        }
      }
    }
  }

  // ---------------------------------------------------------------- the whole sequence

  datatype Failure = SetupFailed | RouteFailed | BrowserFailed | VerificationFailed

  datatype Outcome = ReportedReady | Failed(why: Failure)

  /** Everything start-up asks of the outside world. */
  datatype Inputs = Inputs(
    setOpened: bool, locked: bool, ensured: bool, provisionerFound: bool, chromiumFound: bool, provisioned: bool,
    routes: seq<RouteId>, listens: seq<bool>,
    hasReplacer: bool, hasPinner: bool,
    bringUps: seq<BringUp>, answer: nat -> Attempt, launches: seq<Launch>,
    v2: seq<Read>, v4: bool, v5: bool, v6: bool, drills: seq<Drill>, v8: bool, v9: bool
  )

  predicate InputsFor(x: Inputs, n: nat) {
    |x.listens| == |x.bringUps| == |x.launches| == |x.v2| == |x.drills| == n
  }

  /** Subject `i` has slot `i + 1` and the route provisioned for it. */
  ghost predicate Built(ss: seq<Subject>, routes: seq<RouteId>) {
    |ss| <= |routes| && forall i :: 0 <= i < |ss| ==> ss[i] == NewSubject(i + 1, routes[i])
  }

  function NewSubject(slot: nat, route: RouteId): Subject {
    Subject(slot, route, Created, route, false, None, None, None, false, 0, 0, false)
  }

  // ---------------------------------------------------------------- when start-up succeeds, from its inputs alone

  predicate AddressesPass(answers: seq<Read>, c: Compare) {
    && (forall i :: 0 <= i < |answers| ==> answers[i].Address? && !(c.on && c.hostIPv4 == Some(answers[i].ip)))
    && (forall i, j :: 0 <= i < j < |answers| ==> answers[i] != answers[j])
  }

  function Resumes(drills: seq<Drill>): seq<Read> {
    seq(|drills|, i requires 0 <= i < |drills| => drills[i].read)
  }

  predicate DrillsPass(drills: seq<Drill>, c: Compare) {
    && (forall i :: 0 <= i < |drills| ==>
          drills[i].blocked && !drills[i].leaks && drills[i].resumed && drills[i].connected)
    && AddressesPass(Resumes(drills), c)
  }

  predicate VerificationPasses(x: Inputs, c: Compare) {
    AddressesPass(x.v2, c) && x.v4 && x.v5 && x.v6 && DrillsPass(x.drills, c) && x.v8
  }

  /** The address a subject comes up with, if it does. */
  function FirstAddress(b: BringUp, hasReplacer: bool, hasPinner: bool): Option<IP> {
    var second := hasReplacer && b.replaced && b.nextStarted && b.secondRead.Address?;
    if !b.started || !(b.read.Address? || second) then None
    else if hasPinner && b.repinned && b.pinnedRead.Address? then Some(b.pinnedRead.ip)
    else Some(if b.read.Address? then b.read.ip else b.secondRead.ip)
  }

  function AddressAt(x: Inputs, i: nat): Option<IP>
    requires i < |x.bringUps|
  {
    FirstAddress(x.bringUps[i], x.hasReplacer, x.hasPinner)
  }

  /** The route a subject comes up on: its own, or the replacement when its own did not answer. */
  function RouteAt(x: Inputs, i: nat): RouteId
    requires i < |x.bringUps| && i < |x.routes|
  {
    var b := x.bringUps[i];
    if b.started && b.read.NoAnswer? && x.hasReplacer && b.replaced && b.nextStarted then b.next else x.routes[i]
  }

  /** Subject `i` is on the route of the last draw for its slot, or else on the one it came up on. */
  ghost predicate Routed(s: Subject, x: Inputs, i: nat, order: seq<nat>)
    requires i < |x.bringUps| && i < |x.routes|
  {
    && s.slot == i + 1 && s.gateRoute == s.route
    && (i + 1 !in order ==> s.route == RouteAt(x, i))
    && (forall k :: 0 <= k < |order| && order[k] == i + 1 ==> s.route == x.answer(k).next)
  }

  ghost predicate AllRouted(ss: seq<Subject>, x: Inputs, order: seq<nat>) {
    && |ss| == |x.bringUps| && |ss| <= |x.routes|
    && (!x.hasReplacer ==> order == [])
    && (forall a, b :: 0 <= a < b < |order| ==> order[a] != order[b])
    && forall i :: 0 <= i < |ss| ==> Routed(ss[i], x, i, order)
  }

  ghost predicate AllClosed(ss: seq<Subject>) {
    forall i :: 0 <= i < |ss| ==> !ss[i].gateOpen
  }

  /** Same identities on the same routes. */
  ghost predicate SamePlaces(a: seq<Subject>, b: seq<Subject>) {
    |a| == |b| && forall i :: 0 <= i < |a| ==> a[i].slot == b[i].slot && a[i].route == b[i].route && a[i].gateRoute == b[i].gateRoute
  }

  lemma StayRouted(a: seq<Subject>, b: seq<Subject>, x: Inputs, order: seq<nat>)
    requires AllRouted(a, x, order) && SamePlaces(a, b)
    ensures AllRouted(b, x, order)
  {
    forall i | 0 <= i < |b|
      ensures Routed(b[i], x, i, order)
    {
      assert Routed(a[i], x, i, order);
    }
  }

  /** The set, its lock, the identities and a provisioner. */
  predicate SetupPasses(x: Inputs) {
    x.setOpened && x.locked && x.ensured && x.provisionerFound
  }

  predicate PreparationPasses(n: nat, x: Inputs)
    requires InputsFor(x, n)
  {
    && SetupPasses(x) && x.chromiumFound && x.provisioned
    && n <= |x.routes|
    && (forall i :: 0 <= i < n ==> x.listens[i])
    && (forall i :: 0 <= i < n ==> AddressAt(x, i).Some?)
  }

  /** The addresses the subjects come up on. */
  function Exits(x: Inputs): seq<IP> {
    seq(|x.bringUps|, i requires 0 <= i < |x.bringUps| => if AddressAt(x, i).Some? then AddressAt(x, i).value else 0)
  }

  /** Sessions cannot be replaced, or replacing them separates the exits. */
  ghost predicate ExitsSeparate(x: Inputs) {
    x.hasReplacer ==> Separates(Exits(x), {}, 0, x.answer)
  }

  predicate LaunchesPass(n: nat, x: Inputs)
    requires InputsFor(x, n)
  {
    forall i :: 0 <= i < n ==> x.launches[i].launched && x.launches[i].hasPage && x.launches[i].began
  }

  predicate StepsPass(n: nat, x: Inputs, c: Compare)
    requires InputsFor(x, n)
  {
    && PreparationPasses(n, x)
    && LaunchesPass(n, x)
    && VerificationPasses(x, c) && x.v9
  }

  class Session {
    var subjects: seq<Subject>
    /** Which subjects have a live browser. */
    var browsers: seq<bool>
    var lockHeld: bool
    var closed: bool

    /** Nothing is left running. */
    ghost predicate TornDown()
      reads this
    {
      && !lockHeld
      && (forall i :: 0 <= i < |subjects| ==> !subjects[i].gateOpen)
      && (forall i :: 0 <= i < |browsers| ==> !browsers[i])
    }

    constructor ()
      ensures subjects == [] && browsers == [] && !lockHeld && !closed
    {
      subjects, browsers, lockHeld, closed := [], [], false, false;
    }

    method Abort()
      requires !closed
      modifies this
      ensures TornDown() && closed
      ensures forall i :: 0 <= i < |subjects| ==> subjects[i].status.Stopped?
    {
      closed := true;
      ghost var n := |subjects|;
      for i := 0 to |subjects|
        invariant |subjects| == n && browsers == old(browsers)
        invariant forall k :: 0 <= k < i ==> !subjects[k].gateOpen
        invariant lockHeld == old(lockHeld) && closed
      {
        subjects := subjects[i := subjects[i].(gateOpen := false)];
      }
      for i := 0 to |browsers|
        invariant |browsers| == |old(browsers)| && |subjects| == n
        invariant forall k :: 0 <= k < i ==> !browsers[k]
        invariant forall k :: 0 <= k < |subjects| ==> !subjects[k].gateOpen
        invariant lockHeld == old(lockHeld) && closed
      {
        browsers := browsers[i := false];
      }
      for i := 0 to |subjects|
        invariant |subjects| == n
        invariant forall k :: 0 <= k < |subjects| ==> !subjects[k].gateOpen
        invariant forall k :: 0 <= k < i ==> subjects[k].status.Stopped?
        invariant forall k :: 0 <= k < |browsers| ==> !browsers[k]
        invariant lockHeld == old(lockHeld) && closed
      {
        subjects := subjects[i := subjects[i].(gateOpen := false, status := Stopped)];
      }
      lockHeld := false;
    }

    /** One gate per identity, bound to the route of its slot, not yet open. */
    method BuildSubjects(n: nat, x: Inputs) returns (ok: bool)
      requires InputsFor(x, n) && subjects == [] && browsers == []
      modifies this`subjects
      ensures ok ==> |subjects| == n
      ensures ok <==> n <= |x.routes| && forall i :: 0 <= i < n ==> x.listens[i]
      ensures SlotsDistinct(subjects) && RoutesAgree(subjects)
      ensures Built(subjects, x.routes)
    {
      for i := 0 to n
        invariant |subjects| == i
        invariant Built(subjects, x.routes)
        invariant forall k :: 0 <= k < i ==> x.listens[k]
      {
        if i >= |x.routes| {
          return false;
        }
        if !x.listens[i] {
          return false;
        }
        subjects := subjects + [NewSubject(i + 1, x.routes[i])];
      }
      return true;
    }

    method BringUpAll(x: Inputs) returns (ok: bool)
      requires InputsFor(x, |subjects|)
      modifies this`subjects
      ensures |subjects| == |old(subjects)|
      ensures forall i :: 0 <= i < |subjects| ==>
                subjects[i] == BringUpRoute(old(subjects)[i], x.bringUps[i], x.hasReplacer, x.hasPinner).s
      ensures ok <==> forall i :: 0 <= i < |subjects| ==>
                BringUpRoute(old(subjects)[i], x.bringUps[i], x.hasReplacer, x.hasPinner).passed
    {
      ok := true;
      for i := 0 to |subjects|
        invariant |subjects| == |old(subjects)|
        invariant forall k :: 0 <= k < i ==>
                    subjects[k] == BringUpRoute(old(subjects)[k], x.bringUps[k], x.hasReplacer, x.hasPinner).s
        invariant forall k :: i <= k < |subjects| ==> subjects[k] == old(subjects)[k]
        invariant ok <==> forall k :: 0 <= k < i ==>
                    BringUpRoute(old(subjects)[k], x.bringUps[k], x.hasReplacer, x.hasPinner).passed
      {
        var c := BringUpRoute(subjects[i], x.bringUps[i], x.hasReplacer, x.hasPinner);
        subjects := subjects[i := c.s];
        if !c.passed {
          ok := false;
        }
      }
    }

    /** Gates open only here, each just before its browser starts. */
    method LaunchAll(x: Inputs) returns (ok: bool)
      requires InputsFor(x, |subjects|)
      modifies this`subjects, this`browsers
      ensures |subjects| == |old(subjects)| == |browsers|
      ensures forall i :: 0 <= i < |subjects| ==>
                subjects[i] == old(subjects)[i].(gateOpen := x.launches[i].launched) && browsers[i] == x.launches[i].launched
      ensures ok <==> forall i :: 0 <= i < |subjects| ==>
                x.launches[i].launched && x.launches[i].hasPage && x.launches[i].began
    {
      ok := true;
      browsers := [];
      for i := 0 to |subjects|
        invariant |subjects| == |old(subjects)| && |browsers| == i
        invariant forall k :: 0 <= k < i ==>
                    subjects[k] == old(subjects)[k].(gateOpen := x.launches[k].launched) && browsers[k] == x.launches[k].launched
        invariant forall k :: i <= k < |subjects| ==> subjects[k] == old(subjects)[k]
        invariant ok <==> forall k :: 0 <= k < i ==>
                    x.launches[k].launched && x.launches[k].hasPage && x.launches[k].began
      {
        subjects := subjects[i := subjects[i].(gateOpen := true)];
        if !x.launches[i].launched {
          subjects := subjects[i := subjects[i].(gateOpen := false)];
          ok := false;
        } else if !x.launches[i].hasPage || !x.launches[i].began {
          ok := false;
        }
        browsers := browsers + [x.launches[i].launched];
      }
    }

    method CheckEgressAll(x: Inputs, c: Compare) returns (ok: bool)
      requires InputsFor(x, |subjects|)
      modifies this`subjects
      ensures |subjects| == |old(subjects)|
      ensures forall i :: 0 <= i < |subjects| ==> subjects[i] == V2BrowserEgress(old(subjects)[i], x.v2[i], c).s
      ensures ok <==> forall i :: 0 <= i < |subjects| ==> V2BrowserEgress(old(subjects)[i], x.v2[i], c).passed
    {
      ok := true;
      for i := 0 to |subjects|
        invariant |subjects| == |old(subjects)|
        invariant forall k :: 0 <= k < i ==> subjects[k] == V2BrowserEgress(old(subjects)[k], x.v2[k], c).s
        invariant forall k :: i <= k < |subjects| ==> subjects[k] == old(subjects)[k]
        invariant ok <==> forall k :: 0 <= k < i ==> V2BrowserEgress(old(subjects)[k], x.v2[k], c).passed
      {
        var r := V2BrowserEgress(subjects[i], x.v2[i], c);
        subjects := subjects[i := r.s];
        if !r.passed {
          ok := false;
        }
      }
    }

    method DrillAll(x: Inputs, c: Compare) returns (ok: bool)
      requires InputsFor(x, |subjects|)
      modifies this`subjects
      ensures |subjects| == |old(subjects)|
      ensures forall i :: 0 <= i < |subjects| ==> subjects[i] == V7FailClosed(old(subjects)[i], x.drills[i], c).s
      ensures ok <==> forall i :: 0 <= i < |subjects| ==> V7FailClosed(old(subjects)[i], x.drills[i], c).passed
    {
      ok := true;
      for i := 0 to |subjects|
        invariant |subjects| == |old(subjects)|
        invariant forall k :: 0 <= k < i ==> subjects[k] == V7FailClosed(old(subjects)[k], x.drills[k], c).s
        invariant forall k :: i <= k < |subjects| ==> subjects[k] == old(subjects)[k]
        invariant ok <==> forall k :: 0 <= k < i ==> V7FailClosed(old(subjects)[k], x.drills[k], c).passed
      {
        var r := V7FailClosed(subjects[i], x.drills[i], c);
        subjects := subjects[i := r.s];
        if !r.passed {
          ok := false;
        }
      }
    }

    /** V2 and V3. */
    method CheckEgress(x: Inputs, c: Compare) returns (passed: bool)
      requires InputsFor(x, |subjects|) && RoutesAgree(subjects) && AllReady(subjects)
      modifies this`subjects
      ensures SamePlaces(old(subjects), subjects) && RoutesAgree(subjects) && AllReady(subjects)
      ensures passed <==> AddressesPass(x.v2, c)
    {
      passed := CheckEgressAll(x, c);
      EgressKeeps(old(subjects), subjects, x.v2, c);
      EgressExactly(old(subjects), subjects, x.v2, c);
      var separated := V3Separation(subjects, c);
      passed := passed && separated;
    }

    /** V7 and V3 again. */
    method Drill(x: Inputs, c: Compare) returns (passed: bool)
      requires InputsFor(x, |subjects|) && RoutesAgree(subjects) && AllReady(subjects)
      modifies this`subjects
      ensures SamePlaces(old(subjects), subjects)
      ensures passed <==> DrillsPass(x.drills, c)
      ensures passed ==> ReadyState(subjects, HostToAvoid(c))
      ensures passed ==> forall i :: 0 <= i < |subjects| ==> Address(subjects[i].routeIP.value) == x.drills[i].read
    {
      passed := DrillAll(x, c);
      DrillStays(old(subjects), subjects, x.drills, c);
      DrillExactly(old(subjects), subjects, x.drills, c);
      var separated := V3Separation(subjects, c);
      passed := passed && separated;
      if passed {
        DrilledIsReady(old(subjects), subjects, x.drills, c);
      }
    }

    /** All checks; a pass leaves the state that READY promises, with the addresses of the V7 resume. */
    method VerifyAll(x: Inputs, c: Compare) returns (passed: bool)
      requires InputsFor(x, |subjects|) && RoutesAgree(subjects) && AllReady(subjects)
      modifies this`subjects
      ensures SamePlaces(old(subjects), subjects)
      ensures passed <==> VerificationPasses(x, c)
      ensures passed ==> ReadyState(subjects, HostToAvoid(c))
      ensures passed ==> forall i :: 0 <= i < |subjects| ==> Address(subjects[i].routeIP.value) == x.drills[i].read
    {
      passed := CheckEgress(x, c);
      passed := passed && x.v4 && x.v5 && x.v6;
      var drilled := Drill(x, c);
      passed := passed && drilled && x.v8;
    }

    /** Everything before the first browser: no gate opens, and a failure leaves nothing behind. */
    method Prepare(n: nat, x: Inputs) returns (failed: Option<Failure>, ghost order: seq<nat>)
      requires InputsFor(x, n) && subjects == [] && browsers == [] && !lockHeld && !closed
      modifies this
      ensures failed.Some? ==> TornDown()
      ensures failed.None? ==> |subjects| == n && lockHeld && !closed && browsers == []
      ensures failed.None? ==> AllReady(subjects) && RoutesAgree(subjects) && SlotsDistinct(subjects) && AllClosed(subjects)
      ensures failed.None? ==> AllRouted(subjects, x, order)
      ensures failed.None? && x.hasReplacer ==> KnownDistinct(subjects)
      ensures failed.None? <==> PreparationPasses(n, x) && ExitsSeparate(x)
      ensures failed == Some(SetupFailed) <==> !SetupPasses(x)
      ensures failed == Some(BrowserFailed) <==> SetupPasses(x) && !x.chromiumFound
      ensures failed != Some(VerificationFailed)
    {
      order := [];
      if !x.setOpened || !x.locked {
        return Some(SetupFailed), order;
      }
      lockHeld := true;
      if !x.ensured || !x.provisionerFound {
        lockHeld := false;
        return Some(SetupFailed), order;
      }
      if !x.chromiumFound {
        lockHeld := false;
        return Some(BrowserFailed), order;
      }
      if !x.provisioned {
        Abort();
        return Some(RouteFailed), order;
      }
      var ok := BuildSubjects(n, x);
      if !ok {
        Abort();
        return Some(RouteFailed), order;
      }
      ok, order := Establish(n, x);
      if !ok {
        Abort();
        return Some(RouteFailed), order;
      }
      failed := None;
    }

    /** Every route up on an exit of its own. */
    method Establish(n: nat, x: Inputs) returns (ok: bool, ghost order: seq<nat>)
      requires InputsFor(x, n) && |subjects| == n && Built(subjects, x.routes) && RoutesAgree(subjects) && SlotsDistinct(subjects)
      modifies this`subjects
      ensures ok ==> |subjects| == n && AllReady(subjects) && RoutesAgree(subjects) && SlotsDistinct(subjects)
      ensures ok ==> AllRouted(subjects, x, order) && AllClosed(subjects)
      ensures ok && x.hasReplacer ==> KnownDistinct(subjects)
      ensures ok <==> (forall i :: 0 <= i < n ==> AddressAt(x, i).Some?) && ExitsSeparate(x)
    {
      order := [];
      ok := BringUpAll(x);
      BroughtUpAddresses(old(subjects), subjects, x);
      if !ok {
        return;
      }
      BroughtUp(old(subjects), subjects, x);
      BroughtUpRoutes(old(subjects), subjects, x);
      ghost var up := subjects;
      var out, calls, replaced;
      out, ok, calls, replaced, order := SeparateSharedExits(subjects, x.hasReplacer, x.answer);
      subjects := out;
      SlotsKept(up, out);
      if ok {
        SeparatedRoutes(up, out, x, order, replaced);
      }
    }

    /** Run; configuration admits no session without identities (controller/config/config.go:267-269). */
    method Run(n: nat, x: Inputs, c: Compare) returns (o: Outcome, ghost order: seq<nat>)
      requires n >= 1 && InputsFor(x, n) && subjects == [] && browsers == [] && !lockHeld && !closed
      modifies this
      ensures o.Failed? ==> TornDown()
      ensures o.ReportedReady? ==> |subjects| == n && lockHeld && !closed
      ensures o.ReportedReady? ==> ReadyState(subjects, HostToAvoid(c)) && SlotsDistinct(subjects)
      ensures o.ReportedReady? && c.on && c.hostIPv4.Some? ==> forall i :: 0 <= i < n ==> subjects[i].routeIP != c.hostIPv4
      ensures o.ReportedReady? ==> AllRouted(subjects, x, order)
      ensures o.ReportedReady? ==> |browsers| == n && forall i :: 0 <= i < n ==> browsers[i]
      ensures o.ReportedReady? ==> forall i :: 0 <= i < n ==> Address(subjects[i].routeIP.value) == x.drills[i].read
      ensures o.ReportedReady? <==> StepsPass(n, x, c) && ExitsSeparate(x)
      ensures o.Failed? ==> o.why == WhyFailed(n, x)
    {
      var failed;
      failed, order := Prepare(n, x);
      if failed.Some? {
        return Failed(failed.value), order;
      }
      ghost var prepared := subjects;
      var launched := LaunchAll(x);
      if !launched {
        Abort();
        return Failed(BrowserFailed), order;
      }
      LaunchKeeps(prepared, subjects);
      StayRouted(prepared, subjects, x, order);
      ghost var running := subjects;
      var passed := VerifyAll(x, c);
      if !passed {
        Abort();
        return Failed(VerificationFailed), order;
      }
      StayRouted(running, subjects, x, order);
      if !x.v9 {
        Abort();
        return Failed(VerificationFailed), order;
      }
      o := ReportedReady;
    }
  }

  /** The first step that does not pass names the failure. */
  ghost function WhyFailed(n: nat, x: Inputs): Failure
    requires InputsFor(x, n)
  {
    if !SetupPasses(x) then SetupFailed
    else if !x.chromiumFound then BrowserFailed
    else if !PreparationPasses(n, x) || !ExitsSeparate(x) then RouteFailed
    else if !LaunchesPass(n, x) then BrowserFailed
    else VerificationFailed
  }

  lemma SlotsKept(a: seq<Subject>, b: seq<Subject>)
    requires SlotsDistinct(a) && |a| == |b| && forall i :: 0 <= i < |a| ==> a[i].slot == b[i].slot
    ensures SlotsDistinct(b)
  {
  }

  lemma LaunchKeeps(before: seq<Subject>, after: seq<Subject>)
    requires |before| == |after| && RoutesAgree(before) && AllReady(before) && SlotsDistinct(before)
    requires forall i :: 0 <= i < |after| ==> after[i] == before[i].(gateOpen := after[i].gateOpen)
    ensures RoutesAgree(after) && AllReady(after) && SlotsDistinct(after) && SamePlaces(before, after)
  {
    forall i | 0 <= i < |after|
      ensures SameRoute(after[i]) && after[i].status.Ready? && after[i].slot == before[i].slot
    {
      assert SameRoute(before[i]) && before[i].status.Ready?;
    }
  }

  /** A subject that was never up: the address it comes up with depends on the answers alone. */
  lemma BroughtUpAddresses(before: seq<Subject>, after: seq<Subject>, x: Inputs)
    requires |before| == |after| == |x.bringUps|
    requires forall i :: 0 <= i < |after| ==> after[i] == BringUpRoute(before[i], x.bringUps[i], x.hasReplacer, x.hasPinner).s
    ensures forall i :: 0 <= i < |after| ==>
              (BringUpRoute(before[i], x.bringUps[i], x.hasReplacer, x.hasPinner).passed <==> AddressAt(x, i).Some?)
    ensures forall i :: 0 <= i < |after| && AddressAt(x, i).Some? ==> after[i].routeIP == AddressAt(x, i)
    ensures (forall i :: 0 <= i < |after| ==> AddressAt(x, i).Some?) ==> AllKnown(after) && Addrs(after) == Exits(x)
  {
  }

  /** Subjects built on their provisioned routes come up where RouteAt says, gates closed. */
  lemma BroughtUpRoutes(before: seq<Subject>, after: seq<Subject>, x: Inputs)
    requires |before| == |after| == |x.bringUps| && Built(before, x.routes)
    requires forall i :: 0 <= i < |after| ==> after[i] == BringUpRoute(before[i], x.bringUps[i], x.hasReplacer, x.hasPinner).s
    ensures AllRouted(after, x, []) && AllClosed(after)
  {
    forall i | 0 <= i < |after|
      ensures Routed(after[i], x, i, []) && !after[i].gateOpen
    {
      assert before[i] == NewSubject(i + 1, x.routes[i]);
    }
  }

  lemma SeparatedRoutes(up: seq<Subject>, out: seq<Subject>, x: Inputs, order: seq<nat>, replaced: set<nat>)
    requires AllRouted(up, x, []) && AllClosed(up) && SlotsDistinct(up) && RoutesAgree(out)
    requires Traced(up, out, x.answer, order, replaced, true) && OnlySlotsChanged(up, out, replaced)
    requires !x.hasReplacer ==> order == []
    ensures AllRouted(out, x, order) && AllClosed(out)
  {
    forall i | 0 <= i < |out|
      ensures Routed(out[i], x, i, order) && !out[i].gateOpen
    {
      assert Routed(up[i], x, i, []);
      assert up[i].slot == i + 1 == out[i].slot && SameRoute(out[i]);
      forall k | 0 <= k < |order| && order[k] == i + 1
        ensures out[i].route == x.answer(k).next
      {
        assert order[k] == up[i].slot;
        assert DrawnFrom(out[i], x.answer(k)) && Usable(x.answer(k));
      }
    }
  }

  lemma EgressExactly(before: seq<Subject>, after: seq<Subject>, answers: seq<Read>, c: Compare)
    requires |before| == |after| == |answers|
    requires forall i :: 0 <= i < |after| ==> after[i] == V2BrowserEgress(before[i], answers[i], c).s
    ensures (forall i :: 0 <= i < |after| ==> V2BrowserEgress(before[i], answers[i], c).passed) && BrowsersSeparated(after, c)
       <==> AddressesPass(answers, c)
  {
    forall i | 0 <= i < |after|
      ensures V2BrowserEgress(before[i], answers[i], c).passed <==> answers[i].Address? && !(c.on && c.hostIPv4 == Some(answers[i].ip))
      ensures answers[i].Address? ==> after[i].browserIP == Some(answers[i].ip)
    {
    }
  }

  lemma DrillExactly(before: seq<Subject>, after: seq<Subject>, drills: seq<Drill>, c: Compare)
    requires |before| == |after| == |drills|
    requires forall i :: 0 <= i < |after| ==> after[i] == V7FailClosed(before[i], drills[i], c).s
    ensures (forall i :: 0 <= i < |after| ==> V7FailClosed(before[i], drills[i], c).passed) && BrowsersSeparated(after, c)
       <==> DrillsPass(drills, c)
  {
    var answers := Resumes(drills);
    forall i | 0 <= i < |after|
      ensures V7FailClosed(before[i], drills[i], c).passed <==>
              drills[i].blocked && !drills[i].leaks && drills[i].resumed && drills[i].connected &&
              answers[i].Address? && !(c.on && c.hostIPv4 == Some(answers[i].ip))
      ensures V7FailClosed(before[i], drills[i], c).passed ==> after[i].browserIP == Some(answers[i].ip)
    {
      assert answers[i] == drills[i].read;
    }
  }

  lemma EgressKeeps(before: seq<Subject>, after: seq<Subject>, seen: seq<Read>, c: Compare)
    requires |before| == |after| == |seen| && RoutesAgree(before) && AllReady(before)
    requires forall i :: 0 <= i < |after| ==> after[i] == V2BrowserEgress(before[i], seen[i], c).s
    ensures RoutesAgree(after) && AllReady(after) && SamePlaces(before, after)
  {
    forall i | 0 <= i < |after|
      ensures SameRoute(after[i]) && after[i].status.Ready? && after[i].slot == before[i].slot
    {
      assert SameRoute(before[i]) && before[i].status.Ready?;
    }
  }

  lemma DrillStays(before: seq<Subject>, after: seq<Subject>, drills: seq<Drill>, c: Compare)
    requires |before| == |after| == |drills|
    requires forall i :: 0 <= i < |after| ==> after[i] == V7FailClosed(before[i], drills[i], c).s
    ensures SamePlaces(before, after)
  {
  }

  lemma BroughtUp(before: seq<Subject>, after: seq<Subject>, x: Inputs)
    requires |before| == |after| == |x.bringUps| && RoutesAgree(before) && SlotsDistinct(before)
    requires forall i :: 0 <= i < |after| ==> after[i] == BringUpRoute(before[i], x.bringUps[i], x.hasReplacer, x.hasPinner).s
    requires forall i :: 0 <= i < |after| ==> BringUpRoute(before[i], x.bringUps[i], x.hasReplacer, x.hasPinner).passed
    ensures RoutesAgree(after) && AllReady(after) && SlotsDistinct(after)
  {
    forall i | 0 <= i < |after|
      ensures SameRoute(after[i]) && after[i].status.Ready? && after[i].slot == before[i].slot
    {
      assert SameRoute(before[i]);
    }
  }

  lemma DrilledIsReady(before: seq<Subject>, after: seq<Subject>, drills: seq<Drill>, c: Compare)
    requires |before| == |after| == |drills| && RoutesAgree(before) && AllReady(before)
    requires forall i :: 0 <= i < |after| ==> after[i] == V7FailClosed(before[i], drills[i], c).s
    requires forall i :: 0 <= i < |after| ==> V7FailClosed(before[i], drills[i], c).passed
    requires BrowsersSeparated(after, c)
    ensures ReadyState(after, HostToAvoid(c))
    ensures forall i :: 0 <= i < |after| ==> Address(after[i].routeIP.value) == drills[i].read
  {
    forall i | 0 <= i < |after|
      ensures after[i].routeIP == after[i].browserIP == after[i].egress == Some(drills[i].read.ip)
      ensures after[i].gateOpen && after[i].status.Ready? && SameRoute(after[i])
    {
      assert SameRoute(before[i]);
    }
  }
}
