/**
 What happens to an identity's route after READY: health probes, re-establishment, operator stop
 and start, and the browser going away (controller/health/health.go:153-311,
 controller/startup/session.go:704-749, 798-823, routing/provider/upstream.go:77-103).

 Each operation touches one subject, so it is a function from that subject to its new value and
 the events it emits. What the network, the provisioner and the clock answer are inputs.
 */
module RouteLifecycle {
  import opened BoundedLog
  import opened Common

  type IP = nat
  type RouteId = nat

  datatype Status = Created | Starting | Verifying | Ready | Down | Stopped

  /**
   One identity. `egress` is the last public address read through its route or a candidate
   route; `down`, `downSince`, `lastIPCheck` and `alerted` are the monitor's notes on it.
   */
  datatype Subject = Subject(
    slot: nat,
    route: RouteId, status: Status,
    gateRoute: RouteId, gateOpen: bool,
    routeIP: Option<IP>, browserIP: Option<IP>, egress: Option<IP>,
    down: bool, downSince: nat, lastIPCheck: nat, alerted: bool
  )

  datatype Kind = Blocked | ReprovisionFailed | Restored | EgressChanged | Leak | BrowserExited

  datatype Event = Event(subject: nat, kind: Kind)

  /** Answer of a public-IP probe. */
  datatype Read = Address(ip: IP) | NoAnswer

  /** What the provisioner, the new route and the echo service answer to a re-establishment. */
  datatype Attempt = Attempt(provisioned: bool, started: bool, read: Read, next: RouteId)

  datatype ProbeInput = ProbeInput(now: nat, reachable: bool, read: Read, readAt: nat, attempt: Attempt)

  /** ipCheckInterval, reestablishAfter, and whether a Reestablish callback is set. */
  datatype Options = Options(ipCheckInterval: nat, reestablishAfter: nat, canReestablish: bool)

  datatype Effect = Effect(s: Subject, kinds: seq<Kind>)

  const KEPT_EVENTS: nat := 500

  // ---------------------------------------------------------------- operations on one subject

  /** A route dials only while READY or VERIFYING. */
  predicate Dials(st: Status) {
    st.Ready? || st.Verifying?
  }

  function ReadThrough(st: Status, read: Read): Read {
    if Dials(st) then read else NoAnswer
  }

  function Note(s: Subject, read: Read): Subject {
    if read.Address? then s.(egress := Some(read.ip)) else s
  }

  function MarkDown(s: Subject, now: nat): Effect {
    Effect(s.(down := true, downSince := if s.down then s.downSince else now, status := Down, gateOpen := false),
           if s.down then [] else [Blocked])
  }

  /** `clash`: another subject has already pinned the address read. */
  predicate AttemptSucceeds(s: Subject, clash: bool, x: Attempt) {
    && x.provisioned && x.started && x.read.Address?
    && (s.routeIP.Some? ==> x.read.ip == s.routeIP.value)
    && !clash
  }

  function Reestablish(s: Subject, clash: bool, x: Attempt): Subject {
    var closed := s.(gateOpen := false);
    if !x.provisioned || !x.started then closed
    else if !AttemptSucceeds(s, clash, x) then Note(closed, x.read)
    else
      var pinned := if s.routeIP.None? then closed.(routeIP := Some(x.read.ip), browserIP := Some(x.read.ip)) else closed;
      Note(pinned, x.read).(route := x.next, gateRoute := x.next, status := Verifying)
  }

  function MaybeReestablish(e: Effect, clash: bool, o: Options, now: nat, x: Attempt): Effect {
    if !o.canReestablish || !e.s.down || now < e.s.downSince + o.reestablishAfter then e
    else Effect(Reestablish(e.s, clash, x), e.kinds + if AttemptSucceeds(e.s, clash, x) then [] else [ReprovisionFailed])
  }

  function Probe(s: Subject, clash: bool, o: Options, p: ProbeInput): Effect {
    var dialling := if s.status.Down? then s.(status := Verifying) else s;
    if !p.reachable then MaybeReestablish(MarkDown(s, p.now), clash, o, p.now, p.attempt)
    else if Due(s, o, p) && ReadThrough(dialling.status, p.read).NoAnswer? then
      MaybeReestablish(MarkDown(dialling.(lastIPCheck := p.readAt), p.readAt), clash, o, p.readAt, p.attempt)
    else ProbeAnswered(s, o, p)
  }

  /** The address is checked on recovery always, otherwise once per interval. */
  predicate Due(s: Subject, o: Options, p: ProbeInput) {
    s.down || p.now >= s.lastIPCheck + o.ipCheckInterval
  }

  /** The rest of a probe once the route has answered, or no check is due. */
  function ProbeAnswered(s: Subject, o: Options, p: ProbeInput): Effect {
    if !Due(s, o, p) || p.read.NoAnswer? then Effect(s, [])
    else
      var dialling := if s.status.Down? then s.(status := Verifying) else s;
      var checked := Note(dialling, p.read).(lastIPCheck := p.readAt);
      if s.routeIP.Some? && p.read.ip != s.routeIP.value then
        var e := MarkDown(checked, p.readAt);
        Effect(e.s.(alerted := true), e.kinds + if s.alerted then [] else [EgressChanged])
      else if s.down then
        Effect(checked.(down := false, alerted := false, status := Ready, gateOpen := true), [Restored])
      else Effect(checked.(status := Ready), [])
  }

  function StopRoute(s: Subject): Subject {
    s.(status := Down, gateOpen := false)
  }

  function StartRoute(s: Subject, read: Read): Subject {
    var checked := Note(s.(status := Verifying), read);
    match read
    case NoAnswer => checked.(status := Down)
    case Address(ip) =>
      if s.routeIP.Some? && ip != s.routeIP.value then checked.(status := Down)
      else checked.(status := Ready, gateOpen := true)
  }

  // ---------------------------------------------------------------- the session

  datatype World = World(subjects: seq<Subject>, log: seq<Event>)

  datatype Op =
    | ProbeOp(p: ProbeInput)
    | ReestablishOp(x: Attempt)
    | StopOp
    | StartOp(read: Read)
    | BrowserExit
    | LeakSeen

  datatype Step = Step(i: nat, op: Op)

  /** Some subject other than i has pinned the address that the attempt reads. */
  predicate Clash(ss: seq<Subject>, i: nat, x: Attempt) {
    x.read.Address? && exists j :: 0 <= j < |ss| && j != i && ss[j].routeIP == Some(x.read.ip)
  }

  predicate ClashOf(ss: seq<Subject>, i: nat, op: Op) {
    match op
    case ProbeOp(p) => Clash(ss, i, p.attempt)
    case ReestablishOp(x) => Clash(ss, i, x)
    case _ => false
  }

  function Act(s: Subject, clash: bool, o: Options, op: Op): Effect {
    match op
    case ProbeOp(p) => Probe(s, clash, o, p)
    case ReestablishOp(x) => Effect(Reestablish(s, clash, x), [])
    case StopOp => Effect(StopRoute(s), [])
    case StartOp(read) => Effect(StartRoute(s, read), [])
    case BrowserExit => Effect(s.(gateOpen := false), [BrowserExited])
    case LeakSeen => Effect(s, [Leak])
  }

  function Tagged(i: nat, kinds: seq<Kind>): seq<Event> {
    seq(|kinds|, k requires 0 <= k < |kinds| => Event(i, kinds[k]))
  }

  function Next(w: World, o: Options, t: Step): World
    requires t.i < |w.subjects|
  {
    var e := Act(w.subjects[t.i], ClashOf(w.subjects, t.i, t.op), o, t.op);
    World(w.subjects[t.i := e.s], w.log + Tagged(t.i, e.kinds))
  }

  /** A new monitor has no notes on any subject. */
  function Unnoted(ss: seq<Subject>): seq<Subject> {
    seq(|ss|, i requires 0 <= i < |ss| => ss[i].(down := false, downSince := 0, lastIPCheck := 0, alerted := false))
  }

  /** The monitor and session objects, with the same state updated in place. */
  class Monitor {
    const opts: Options
    var subjects: seq<Subject>
    var events: seq<Event>
    /** Every event ever emitted. */
    ghost var log: seq<Event>

    ghost predicate Valid()
      reads this
    {
      events == Tail(log, KEPT_EVENTS)
    }

    ghost function View(): World
      reads this
    {
      World(subjects, log)
    }

    constructor (subjects: seq<Subject>, opts: Options)
      ensures Valid() && View() == World(Unnoted(subjects), []) && this.opts == opts
    {
      this.subjects, this.opts, events, log := Unnoted(subjects), opts, [], [];
    }

    method Emit(i: nat, kind: Kind)
      requires Valid()
      modifies this`events, this`log
      ensures Valid() && log == old(log) + [Event(i, kind)]
    {
      AppendKeepsTail(log, Event(i, kind), KEPT_EVENTS);
      events := events + [Event(i, kind)];
      if |events| > KEPT_EVENTS {
        events := events[|events| - KEPT_EVENTS..];
      }
      log := log + [Event(i, kind)];
    }

    method CloseGateAndMark(i: nat, now: nat)
      requires Valid() && i < |subjects|
      modifies this
      ensures Valid()
      ensures var e := MarkDown(old(subjects)[i], now);
              View() == World(old(subjects)[i := e.s], old(log) + Tagged(i, e.kinds))
    {
      var first := !subjects[i].down;
      subjects := subjects[i := subjects[i].(down := true)];
      if first {
        subjects := subjects[i := subjects[i].(downSince := now)];
      }
      subjects := subjects[i := subjects[i].(status := Down)];
      subjects := subjects[i := subjects[i].(gateOpen := false)];
      if first {
        Emit(i, Blocked);
      }
    }

    method TryReestablish(i: nat, x: Attempt) returns (ok: bool)
      requires i < |subjects|
      modifies this`subjects
      ensures ok == AttemptSucceeds(old(subjects)[i], Clash(old(subjects), i, x), x)
      ensures subjects == old(subjects)[i := Reestablish(old(subjects)[i], Clash(old(subjects), i, x), x)]
    {
      subjects := subjects[i := subjects[i].(gateOpen := false)];
      var pinned := subjects[i].routeIP;
      if !x.provisioned || !x.started {
        return false;
      }
      if x.read.NoAnswer? {
        return false;
      }
      var ip := x.read.ip;
      subjects := subjects[i := subjects[i].(egress := Some(ip))];
      if pinned.Some? && ip != pinned.value {
        return false;
      }
      for j := 0 to |subjects|
        invariant subjects == old(subjects)[i := old(subjects)[i].(gateOpen := false, egress := Some(ip))]
        invariant forall k :: 0 <= k < j && k != i ==> subjects[k].routeIP != Some(ip)
      {
        if j != i && subjects[j].routeIP.Some? && ip == subjects[j].routeIP.value {
          assert old(subjects)[j].routeIP == Some(ip);
          return false;
        }
      }
      forall k | 0 <= k < |subjects| && k != i
        ensures old(subjects)[k].routeIP != Some(ip)
      {
        assert subjects[k] == old(subjects)[k];
      }
      subjects := subjects[i := subjects[i].(gateRoute := x.next, route := x.next)];
      if pinned.None? {
        subjects := subjects[i := subjects[i].(routeIP := Some(ip), browserIP := Some(ip))];
      }
      subjects := subjects[i := subjects[i].(status := Verifying)];
      return true;
    }

    method MaybeRestore(i: nat, now: nat, x: Attempt)
      requires Valid() && i < |subjects|
      modifies this
      ensures Valid()
      ensures var e := MaybeReestablish(Effect(old(subjects)[i], []), Clash(old(subjects), i, x), opts, now, x);
              View() == World(old(subjects)[i := e.s], old(log) + Tagged(i, e.kinds))
    {
      if !opts.canReestablish || !subjects[i].down || now < subjects[i].downSince + opts.reestablishAfter {
        return;
      }
      var ok := TryReestablish(i, x);
      if !ok {
        Emit(i, ReprovisionFailed);
      }
    }

    /** A failed probe: close the gate first, then consider restoring the path. */
    method Fail(i: nat, now: nat, x: Attempt)
      requires Valid() && i < |subjects|
      modifies this
      ensures Valid()
      ensures var e := MaybeReestablish(MarkDown(old(subjects)[i], now), Clash(old(subjects), i, x), opts, now, x);
              View() == World(old(subjects)[i := e.s], old(log) + Tagged(i, e.kinds))
    {
      ghost var s := subjects[i];
      CloseGateAndMark(i, now);
      ClashIgnoresSelf(old(subjects), i, subjects[i], x);
      MaybeRestore(i, now, x);
      TagsConcat(i, MarkDown(s, now).kinds,
                 MaybeReestablish(Effect(MarkDown(s, now).s, []), Clash(old(subjects), i, x), opts, now, x).kinds);
    }

    /** The address read is not the pinned one. */
    method Alert(i: nat, now: nat)
      requires Valid() && i < |subjects|
      modifies this
      ensures Valid()
      ensures var s := old(subjects)[i];
              var e := MarkDown(s, now);
              View() == World(old(subjects)[i := e.s.(alerted := true)],
                              old(log) + Tagged(i, e.kinds + if s.alerted then [] else [EgressChanged]))
    {
      var first := !subjects[i].alerted;
      ghost var marked := MarkDown(subjects[i], now);
      CloseGateAndMark(i, now);
      subjects := subjects[i := subjects[i].(alerted := true)];
      if first {
        Emit(i, EgressChanged);
      }
      TagsConcat(i, marked.kinds, if first then [EgressChanged] else []);
    }

    /** The part of a probe that follows a successful address read. */
    method Answered(i: nat, p: ProbeInput)
      requires Valid() && i < |subjects| && Due(subjects[i], opts, p) && p.read.Address?
      modifies this
      ensures Valid()
      ensures var e := ProbeAnswered(old(subjects)[i], opts, p);
              View() == World(old(subjects)[i := e.s], old(log) + Tagged(i, e.kinds))
    {
      var wasDown := subjects[i].down;
      if subjects[i].status.Down? {
        subjects := subjects[i := subjects[i].(status := Verifying)];
      }
      subjects := subjects[i := Note(subjects[i], p.read).(lastIPCheck := p.readAt)];
      if subjects[i].routeIP.Some? && p.read.ip != subjects[i].routeIP.value {
        Alert(i, p.readAt);
        return;
      }
      if wasDown {
        subjects := subjects[i := subjects[i].(down := false, alerted := false)];
        subjects := subjects[i := subjects[i].(status := Ready, gateOpen := true)];
        Emit(i, Restored);
      } else {
        subjects := subjects[i := subjects[i].(status := Ready)];
      }
    }

    method ProbeSubject(i: nat, p: ProbeInput)
      requires Valid() && i < |subjects|
      modifies this
      ensures Valid() && View() == Next(old(View()), opts, Step(i, ProbeOp(p)))
    {
      if !p.reachable {
        Fail(i, p.now, p.attempt);
        return;
      }
      if !subjects[i].down && p.now < subjects[i].lastIPCheck + opts.ipCheckInterval {
        assert subjects[i := subjects[i]] == subjects && log + Tagged(i, []) == log;
        return;
      }
      var dialling := if subjects[i].status.Down? then subjects[i].(status := Verifying) else subjects[i];
      if ReadThrough(dialling.status, p.read).NoAnswer? {
        subjects := subjects[i := dialling.(lastIPCheck := p.readAt)];
        ClashIgnoresSelf(old(subjects), i, subjects[i], p.attempt);
        Fail(i, p.readAt, p.attempt);
        assert old(subjects)[i := dialling.(lastIPCheck := p.readAt)][i := subjects[i]] == old(subjects)[i := subjects[i]];
        return;
      }
      Answered(i, p);
    }

    method SetRouteEnabled(i: nat, enabled: bool, read: Read)
      requires Valid() && i < |subjects|
      modifies this`subjects
      ensures Valid()
      ensures View() == Next(old(View()), opts, Step(i, if enabled then StartOp(read) else StopOp))
    {
      if !enabled {
        subjects := subjects[i := subjects[i].(status := Down, gateOpen := false)];
        return;
      }
      subjects := subjects[i := Note(subjects[i].(status := Verifying), read)];
      if read.NoAnswer? {
        subjects := subjects[i := subjects[i].(status := Down)];
        return;
      }
      if subjects[i].routeIP.Some? && read.ip != subjects[i].routeIP.value {
        subjects := subjects[i := subjects[i].(status := Down)];
        return;
      }
      subjects := subjects[i := subjects[i].(status := Ready, gateOpen := true)];
    }
  }

  lemma ClashIgnoresSelf(ss: seq<Subject>, i: nat, s: Subject, x: Attempt)
    requires i < |ss|
    ensures Clash(ss[i := s], i, x) == Clash(ss, i, x)
  {
    if Clash(ss, i, x) {
      var j :| 0 <= j < |ss| && j != i && ss[j].routeIP == Some(x.read.ip);
      assert ss[i := s][j].routeIP == Some(x.read.ip);
    }
  }

  lemma TagsConcat(i: nat, a: seq<Kind>, b: seq<Kind>)
    ensures Tagged(i, a) + Tagged(i, b) == Tagged(i, a + b)
  {
  }

  // ---------------------------------------------------------------- what each operation does, on plain fields

  /** A check is due at once on a Down subject, otherwise when the interval has passed. */
  predicate CheckNow(s: Subject, o: Options, p: ProbeInput) {
    p.reachable && (s.down || p.now >= s.lastIPCheck + o.ipCheckInterval)
  }

  /** A probe that reaches the upstream before the next check changes nothing. */
  lemma ProbeNotDue(s: Subject, clash: bool, o: Options, p: ProbeInput)
    requires p.reachable && !s.down && p.now < s.lastIPCheck + o.ipCheckInterval
    ensures Act(s, clash, o, ProbeOp(p)) == Effect(s, [])
  {
  }

  /** A due check that reads another address than the pin closes the gate and reports it once per outage. */
  lemma ProbeReadsOther(s: Subject, clash: bool, o: Options, p: ProbeInput)
    requires p.reachable && (s.down || p.now >= s.lastIPCheck + o.ipCheckInterval)
    requires s.status.Ready? || s.status.Verifying? || s.status.Down?
    requires p.read.Address? && s.routeIP.Some? && p.read.ip != s.routeIP.value
    ensures var e := Act(s, clash, o, ProbeOp(p));
      && e.s.down && e.s.alerted && !e.s.gateOpen && e.s.status.Down?
      && e.kinds == (if s.down then [] else [Blocked]) + (if s.alerted then [] else [EgressChanged])
      && e.s.lastIPCheck == p.readAt && e.s.egress == Some(p.read.ip)
      && e.s.downSince == (if s.down then s.downSince else p.readAt)
      && e.s.route == s.route && e.s.gateRoute == s.gateRoute
  {
  }

  /** A due check that reads the pin, or a first address, makes the route READY and restores a Down subject. */
  lemma ProbeReadsPin(s: Subject, clash: bool, o: Options, p: ProbeInput)
    requires p.reachable && (s.down || p.now >= s.lastIPCheck + o.ipCheckInterval)
    requires s.status.Ready? || s.status.Verifying? || s.status.Down?
    requires p.read.Address? && (s.routeIP.Some? ==> p.read.ip == s.routeIP.value)
    ensures var e := Act(s, clash, o, ProbeOp(p));
      && !e.s.down && e.s.status.Ready?
      && e.s.gateOpen == (s.down || s.gateOpen) && e.s.alerted == (!s.down && s.alerted)
      && e.kinds == (if s.down then [Restored] else [])
      && e.s.lastIPCheck == p.readAt && e.s.egress == Some(p.read.ip)
      && e.s.route == s.route && e.s.gateRoute == s.gateRoute && e.s.routeIP == s.routeIP
  {
  }

  /** The upstream was not reached, or a due check got no answer, as on a route that does not dial. */
  predicate ProbeGetsNothing(s: Subject, o: Options, p: ProbeInput) {
    !p.reachable ||
    ((s.down || p.now >= s.lastIPCheck + o.ipCheckInterval) &&
     (p.read.NoAnswer? || s.status.Created? || s.status.Starting? || s.status.Stopped?))
  }

  /** A candidate route that came up and showed the pinned address, or a first one nobody else holds. */
  predicate Restorable(s: Subject, clash: bool, x: Attempt) {
    x.provisioned && x.started && x.read.Address? && !clash && (s.routeIP.None? || s.routeIP == Some(x.read.ip))
  }

  /**
   A failed check at `at` has turned `s` into `e.s`: the gate is closed, and once the subject has been
   Down for reestablishAfter the path is re-established. A restorable attempt puts subject and gate
   on the new route, still closed; any other leaves the route and is reported.
   */
  predicate FailedAt(s: Subject, clash: bool, o: Options, at: nat, x: Attempt, e: Effect) {
    var since := if s.down then s.downSince else at;
    var tries := o.canReestablish && at >= since + o.reestablishAfter;
    var blocked := if s.down then [] else [Blocked];
    && e.s.down && !e.s.gateOpen && e.s.downSince == since && e.s.alerted == s.alerted
    && (if tries && Restorable(s, clash, x) then
          e.kinds == blocked && e.s.status.Verifying? && e.s.route == e.s.gateRoute == x.next && e.s.routeIP == Some(x.read.ip)
        else
          && e.kinds == (if tries then blocked + [ReprovisionFailed] else blocked)
          && e.s.status.Down? && e.s.route == s.route && e.s.gateRoute == s.gateRoute && e.s.routeIP == s.routeIP)
  }

  lemma FailMeans(s: Subject, clash: bool, o: Options, at: nat, x: Attempt)
    ensures FailedAt(s, clash, o, at, x, MaybeReestablish(MarkDown(s, at), clash, o, at, x))
  {
  }

  /** A probe that gets nothing is a failed check. */
  lemma ProbeFails(s: Subject, clash: bool, o: Options, p: ProbeInput)
    requires ProbeGetsNothing(s, o, p)
    ensures FailedAt(s, clash, o, if p.reachable then p.readAt else p.now, p.attempt, Act(s, clash, o, ProbeOp(p)))
  {
    if p.reachable {
      var dialling := if s.status.Down? then s.(status := Verifying) else s;
      FailMeans(dialling.(lastIPCheck := p.readAt), clash, o, p.readAt, p.attempt);
    } else {
      FailMeans(s, clash, o, p.now, p.attempt);
    }
  }

  /** The four cases are all there are. */
  lemma ProbeIsOneOf(s: Subject, o: Options, p: ProbeInput)
    ensures ProbeGetsNothing(s, o, p)
         || (p.reachable && !s.down && p.now < s.lastIPCheck + o.ipCheckInterval)
         || (CheckNow(s, o, p) && (s.status.Ready? || s.status.Verifying? || s.status.Down?) && p.read.Address?)
  {
  }

  /** Re-establishing closes the gate first and swaps the route exactly on a restorable attempt. */
  lemma ReestablishMeans(s: Subject, clash: bool, o: Options, x: Attempt)
    ensures var e := Act(s, clash, o, ReestablishOp(x));
      && !e.s.gateOpen && e.kinds == [] && e.s.down == s.down && e.s.alerted == s.alerted
      && (if Restorable(s, clash, x) then
            && e.s.route == e.s.gateRoute == x.next && e.s.status.Verifying?
            && e.s.routeIP == Some(x.read.ip) && (s.routeIP.None? ==> e.s.browserIP == Some(x.read.ip))
          else
            && e.s.route == s.route && e.s.gateRoute == s.gateRoute && e.s.status == s.status
            && e.s.routeIP == s.routeIP && e.s.browserIP == s.browserIP)
  {
  }

  /** route.stop, route.start, the browser's exit and a leak. */
  lemma SwitchMeans(s: Subject, clash: bool, o: Options, read: Read)
    ensures Act(s, clash, o, StopOp) == Effect(s.(gateOpen := false, status := Down), [])
    ensures var e := Act(s, clash, o, StartOp(read));
      && e.kinds == []
      && (if read.Address? && (s.routeIP.None? || s.routeIP == Some(read.ip))
          then e.s == s.(gateOpen := true, status := Ready, egress := Some(read.ip))
          else e.s == s.(status := Down, egress := if read.Address? then Some(read.ip) else s.egress))
    ensures Act(s, clash, o, BrowserExit) == Effect(s.(gateOpen := false), [BrowserExited])
    ensures Act(s, clash, o, LeakSeen) == Effect(s, [Leak])
  {
  }

  /** A step touches its own subject only, tags its events with it, and sees a clash where another holds the address. */
  lemma NextMeans(w: World, o: Options, t: Step)
    requires t.i < |w.subjects|
    ensures var w' := Next(w, o, t);
      && |w'.subjects| == |w.subjects|
      && (forall j :: 0 <= j < |w.subjects| && j != t.i ==> w'.subjects[j] == w.subjects[j])
      && w.log <= w'.log && (forall k :: |w.log| <= k < |w'.log| ==> w'.log[k].subject == t.i)
    ensures (t.op.ReestablishOp? || t.op.ProbeOp?) ==>
      var x := if t.op.ProbeOp? then t.op.p.attempt else t.op.x;
      var clash := exists j :: 0 <= j < |w.subjects| && j != t.i && x.read.Address? && w.subjects[j].routeIP == Some(x.read.ip);
      && Next(w, o, t).subjects[t.i] == Act(w.subjects[t.i], clash, o, t.op).s
      && |Next(w, o, t).log| == |w.log| + |Act(w.subjects[t.i], clash, o, t.op).kinds|
  {
  }

  // ---------------------------------------------------------------- claims about one subject

  /** Traffic may flow only on a verified route: an open gate has read its pinned address last. */
  predicate OpenIsVerified(s: Subject) {
    s.gateOpen ==> s.egress == s.routeIP && s.status.Ready?
  }

  predicate SameRoute(s: Subject) {
    s.gateRoute == s.route
  }

  /** A DOWN subject carries no traffic. */
  predicate DownIsClosed(s: Subject) {
    && (s.down ==> !s.gateOpen && (s.status.Down? || s.status.Verifying?))
    && (s.alerted ==> s.down)
  }

  /** What every failed probe leaves behind, whether or not it tried to restore the path. */
  lemma FailShape(s: Subject, clash: bool, o: Options, now: nat, x: Attempt)
    ensures var e := MaybeReestablish(MarkDown(s, now), clash, o, now, x);
            && e.s.down && !e.s.gateOpen && e.s.alerted == s.alerted && e.s.slot == s.slot
            && (e.s.status.Down? || e.s.status.Verifying?)
            && (s.routeIP.Some? ==> e.s.routeIP == s.routeIP)
            && (SameRoute(s) ==> SameRoute(e.s))
            && (e.kinds == MarkDown(s, now).kinds || e.kinds == MarkDown(s, now).kinds + [ReprovisionFailed])
  {
  }

  /** A probe either fails, or leaves the subject alone, or has read an address. */
  lemma ProbeCases(s: Subject, clash: bool, o: Options, p: ProbeInput) returns (failed: bool, base: Subject, at: nat)
    ensures base.down == s.down && base.alerted == s.alerted && base.routeIP == s.routeIP && base.slot == s.slot
    ensures base.gateRoute == s.gateRoute && base.route == s.route
    ensures failed ==> Probe(s, clash, o, p) == MaybeReestablish(MarkDown(base, at), clash, o, at, p.attempt)
    ensures !failed ==> p.reachable && Probe(s, clash, o, p) == ProbeAnswered(s, o, p)
  {
    var dialling := if s.status.Down? then s.(status := Verifying) else s;
    if !p.reachable {
      failed, base, at := true, s, p.now;
    } else if !s.down && p.now < s.lastIPCheck + o.ipCheckInterval {
      failed, base, at := false, s, p.now;
    } else {
      var read := ReadThrough(dialling.status, p.read);
      failed, base, at := read.NoAnswer?, dialling.(lastIPCheck := p.readAt), p.readAt;
    }
  }

  lemma ProbeKeeps(s: Subject, clash: bool, o: Options, p: ProbeInput)
    requires s.routeIP.Some? && OpenIsVerified(s) && SameRoute(s)
    ensures var s' := Probe(s, clash, o, p).s;
            s'.routeIP == s.routeIP && OpenIsVerified(s') && SameRoute(s') && s'.slot == s.slot
  {
    var failed, base, at := ProbeCases(s, clash, o, p);
    if failed {
      FailShape(base, clash, o, at, p.attempt);
    }
  }

  /** No operation moves a pin or puts gate and subject on different routes. */
  lemma ActKeepsPin(s: Subject, clash: bool, o: Options, op: Op)
    requires s.routeIP.Some? && SameRoute(s)
    ensures var s' := Act(s, clash, o, op).s;
            s'.routeIP == s.routeIP && SameRoute(s') && s'.slot == s.slot
  {
    if op.ProbeOp? {
      var failed, base, at := ProbeCases(s, clash, o, op.p);
      if failed {
        FailShape(base, clash, o, at, op.p.attempt);
      }
    }
  }

  /** A route.start asked of a closed gate or answered from the pinned address; any other operation. */
  predicate StartFits(s: Subject, op: Op) {
    op.StartOp? ==> !s.gateOpen || (s.routeIP.Some? && op.read == Address(s.routeIP.value))
  }

  lemma ActKeeps(s: Subject, clash: bool, o: Options, op: Op)
    requires s.routeIP.Some? && OpenIsVerified(s) && SameRoute(s)
    ensures var s' := Act(s, clash, o, op).s;
            && s'.routeIP == s.routeIP && SameRoute(s') && s'.slot == s.slot
            && (OpenIsVerified(s') <==> StartFits(s, op))
  {
    ActKeepsPin(s, clash, o, op);
    if op.ProbeOp? {
      ProbeKeeps(s, clash, o, op.p);
    } else if op.StartOp? {
      StartKeepsExactlyWhen(s, op.read);
    }
  }

  /** Starting a route keeps the claim exactly when its gate was closed or the pinned address answers. */
  lemma StartKeepsExactlyWhen(s: Subject, read: Read)
    requires s.routeIP.Some? && OpenIsVerified(s)
    ensures OpenIsVerified(StartRoute(s, read)) <==> !s.gateOpen || read == Address(s.routeIP.value)
  {
  }

  lemma ActKeepsDownClosed(s: Subject, clash: bool, o: Options, op: Op)
    requires DownIsClosed(s) && !op.StartOp?
    ensures DownIsClosed(Act(s, clash, o, op).s)
  {
    if op.ProbeOp? {
      var failed, base, at := ProbeCases(s, clash, o, op.p);
      if failed {
        FailShape(base, clash, o, at, op.p.attempt);
      }
    }
  }

  /** With route.start in the run the claim is lost exactly when a DOWN subject's read is accepted. */
  lemma StartKeepsDownClosedExactlyWhen(s: Subject, read: Read)
    requires DownIsClosed(s)
    ensures DownIsClosed(StartRoute(s, read)) <==>
            !s.down || read.NoAnswer? || (s.routeIP.Some? && read.ip != s.routeIP.value)
  {
  }

  /** A closed gate opens only on the pinned address. */
  lemma ReopensOnlyOnPinnedAddress(s: Subject, clash: bool, o: Options, op: Op)
    requires s.routeIP.Some? && !s.gateOpen && Act(s, clash, o, op).s.gateOpen
    ensures (op.ProbeOp? && s.down && op.p.read == Address(s.routeIP.value)) ||
            (op.StartOp? && op.read == Address(s.routeIP.value))
  {
    if op.ProbeOp? {
      var failed, base, at := ProbeCases(s, clash, o, op.p);
      if failed {
        FailShape(base, clash, o, at, op.p.attempt);
      }
    }
  }

  // ---------------------------------------------------------------- runs

  /** A run: every step names an existing subject. */
  predicate OnSubjects(n: nat, run: seq<Step>) {
    forall k :: 0 <= k < |run| ==> run[k].i < n
  }

  function After(w: World, o: Options, run: seq<Step>): World
    requires OnSubjects(|w.subjects|, run)
    decreases |run|
  {
    if run == [] then w else After(Next(w, o, run[0]), o, run[1..])
  }

  /** Every route.start of the run fits. */
  predicate StartsFit(w: World, o: Options, run: seq<Step>)
    requires OnSubjects(|w.subjects|, run)
    decreases |run|
  {
    run != [] ==> StartFits(w.subjects[run[0].i], run[0].op) && StartsFit(Next(w, o, run[0]), o, run[1..])
  }

  ghost predicate Pinned(ss: seq<Subject>) {
    forall i :: 0 <= i < |ss| ==> ss[i].routeIP.Some?
  }

  ghost predicate Separated(ss: seq<Subject>) {
    forall i, j :: 0 <= i < j < |ss| ==> ss[i].routeIP != ss[j].routeIP
  }

  ghost predicate NotHost(ss: seq<Subject>, host: Option<IP>) {
    host.Some? ==> forall i :: 0 <= i < |ss| ==> ss[i].routeIP != host
  }

  /** What start-up promises when it reports READY. */
  ghost predicate ReadyState(ss: seq<Subject>, host: Option<IP>) {
    && Pinned(ss) && Separated(ss) && NotHost(ss, host)
    && forall i :: 0 <= i < |ss| ==>
         var s := ss[i];
         s.browserIP == s.routeIP && s.egress == s.routeIP && s.gateOpen && s.status.Ready? && SameRoute(s)
  }

  ghost predicate RoutesAgree(ss: seq<Subject>) {
    forall i :: 0 <= i < |ss| ==> SameRoute(ss[i])
  }

  ghost predicate SafeState(ss: seq<Subject>) {
    forall i :: 0 <= i < |ss| ==> ss[i].routeIP.Some? && OpenIsVerified(ss[i]) && SameRoute(ss[i])
  }

  ghost predicate SamePins(a: seq<Subject>, b: seq<Subject>) {
    |a| == |b| && forall i :: 0 <= i < |a| ==> a[i].routeIP == b[i].routeIP && a[i].slot == b[i].slot
  }

  lemma PinStep(w: World, o: Options, t: Step)
    requires Pinned(w.subjects) && RoutesAgree(w.subjects) && t.i < |w.subjects|
    ensures SamePins(w.subjects, Next(w, o, t).subjects) && RoutesAgree(Next(w, o, t).subjects)
  {
    ActKeepsPin(w.subjects[t.i], ClashOf(w.subjects, t.i, t.op), o, t.op);
  }

  /** Over every run, whatever is started when, pins stay and gates and subjects name the same routes. */
  lemma {:induction false} PinsStay(w: World, o: Options, run: seq<Step>)
    requires Pinned(w.subjects) && RoutesAgree(w.subjects) && OnSubjects(|w.subjects|, run)
    ensures SamePins(w.subjects, After(w, o, run).subjects) && RoutesAgree(After(w, o, run).subjects)
    decreases |run|
  {
    if run != [] {
      PinStep(w, o, run[0]);
      PinsStay(Next(w, o, run[0]), o, run[1..]);
    }
  }

  /** Every open gate is verified, at every point of the run. */
  ghost predicate AlwaysSafe(w: World, o: Options, run: seq<Step>)
    requires OnSubjects(|w.subjects|, run)
    decreases |run|
  {
    SafeState(w.subjects) && (run != [] ==> AlwaysSafe(Next(w, o, run[0]), o, run[1..]))
  }

  lemma SafeStep(w: World, o: Options, t: Step)
    requires SafeState(w.subjects) && t.i < |w.subjects|
    ensures SafeState(Next(w, o, t).subjects) <==> StartFits(w.subjects[t.i], t.op)
  {
    var s := w.subjects[t.i];
    ActKeeps(s, ClashOf(w.subjects, t.i, t.op), o, t.op);
    assert Next(w, o, t).subjects[t.i] == Act(s, ClashOf(w.subjects, t.i, t.op), o, t.op).s;
  }

  /** Open gates stay verified throughout a run exactly when every route.start in it fits. */
  lemma {:induction false} SafeExactlyWhen(w: World, o: Options, run: seq<Step>)
    requires SafeState(w.subjects) && OnSubjects(|w.subjects|, run)
    ensures AlwaysSafe(w, o, run) <==> StartsFit(w, o, run)
    ensures StartsFit(w, o, run) ==> SafeState(After(w, o, run).subjects)
    decreases |run|
  {
    if run != [] {
      SafeStep(w, o, run[0]);
      if StartFits(w.subjects[run[0].i], run[0].op) {
        SafeExactlyWhen(Next(w, o, run[0]), o, run[1..]);
      }
    }
  }

  /**
   From READY, over every run of probes, re-establishments, stops, starts and browser exits: pins
   never move, stay pairwise distinct and off the host's address, and gate and subject name the
   same route. Throughout the run an open gate has just read its own pin through a READY route
   exactly when each start was asked of a closed gate or answered from the pin.
   */
  lemma ReadyStaysSafe(w: World, host: Option<IP>, o: Options, run: seq<Step>)
    requires ReadyState(w.subjects, host) && OnSubjects(|w.subjects|, run)
    ensures var w' := After(w, o, run);
            && SamePins(w.subjects, w'.subjects)
            && Separated(w'.subjects) && NotHost(w'.subjects, host) && RoutesAgree(w'.subjects)
            && (AlwaysSafe(w, o, run) <==> StartsFit(w, o, run))
            && (StartsFit(w, o, run) ==> SafeState(w'.subjects))
  {
    PinsStay(w, o, run);
    SafeExactlyWhen(w, o, run);
  }

  /** A run without route.start. */
  predicate MonitorRun(run: seq<Step>) {
    forall k :: 0 <= k < |run| ==> !run[k].op.StartOp?
  }

  lemma {:induction false} MonitorRunFits(w: World, o: Options, run: seq<Step>)
    requires OnSubjects(|w.subjects|, run) && MonitorRun(run)
    ensures StartsFit(w, o, run)
    decreases |run|
  {
    if run != [] {
      MonitorRunFits(Next(w, o, run[0]), o, run[1..]);
    }
  }

  /** A route.start of a subject that is not Down, or one that is refused; any other operation. */
  predicate StartRefused(s: Subject, op: Op) {
    op.StartOp? ==> !s.down || op.read.NoAnswer? || (s.routeIP.Some? && op.read.ip != s.routeIP.value)
  }

  predicate StartsRefused(w: World, o: Options, run: seq<Step>)
    requires OnSubjects(|w.subjects|, run)
    decreases |run|
  {
    run != [] ==> StartRefused(w.subjects[run[0].i], run[0].op) && StartsRefused(Next(w, o, run[0]), o, run[1..])
  }

  ghost predicate AllDownClosed(ss: seq<Subject>) {
    forall i :: 0 <= i < |ss| ==> DownIsClosed(ss[i])
  }

  ghost predicate AlwaysDownClosed(w: World, o: Options, run: seq<Step>)
    requires OnSubjects(|w.subjects|, run)
    decreases |run|
  {
    AllDownClosed(w.subjects) && (run != [] ==> AlwaysDownClosed(Next(w, o, run[0]), o, run[1..]))
  }

  lemma DownClosedStep(w: World, o: Options, t: Step)
    requires AllDownClosed(w.subjects) && t.i < |w.subjects|
    ensures AllDownClosed(Next(w, o, t).subjects) <==> StartRefused(w.subjects[t.i], t.op)
  {
    var s, clash := w.subjects[t.i], ClashOf(w.subjects, t.i, t.op);
    if t.op.StartOp? {
      StartKeepsDownClosedExactlyWhen(s, t.op.read);
    } else {
      ActKeepsDownClosed(s, clash, o, t.op);
    }
    assert Next(w, o, t).subjects[t.i] == Act(s, clash, o, t.op).s;
  }

  /** Down means closed throughout a run exactly when no route.start is accepted for a Down subject. */
  lemma {:induction false} DownClosedExactlyWhen(w: World, o: Options, run: seq<Step>)
    requires AllDownClosed(w.subjects) && OnSubjects(|w.subjects|, run)
    ensures AlwaysDownClosed(w, o, run) <==> StartsRefused(w, o, run)
    decreases |run|
  {
    if run != [] {
      DownClosedStep(w, o, run[0]);
      if StartRefused(w.subjects[run[0].i], run[0].op) {
        DownClosedExactlyWhen(Next(w, o, run[0]), o, run[1..]);
      }
    }
  }

  /** Over every monitor run a DOWN subject stays closed, with its route DOWN or VERIFYING. */
  lemma {:induction false} DownStaysClosed(w: World, o: Options, run: seq<Step>)
    requires OnSubjects(|w.subjects|, run) && MonitorRun(run)
    requires forall i :: 0 <= i < |w.subjects| ==> DownIsClosed(w.subjects[i])
    ensures forall i :: 0 <= i < |After(w, o, run).subjects| ==> DownIsClosed(After(w, o, run).subjects[i])
    decreases |run|
  {
    if run != [] {
      var t := run[0];
      ActKeepsDownClosed(w.subjects[t.i], ClashOf(w.subjects, t.i, t.op), o, t.op);
      DownStaysClosed(Next(w, o, t), o, run[1..]);
    }
  }

  // ---------------------------------------------------------------- the event log

  /** The kinds of one subject's events, in order. */
  function Of(log: seq<Event>, i: nat): seq<Kind> {
    if log == [] then []
    else
      var e := log[|log| - 1];
      Of(log[..|log| - 1], i) + if e.subject == i then [e.kind] else []
  }

  lemma OfNext(log: seq<Event>, e: Event, i: nat)
    ensures Of(log + [e], i) == Of(log, i) + if e.subject == i then [e.kind] else []
  {
    assert (log + [e])[..|log|] == log;
  }

  lemma TaggedNext(log: seq<Event>, j: nat, ks: seq<Kind>, k: Kind)
    ensures log + Tagged(j, ks + [k]) == (log + Tagged(j, ks)) + [Event(j, k)]
  {
  }

  lemma {:induction false} OfTagged(log: seq<Event>, j: nat, ks: seq<Kind>, i: nat)
    ensures Of(log + Tagged(j, ks), i) == Of(log, i) + if i == j then ks else []
    decreases |ks|
  {
    if ks == [] {
      assert log + Tagged(j, ks) == log;
    } else {
      var front, k := ks[..|ks| - 1], ks[|ks| - 1];
      assert ks == front + [k];
      OfTagged(log, j, front, i);
      TaggedNext(log, j, front, k);
      OfNext(log + Tagged(j, front), Event(j, k), i);
    }
  }

  predicate Mark(k: Kind) {
    k.Blocked? || k.Restored?
  }

  /** Whether the newest Blocked or Restored event is Blocked. */
  predicate BlockedNow(ks: seq<Kind>) {
    ks != [] && (if Mark(ks[|ks| - 1]) then ks[|ks| - 1].Blocked? else BlockedNow(ks[..|ks| - 1]))
  }

  /** Blocked and Restored take turns, Blocked first. */
  predicate Alternates(ks: seq<Kind>) {
    ks != [] ==>
      var front := ks[..|ks| - 1];
      && Alternates(front)
      && (ks[|ks| - 1].Blocked? ==> !BlockedNow(front))
      && (ks[|ks| - 1].Restored? ==> BlockedNow(front))
  }

  /** EgressChanged events since the last Restored. */
  function AlertsSinceRestore(ks: seq<Kind>): nat {
    if ks == [] || ks[|ks| - 1].Restored? then 0
    else AlertsSinceRestore(ks[..|ks| - 1]) + if ks[|ks| - 1].EgressChanged? then 1 else 0
  }

  /** At most one EgressChanged between two consecutive Restored events, at every point of the log. */
  predicate AlertsOnce(ks: seq<Kind>) {
    AlertsSinceRestore(ks) <= 1 && (ks != [] ==> AlertsOnce(ks[..|ks| - 1]))
  }

  /** The monitor's notes agree with what it has announced. */
  predicate Told(s: Subject, ks: seq<Kind>) {
    && Alternates(ks) && BlockedNow(ks) == s.down
    && AlertsOnce(ks) && AlertsSinceRestore(ks) == (if s.alerted then 1 else 0)
    && (s.alerted ==> s.down)
  }

  lemma Announce(ks: seq<Kind>, k: Kind)
    ensures BlockedNow(ks + [k]) == (if Mark(k) then k.Blocked? else BlockedNow(ks))
    ensures Alternates(ks + [k]) <==> Alternates(ks) && (k.Blocked? ==> !BlockedNow(ks)) && (k.Restored? ==> BlockedNow(ks))
    ensures AlertsSinceRestore(ks + [k]) == (if k.Restored? then 0 else AlertsSinceRestore(ks) + if k.EgressChanged? then 1 else 0)
    ensures AlertsOnce(ks + [k]) <==> AlertsSinceRestore(ks + [k]) <= 1 && AlertsOnce(ks)
  {
    assert (ks + [k])[..|ks|] == ks;
  }

  lemma ToldBlocked(s: Subject, t: Subject, ks: seq<Kind>)
    requires Told(s, ks) && t.down && t.alerted == s.alerted
    ensures Told(t, ks + if s.down then [] else [Blocked])
  {
    if s.down {
      assert ks + [] == ks;
    } else {
      Announce(ks, Blocked);
    }
  }

  /** Events that are neither marks nor alerts change nothing. */
  lemma ToldAside(s: Subject, ks: seq<Kind>, k: Kind)
    requires Told(s, ks) && !Mark(k) && !k.EgressChanged?
    ensures Told(s, ks + [k])
  {
    Announce(ks, k);
  }

  /** A failed probe announces the outage once, and possibly a failed re-establishment. */
  lemma ToldFailed(s: Subject, t: Subject, ks: seq<Kind>, kinds: seq<Kind>)
    requires Told(s, ks) && t.down && t.alerted == s.alerted
    requires var first := if s.down then [] else [Blocked]; kinds == first || kinds == first + [ReprovisionFailed]
    ensures Told(t, ks + kinds)
  {
    var first := if s.down then [] else [Blocked];
    ToldBlocked(s, t, ks);
    if kinds != first {
      ToldAside(t, ks + first, ReprovisionFailed);
      assert ks + kinds == (ks + first) + [ReprovisionFailed];
    }
  }

  lemma ToldFail(s: Subject, ks: seq<Kind>, clash: bool, o: Options, now: nat, x: Attempt)
    requires Told(s, ks)
    ensures var e := MaybeReestablish(MarkDown(s, now), clash, o, now, x);
            Told(e.s, ks + e.kinds)
  {
    var e := MaybeReestablish(MarkDown(s, now), clash, o, now, x);
    FailShape(s, clash, o, now, x);
    ToldFailed(s, e.s, ks, e.kinds);
  }

  lemma ToldChanged(s: Subject, t: Subject, ks: seq<Kind>)
    requires Told(s, ks) && t.down && t.alerted
    ensures Told(t, ks + ((if s.down then [] else [Blocked]) + (if s.alerted then [] else [EgressChanged])))
  {
    if s.alerted {
      assert ks + ([] + []) == ks;
    } else if s.down {
      Announce(ks, EgressChanged);
      assert [] + [EgressChanged] == [EgressChanged];
    } else {
      Announce(ks, Blocked);
      Announce(ks + [Blocked], EgressChanged);
      assert ks + ([Blocked] + [EgressChanged]) == ks + [Blocked] + [EgressChanged];
    }
  }

  lemma ToldAnswered(s: Subject, ks: seq<Kind>, o: Options, p: ProbeInput)
    requires Told(s, ks)
    ensures Told(ProbeAnswered(s, o, p).s, ks + ProbeAnswered(s, o, p).kinds)
  {
    var e := ProbeAnswered(s, o, p);
    if Due(s, o, p) && p.read.Address? && s.routeIP.Some? && p.read.ip != s.routeIP.value {
      ToldChanged(s, e.s, ks);
    } else {
      Announce(ks, Restored);
      assert ks + [] == ks;
    }
  }

  /** Steps that neither mark nor alert. */
  lemma ToldSame(s: Subject, t: Subject, ks: seq<Kind>)
    requires Told(s, ks) && t.down == s.down && t.alerted == s.alerted
    ensures Told(t, ks + [])
  {
    assert ks + [] == ks;
  }

  lemma ToldProbe(s: Subject, ks: seq<Kind>, clash: bool, o: Options, p: ProbeInput)
    requires Told(s, ks)
    ensures Told(Probe(s, clash, o, p).s, ks + Probe(s, clash, o, p).kinds)
  {
    var failed, base, at := ProbeCases(s, clash, o, p);
    if failed {
      ToldFail(base, ks, clash, o, at, p.attempt);
    } else {
      ToldAnswered(s, ks, o, p);
    }
  }

  lemma ToldAfter(s: Subject, ks: seq<Kind>, clash: bool, o: Options, op: Op)
    requires Told(s, ks)
    ensures Told(Act(s, clash, o, op).s, ks + Act(s, clash, o, op).kinds)
  {
    var t := Act(s, clash, o, op).s;
    match op
    case ProbeOp(p) => ToldProbe(s, ks, clash, o, p);
    case BrowserExit => ToldAside(t, ks, BrowserExited);
    case LeakSeen => ToldAside(t, ks, Leak);
    case ReestablishOp(x) => ToldSame(s, t, ks);
    case StopOp => ToldSame(s, t, ks);
    case StartOp(read) => ToldSame(s, t, ks);
  }

  ghost predicate AllTold(w: World) {
    forall i :: 0 <= i < |w.subjects| ==> Told(w.subjects[i], Of(w.log, i))
  }

  /**
   Over every run, route.start included: blocked and restored announcements strictly alternate
   per subject, and a changed address is announced at most once per outage.
   */
  lemma {:induction false} AnnouncementsAlternate(w: World, o: Options, run: seq<Step>)
    requires AllTold(w) && OnSubjects(|w.subjects|, run)
    ensures AllTold(After(w, o, run))
    decreases |run|
  {
    if run != [] {
      var t := run[0];
      var s, clash := w.subjects[t.i], ClashOf(w.subjects, t.i, t.op);
      forall i | 0 <= i < |w.subjects|
        ensures Told(Next(w, o, t).subjects[i], Of(Next(w, o, t).log, i))
      {
        OfTagged(w.log, t.i, Act(s, clash, o, t.op).kinds, i);
        if i == t.i {
          ToldAfter(s, Of(w.log, i), clash, o, t.op);
        } else {
          assert Of(w.log, i) + [] == Of(w.log, i);
        }
      }
      AnnouncementsAlternate(Next(w, o, t), o, run[1..]);
    }
  }

  /** What alternation means without the recursion: between two equal marks lies the other one. */
  lemma {:induction false} AlternationMeans(ks: seq<Kind>, a: nat, b: nat)
    requires Alternates(ks) && a < b < |ks| && Mark(ks[a]) && ks[a] == ks[b]
    ensures exists c :: a < c < b && Mark(ks[c]) && ks[c] != ks[a]
    decreases |ks|
  {
    var n := |ks| - 1;
    if b < n {
      AlternationMeans(ks[..n], a, b);
      var c :| a < c < b && Mark(ks[..n][c]) && ks[..n][c] != ks[a];
      assert ks[c] == ks[..n][c];
    } else {
      LastMark(ks[..n], a);
      var c :| a <= c < n && Mark(ks[..n][c]) && BlockedNow(ks[..n]) == ks[..n][c].Blocked?;
      assert ks[c] == ks[..n][c];
    }
  }

  /** What AlertsOnce means without the recursion: between two EgressChanged events lies a Restored. */
  lemma {:induction false} AlertsOnceMeans(ks: seq<Kind>, a: nat, b: nat)
    requires AlertsOnce(ks) && a < b < |ks| && ks[a].EgressChanged? && ks[b].EgressChanged?
    ensures exists c :: a < c < b && ks[c].Restored?
    decreases |ks|
  {
    var n := |ks| - 1;
    if b < n {
      AlertsOnceMeans(ks[..n], a, b);
      var c :| a < c < b && ks[..n][c].Restored?;
      assert ks[c].Restored?;
    } else {
      AlertCounted(ks[..n], a);
    }
  }

  /** An alert that no Restored follows is counted. */
  lemma {:induction false} AlertCounted(ks: seq<Kind>, a: nat)
    requires a < |ks| && ks[a].EgressChanged?
    ensures AlertsSinceRestore(ks) >= 1 || exists c :: a < c < |ks| && ks[c].Restored?
    decreases |ks|
  {
    var n := |ks| - 1;
    if a < n && !ks[n].Restored? {
      AlertCounted(ks[..n], a);
      if c :| a < c < n && ks[..n][c].Restored? {
        assert ks[c].Restored?;
      }
    }
  }

  lemma {:induction false} LastMark(ks: seq<Kind>, a: nat)
    requires a < |ks| && Mark(ks[a])
    ensures exists c :: a <= c < |ks| && Mark(ks[c]) && BlockedNow(ks) == ks[c].Blocked?
    decreases |ks|
  {
    var n := |ks| - 1;
    if !Mark(ks[n]) {
      LastMark(ks[..n], a);
      var c :| a <= c < n && Mark(ks[..n][c]) && BlockedNow(ks[..n]) == ks[..n][c].Blocked?;
      assert ks[c] == ks[..n][c];
    }
  }

  // ---------------------------------------------------------------- the whole session

  lemma MonitorStart(ss: seq<Subject>, host: Option<IP>)
    requires ReadyState(ss, host)
    ensures ReadyState(Unnoted(ss), host) && AllTold(World(Unnoted(ss), []))
    ensures SamePins(ss, Unnoted(ss)) && forall i :: 0 <= i < |ss| ==> DownIsClosed(Unnoted(ss)[i])
  {
    forall i | 0 <= i < |ss|
      ensures Told(Unnoted(ss)[i], Of([], i))
    {
      assert Of([], i) == [];
    }
  }

  /** Everything above, for a monitor started on the subjects that start-up reported READY. */
  lemma ReadySession(ss: seq<Subject>, host: Option<IP>, o: Options, run: seq<Step>)
    requires ReadyState(ss, host) && OnSubjects(|ss|, run)
    ensures var w0 := World(Unnoted(ss), []);
            var w := After(w0, o, run);
            && SamePins(ss, w.subjects) && Separated(w.subjects) && NotHost(w.subjects, host) && RoutesAgree(w.subjects)
            && (AlwaysSafe(w0, o, run) <==> StartsFit(w0, o, run))
            && (MonitorRun(run) ==> AlwaysSafe(w0, o, run) && forall i :: 0 <= i < |w.subjects| ==> DownIsClosed(w.subjects[i]))
            && AllTold(w)
  {
    var w0 := World(Unnoted(ss), []);
    MonitorStart(ss, host);
    ReadyStaysSafe(w0, host, o, run);
    AnnouncementsAlternate(w0, o, run);
    if MonitorRun(run) {
      MonitorRunFits(w0, o, run);
      DownStaysClosed(w0, o, run);
    }
  }

  // ---------------------------------------------------------------- two runs that show the limits

  /** On a READY subject a failing route.start leaves the gate open on a DOWN route. */
  lemma StartOnOpenGateFails(ss: seq<Subject>, host: Option<IP>, o: Options, i: nat)
    requires ReadyState(ss, host) && i < |ss|
    ensures var s := Next(World(Unnoted(ss), []), o, Step(i, StartOp(NoAnswer))).subjects[i];
            s.gateOpen && s.status.Down? && !OpenIsVerified(s)
  {
  }

  /** A subject that a probe found unreachable is reopened by route.start and stays noted as Down. */
  lemma StartReopensDownSubject(ss: seq<Subject>, host: Option<IP>, o: Options, i: nat, now: nat)
    returns (run: seq<Step>, w: World)
    requires ReadyState(ss, host) && i < |ss|
    ensures OnSubjects(|ss|, run) && StartsFit(World(Unnoted(ss), []), o, run) && After(World(Unnoted(ss), []), o, run) == w
    ensures |w.subjects| == |ss| && w.subjects[i].down && w.subjects[i].gateOpen && !DownIsClosed(w.subjects[i])
  {
    var probe := Step(i, ProbeOp(ProbeInput(now, false, NoAnswer, now, Attempt(false, false, NoAnswer, 0))));
    var start := Step(i, StartOp(Address(ss[i].routeIP.value)));
    var w0 := World(Unnoted(ss), []);
    var w1 := Next(w0, o, probe);
    assert w1.subjects[i].down && !w1.subjects[i].gateOpen && w1.subjects[i].routeIP == ss[i].routeIP;
    w := Next(w1, o, start);
    run := [probe, start];
    assert [start][1..] == [] && run[1..] == [start];
    assert StartsFit(w, o, []) && After(w, o, []) == w;
    assert StartsFit(w1, o, [start]) && After(w1, o, [start]) == w;
  }
}
