/**
 The fail-closed claim under concurrency. The acceptor, one handler per connection, and any
 number of concurrent Gate.Open, Gate.Close, Gate.SetRoute and Gate.Shutdown calls interleave
 in atomic steps (routing/provider/gate.go:89-129, routing/socks5/server.go:77-210).

 Gate.Close is three kinds of step: clear the flag, snapshot the table, close one connection of
 the snapshot. A handler consults the flag once, before it dials; a connection leaves the table
 in one step and its socket is closed in a later one. The pipe (server.go:309-324) is two copiers
 that each read a chunk in one step and write it in another; closing a connection closes the
 client's socket and leaves the upstream open until both copiers have ended.
 */
module GateServer {
  import opened BoundedLog
  import opened Common
  import Gate

  type ConnId = nat
  type RouteId = nat
  type CallId = nat

  /** Where a connection's handler stands. */
  datatype Phase =
    | Handshaking
    | Requested                // CONNECT parsed, Refuse not yet consulted
    | Dialing                  // Refuse answered false
    | DialingOn(route: RouteId)
    | Connected(route: RouteId)
    | Recorded(route: RouteId) // success recorded, reply not yet sent
    | Piping(route: RouteId)
    | Failing(code: nat)       // refused, or the dial failed; not yet recorded
    | Denied                   // failure recorded, reply not yet sent
    | Returned                 // handler returned, untrack not yet run
    | Untracked                // out of the table, socket not yet closed
    | Gone

  /** One of the two copiers of a pipe. */
  datatype Copier = Idle | Carrying | Ended

  /** `up` copies from the client to the upstream, `down` back. */
  datatype Conn = Conn(phase: Phase, live: bool, up: Copier, down: Copier)

  datatype HandlerStep =
    | ParseRequest
    | RejectCommand
    | ConsultFlag
    | ReadRoute
    | DialOk
    | DialErr(code: nat)
    | RecordResult
    | ReplySuccess
    | ReadUp
    | WriteUp
    | EndUp
    | ReadDown
    | WriteDown
    | EndDown
    | Return
    | Untrack
    | CloseSelf

  predicate CanStep(x: Conn, h: HandlerStep) {
    var p := x.phase;
    match h
    case ParseRequest => p.Handshaking?
    case RejectCommand => p.Handshaking?
    case ConsultFlag => p.Requested?
    case ReadRoute => p.Dialing?
    case DialOk => p.DialingOn?
    case DialErr(code) => p.DialingOn? && code != REP_SUCCESS
    case RecordResult => p.Connected? || p.Failing?
    case ReplySuccess => p.Recorded? && x.live
    case ReadUp => p.Piping? && x.up.Idle? && x.live
    case WriteUp => p.Piping? && x.up.Carrying?
    case EndUp => p.Piping? && !x.up.Ended?
    case ReadDown => p.Piping? && x.down.Idle?
    case WriteDown => p.Piping? && x.down.Carrying? && x.live
    case EndDown => p.Piping? && !x.down.Ended?
    case Return => p.Handshaking? || p.Denied? || p.Recorded? || (p.Piping? && x.up.Ended? && x.down.Ended?)
    case Untrack => p.Returned?
    case CloseSelf => p.Untracked?
  }

  function NextPhase(p: Phase, h: HandlerStep, open: bool, route: RouteId): Phase {
    match h
    case ParseRequest => Requested
    case RejectCommand => Failing(REP_COMMAND_NOT_SUPPORTED)
    case ConsultFlag => if open then Dialing else Failing(REP_GENERAL_FAILURE)
    case ReadRoute => DialingOn(route)
    case DialOk => if p.DialingOn? then Connected(p.route) else p
    case DialErr(code) => Failing(code)
    case RecordResult => if p.Connected? then Recorded(p.route) else Denied
    case ReplySuccess => if p.Recorded? then Piping(p.route) else p
    case Return => Returned
    case Untrack => Untracked
    case CloseSelf => Gone
    case _ => p
  }

  function NextUp(u: Copier, h: HandlerStep): Copier {
    if h.ReadUp? then Carrying else if h.WriteUp? then Idle else if h.EndUp? then Ended else u
  }

  function NextDown(d: Copier, h: HandlerStep): Copier {
    if h.ReadDown? then Carrying else if h.WriteDown? then Idle else if h.EndDown? then Ended else d
  }

  function NextConn(x: Conn, h: HandlerStep, open: bool, route: RouteId): Conn {
    Conn(NextPhase(x.phase, h, open, route), x.live && !h.CloseSelf?, NextUp(x.up, h), NextDown(x.down, h))
  }

  /** The result a step records, if it records one. */
  function Logged(c: ConnId, p: Phase, h: HandlerStep): seq<(ConnId, nat)> {
    if !h.RecordResult? then []
    else if p.Failing? then [(c, p.code)]
    else [(c, REP_SUCCESS)]
  }

  datatype Acceptor = Accepting | Holding(c: ConnId) | Rejecting(c: ConnId) | Exited

  datatype AcceptorStep = Accept(c: ConnId) | AcceptFail | Track | RejectClose

  /** Where a Gate.Close or Gate.Shutdown call stands. */
  datatype Stage =
    | Cleared
    | Marked                        // Shutdown only: closed = true
    | Unlistened                    // Shutdown only: listener closed
    | Closing(pending: set<ConnId>)
    | Waiting                       // Shutdown only: waits for acceptor and handlers
    | Finished
    | Skipped                       // Shutdown found the server already closed

  /** `unopened`: no Open has happened since this call cleared the flag. */
  datatype Closer = Closer(shutdown: bool, unopened: bool, stage: Stage)

  datatype CloserStep = MarkClosed | CloseListener | Snapshot | CloseOne(c: ConnId) | Finish

  datatype State = State(
    open: bool,
    everOpen: bool,              // some Open has happened
    route: RouteId,
    closed: bool,
    lnClosed: bool,
    acceptor: Acceptor,
    conns: map<ConnId, Conn>,
    tracked: set<ConnId>,
    closers: map<CallId, Closer>,
    log: seq<(ConnId, nat)>,   // CONNECT results, in recording order
    told: set<ConnId>,         // clients that were sent a success reply
    uploaded: nat,             // chunks written to an upstream
    delivered: nat             // chunks written to a client
  )

  datatype Step =
    | Open
    | SetRoute(r: RouteId)
    | ClearFlag(k: CallId, shutdown: bool)
    | Acceptor(a: AcceptorStep)
    | Handler(c: ConnId, h: HandlerStep)
    | Call(k: CallId, g: CloserStep)

  predicate Enabled(s: State, t: Step) {
    match t
    case Open => true
    case SetRoute(_) => true
    case ClearFlag(k, _) => k !in s.closers
    case Acceptor(Accept(c)) => s.acceptor.Accepting? && !s.lnClosed && c !in s.conns
    case Acceptor(AcceptFail) => s.acceptor.Accepting?
    case Acceptor(Track) => s.acceptor.Holding?
    case Acceptor(RejectClose) => s.acceptor.Rejecting?
    case Handler(c, h) => c in s.conns && CanStep(s.conns[c], h)
    case Call(k, g) => k in s.closers && CanMove(s, s.closers[k], g)
  }

  predicate CanMove(s: State, x: Closer, g: CloserStep) {
    match g
    case MarkClosed => x.stage.Cleared? && x.shutdown
    case CloseListener => x.stage.Marked?
    case Snapshot => (x.stage.Cleared? && !x.shutdown) || x.stage.Unlistened?
    case CloseOne(c) => x.stage.Closing? && c in x.stage.pending
    case Finish =>
      || (x.stage.Closing? && x.stage.pending == {})
      || (x.stage.Waiting? && s.acceptor.Exited? && forall c :: c in s.conns ==> s.conns[c].phase.Gone?)
  }

  function NextStage(s: State, x: Closer, g: CloserStep): Stage {
    match g
    case MarkClosed => if s.closed then Skipped else Marked
    case CloseListener => Unlistened
    case Snapshot => Closing(s.tracked)
    case CloseOne(c) => if x.stage.Closing? then Closing(x.stage.pending - {c}) else x.stage
    case Finish => if x.stage.Closing? && x.shutdown then Waiting else Finished
  }

  function Shut(conns: map<ConnId, Conn>, c: ConnId): map<ConnId, Conn> {
    if c in conns then conns[c := conns[c].(live := false)] else conns
  }

  function Apply(s: State, t: Step): State
    requires Enabled(s, t)
  {
    match t
    case Open => s.(open := true, everOpen := true, closers := map k | k in s.closers :: s.closers[k].(unopened := false))
    case SetRoute(r) => s.(route := r)
    case ClearFlag(k, shutdown) => s.(open := false, closers := s.closers[k := Closer(shutdown, true, Cleared)])
    case Acceptor(Accept(c)) => s.(acceptor := Holding(c))
    case Acceptor(AcceptFail) => s.(acceptor := Exited)
    case Acceptor(Track) =>
      if s.closed then s.(acceptor := Rejecting(s.acceptor.c))
      else s.(acceptor := Accepting,
              conns := s.conns[s.acceptor.c := Conn(Handshaking, true, Idle, Idle)],
              tracked := s.tracked + {s.acceptor.c})
    case Acceptor(RejectClose) => s.(acceptor := Exited)
    case Handler(c, h) =>
      var x := s.conns[c];
      s.(conns := s.conns[c := NextConn(x, h, s.open, s.route)],
         tracked := if h.Untrack? then s.tracked - {c} else s.tracked,
         log := s.log + Logged(c, x.phase, h),
         told := if h.ReplySuccess? then s.told + {c} else s.told,
         uploaded := s.uploaded + if h.WriteUp? then 1 else 0,
         delivered := s.delivered + if h.WriteDown? then 1 else 0)
    case Call(k, g) =>
      var x := s.closers[k];
      s.(closers := s.closers[k := x.(stage := NextStage(s, x, g))],
         closed := s.closed || g.MarkClosed?,
         lnClosed := s.lnClosed || g.CloseListener?,
         conns := if g.CloseOne? then Shut(s.conns, g.c) else s.conns)
  }

  function Init(route: RouteId): State {
    State(false, false, route, false, false, Accepting, map[], {}, map[], [], {}, 0, 0)
  }

  /** A schedule: every step is enabled when its turn comes. */
  predicate Schedule(s: State, run: seq<Step>)
    decreases |run|
  {
    run != [] ==> Enabled(s, run[0]) && Schedule(Apply(s, run[0]), run[1..])
  }

  function After(s: State, run: seq<Step>): State
    requires Schedule(s, run)
    decreases |run|
  {
    if run == [] then s else After(Apply(s, run[0]), run[1..])
  }

  // ---------------------------------------------------------------- invariant

  predicate PastRefuse(p: Phase) {
    p.Dialing? || OnRoute(p)
  }

  predicate OnRoute(p: Phase) {
    p.DialingOn? || p.Connected? || p.Recorded? || p.Piping?
  }

  predicate InTable(p: Phase) {
    !p.Untracked? && !p.Gone?
  }

  ghost predicate NoLivePastRefuse(s: State) {
    forall c :: c in s.conns && PastRefuse(s.conns[c].phase) ==> !s.conns[c].live
  }

  /** What a Close or Shutdown call has achieved so far, as long as no Open intervened. */
  ghost predicate CloserInv(s: State, x: Closer) {
    && (x.unopened ==> !s.open)
    && (x.unopened && x.stage.Closing? ==>
          forall c :: c in s.conns && PastRefuse(s.conns[c].phase) && s.conns[c].live ==> c in x.stage.pending)
    && (x.unopened && (x.stage.Waiting? || x.stage.Finished?) ==> NoLivePastRefuse(s))
    && (x.shutdown && x.stage.Finished? ==>
          s.acceptor.Exited? && forall c :: c in s.conns ==> s.conns[c].phase.Gone?)
    && (x.stage.Waiting? ==> x.shutdown)
  }

  ghost predicate TableInv(s: State) {
    && (forall c :: c in s.tracked <==> c in s.conns && InTable(s.conns[c].phase))
    && (forall c :: c in s.conns && s.conns[c].phase.Gone? ==> !s.conns[c].live)
    && (forall c :: c in s.conns && s.conns[c].phase.Failing? ==> s.conns[c].phase.code != REP_SUCCESS)
    && (s.acceptor.Holding? ==> s.acceptor.c !in s.conns)
  }

  /** The success of a connection is recorded before its client can learn of it. */
  ghost predicate LogInv(s: State) {
    && (forall c :: c in s.conns && s.conns[c].phase.Recorded? ==> (c, REP_SUCCESS) in s.log)
    && (forall c :: c in s.told ==> (c, REP_SUCCESS) in s.log)
  }

  /** Before the first Open nobody gets past Refuse. */
  ghost predicate NeverOpenInv(s: State) {
    !s.everOpen ==> !s.open && forall c :: c in s.conns ==> !PastRefuse(s.conns[c].phase)
  }

  ghost predicate Inv(s: State) {
    && TableInv(s)
    && LogInv(s)
    && NeverOpenInv(s)
    && forall k :: k in s.closers ==> CloserInv(s, s.closers[k])
  }

  /** Refuse is passed only while the gate is open. */
  lemma PassStep(x: Conn, h: HandlerStep, open: bool, route: RouteId)
    requires CanStep(x, h) && PastRefuse(NextPhase(x.phase, h, open, route))
    ensures PastRefuse(x.phase) || open
  {
  }

  /** One connection across one step: no socket comes back, and a finished handler stays finished. */
  lemma ConnStep(s: State, t: Step, c: ConnId)
    requires TableInv(s) && Enabled(s, t) && c in Apply(s, t).conns
    ensures var x' := Apply(s, t).conns[c];
            if c in s.conns then
              && (x'.live ==> s.conns[c].live)
              && (s.conns[c].phase.Gone? ==> x'.phase.Gone?)
              && (PastRefuse(x'.phase) ==> PastRefuse(s.conns[c].phase) || s.open)
            else
              x'.phase.Handshaking? && !s.acceptor.Exited?
  {
    if t.Handler? && t.c == c && PastRefuse(Apply(s, t).conns[c].phase) {
      PassStep(s.conns[c], t.h, s.open, s.route);
    }
  }

  lemma TableStep(s: State, t: Step)
    requires TableInv(s) && Enabled(s, t)
    ensures TableInv(Apply(s, t))
  {
    var s' := Apply(s, t);
    forall c
      ensures c in s'.tracked <==> c in s'.conns && InTable(s'.conns[c].phase)
      ensures c in s'.conns && s'.conns[c].phase.Gone? ==> !s'.conns[c].live
      ensures c in s'.conns && s'.conns[c].phase.Failing? ==> s'.conns[c].phase.code != REP_SUCCESS
    {
      assert c in s.tracked <==> c in s.conns && InTable(s.conns[c].phase);
    }
  }

  lemma LogStep(s: State, t: Step)
    requires LogInv(s) && Enabled(s, t)
    ensures LogInv(Apply(s, t))
  {
    var s' := Apply(s, t);
    forall c | c in s'.conns && s'.conns[c].phase.Recorded?
      ensures (c, REP_SUCCESS) in s'.log
    {
      if c in s.conns && s.conns[c].phase.Recorded? {
        assert (c, REP_SUCCESS) in s.log;
      } else {
        assert s'.log == s.log + [(c, REP_SUCCESS)];
      }
    }
    forall c | c in s'.told
      ensures (c, REP_SUCCESS) in s'.log
    {
      assert c in s.told || (c in s.conns && s.conns[c].phase.Recorded?);
    }
  }

  lemma NeverOpenStep(s: State, t: Step)
    requires TableInv(s) && NeverOpenInv(s) && Enabled(s, t)
    ensures NeverOpenInv(Apply(s, t))
  {
    var s' := Apply(s, t);
    if !s'.everOpen {
      forall c | c in s'.conns
        ensures !PastRefuse(s'.conns[c].phase)
      {
        ConnStep(s, t, c);
      }
    }
  }

  /** The promises of a call that does not move itself. */
  lemma BystanderKept(s: State, t: Step, x: Closer)
    requires TableInv(s) && Enabled(s, t) && CloserInv(s, x)
    requires t.Open? ==> !x.unopened
    ensures CloserInv(Apply(s, t), x)
  {
    var s' := Apply(s, t);
    forall c | c in s'.conns
      ensures PastRefuse(s'.conns[c].phase) && s'.conns[c].live && !s.open ==>
                c in s.conns && PastRefuse(s.conns[c].phase) && s.conns[c].live
      ensures x.shutdown && x.stage.Finished? ==> s'.conns[c].phase.Gone?
    {
      ConnStep(s, t, c);
    }
  }

  /** The promises of the call that moves: the snapshot misses nobody who got past Refuse. */
  lemma ActorKept(s: State, k: CallId, g: CloserStep)
    requires TableInv(s) && Enabled(s, Call(k, g)) && CloserInv(s, s.closers[k])
    ensures CloserInv(Apply(s, Call(k, g)), Apply(s, Call(k, g)).closers[k])
  {
    var s' := Apply(s, Call(k, g));
    forall c | c in s'.conns
      ensures c in s.conns && s'.conns[c].phase == s.conns[c].phase
      ensures s'.conns[c].live ==> s.conns[c].live && g != CloseOne(c)
      ensures PastRefuse(s.conns[c].phase) ==> c in s.tracked
    {
    }
  }

  lemma InvStep(s: State, t: Step)
    requires Inv(s) && Enabled(s, t)
    ensures Inv(Apply(s, t))
  {
    var s' := Apply(s, t);
    TableStep(s, t);
    LogStep(s, t);
    NeverOpenStep(s, t);
    forall k | k in s'.closers
      ensures CloserInv(s', s'.closers[k])
    {
      if k !in s.closers {
      } else if t.Call? && t.k == k {
        ActorKept(s, k, t.g);
      } else {
        BystanderKept(s, t, if t.Open? then s'.closers[k] else s.closers[k]);
      }
    }
  }

  lemma {:induction false} InvRun(s: State, run: seq<Step>)
    requires Inv(s) && Schedule(s, run)
    ensures Inv(After(s, run))
    decreases |run|
  {
    if run != [] {
      InvStep(s, run[0]);
      InvRun(Apply(s, run[0]), run[1..]);
    }
  }

  // ---------------------------------------------------------------- fail closed

  /** Some Close or Shutdown call has returned and no Open has happened since it cleared the flag. */
  ghost predicate ClosedByCall(s: State, k: CallId) {
    k in s.closers && s.closers[k].unopened && s.closers[k].stage.Finished?
  }

  /** The gate refuses, and no connection that got past Refuse has a live client socket. */
  ghost predicate Quiet(s: State) {
    !s.open && NoLivePastRefuse(s)
  }

  /** Under every interleaving from start-up: a returned Close leaves the gate quiet. */
  lemma CloseLeavesQuiet(route: RouteId, run: seq<Step>, k: CallId)
    requires Schedule(Init(route), run) && ClosedByCall(After(Init(route), run), k)
    ensures Quiet(After(Init(route), run))
  {
    InvRun(Init(route), run);
    var s := After(Init(route), run);
    assert CloserInv(s, s.closers[k]);
  }

  /** What a step of a quiet gate cannot do: let anybody in, take from a client, or give to one. */
  lemma QuietStep(s: State, t: Step)
    requires TableInv(s) && Quiet(s) && Enabled(s, t) && !t.Open?
    ensures Quiet(Apply(s, t))
    ensures t.Handler? ==> !t.h.ReplySuccess? && !t.h.ReadUp? && !t.h.WriteDown?
    ensures forall c :: Admitted(Apply(s, t), c) ==> Admitted(s, c)
    ensures Fresh(s, Apply(s, t).log[|s.log|..])
  {
    var s' := Apply(s, t);
    forall c | Admitted(s', c)
      ensures Admitted(s, c) && !s'.conns[c].live
    {
      ConnStep(s, t, c);
    }
  }

  /** The connection has passed its Refuse check. */
  ghost predicate Admitted(s: State, c: ConnId) {
    c in s.conns && PastRefuse(s.conns[c].phase)
  }

  /** Successes among the results recorded since `s` belong to connections admitted in `s`. */
  ghost predicate Fresh(s: State, results: seq<(ConnId, nat)>) {
    forall i :: 0 <= i < |results| && results[i].1 == REP_SUCCESS ==> Admitted(s, results[i].0)
  }

  // ---------------------------------------------------------------- chunks in flight

  /** Connections whose upload copier has read a chunk and not yet written it. */
  ghost function InFlight(s: State): set<ConnId> {
    set c | c in s.conns && Carries(s.conns[c])
  }

  predicate Carries(x: Conn) {
    x.phase.Piping? && x.up.Carrying?
  }

  /** In a quiet gate a chunk in flight is written or dropped, and none is taken up. */
  lemma InFlightStep(s: State, t: Step)
    requires TableInv(s) && Quiet(s) && Enabled(s, t) && !t.Open?
    ensures InFlight(Apply(s, t)) <= InFlight(s)
    ensures t.Handler? && t.h.WriteUp? ==> t.c in InFlight(s) && t.c !in InFlight(Apply(s, t))
    ensures Apply(s, t).uploaded == s.uploaded + if t.Handler? && t.h.WriteUp? then 1 else 0
    ensures Apply(s, t).delivered == s.delivered && Apply(s, t).told == s.told
  {
    QuietStep(s, t);
    var s' := Apply(s, t);
    forall c | c in s'.conns && Carries(s'.conns[c])
      ensures c in s.conns && Carries(s.conns[c])
    {
      CarriesStep(s, t, c);
    }
  }

  lemma CarriesStep(s: State, t: Step, c: ConnId)
    requires TableInv(s) && Quiet(s) && Enabled(s, t) && !t.Open?
    requires c in Apply(s, t).conns && Carries(Apply(s, t).conns[c])
    ensures c in s.conns && Carries(s.conns[c])
  {
    QuietStep(s, t);
    ConnStep(s, t, c);
    assert Admitted(Apply(s, t), c);
  }

  /** Chunks that connection `c` writes upstream during a run. */
  function Uploads(run: seq<Step>, c: ConnId): nat {
    if run == [] then 0 else Uploads(run[1..], c) + if run[0] == Handler(c, WriteUp) then 1 else 0
  }

  /**
   Until the next Open the gate stays quiet, nobody new is admitted, and nothing is read from a
   client or written to one; what still goes upstream are the chunks already in flight.
   */
  ghost predicate Drains(s: State, s': State) {
    && Quiet(s')
    && (forall c :: Admitted(s', c) ==> Admitted(s, c))
    && s'.delivered == s.delivered && s'.told == s.told
    && InFlight(s') <= InFlight(s)
    && s'.uploaded + |InFlight(s')| <= s.uploaded + |InFlight(s)|
    && s.log <= s'.log && Fresh(s, s'.log[|s.log|..])
  }

  lemma DrainsStep(s: State, t: Step)
    requires TableInv(s) && Quiet(s) && Enabled(s, t) && !t.Open?
    ensures Drains(s, Apply(s, t))
  {
    QuietStep(s, t);
    InFlightStep(s, t);
    SubsetSize(InFlight(Apply(s, t)), InFlight(s));
  }

  lemma DrainsOn(s: State, m: State, s': State)
    requires Drains(s, m) && Drains(m, s')
    ensures Drains(s, s')
  {
    var all := s'.log[|s.log|..];
    forall i | 0 <= i < |all| && all[i].1 == REP_SUCCESS
      ensures Admitted(s, all[i].0)
    {
      var k := |s.log| + i;
      assert all[i] == s'.log[k];
      if k < |m.log| {
        assert m.log[|s.log|..][i] == all[i];
      } else {
        assert s'.log[|m.log|..][k - |m.log|] == all[i];
      }
    }
  }

  lemma {:induction false} QuietUntilOpen(s: State, run: seq<Step>)
    requires TableInv(s) && Quiet(s) && Schedule(s, run) && Open !in run
    ensures Drains(s, After(s, run))
    decreases |run|
  {
    if run != [] {
      var t, rest := run[0], run[1..];
      assert t in run && forall u :: u in rest ==> u in run;
      TableStep(s, t);
      DrainsStep(s, t);
      QuietUntilOpen(Apply(s, t), rest);
      DrainsOn(s, Apply(s, t), After(s, run));
    }
  }

  /** Each connection writes at most the one chunk it had in flight. */
  lemma {:induction false} OneChunkEach(s: State, run: seq<Step>, c: ConnId)
    requires TableInv(s) && Quiet(s) && Schedule(s, run) && Open !in run
    ensures Uploads(run, c) <= if c in InFlight(s) then 1 else 0
    decreases |run|
  {
    if run != [] {
      var t, rest := run[0], run[1..];
      assert t in run && forall u :: u in rest ==> u in run;
      TableStep(s, t);
      QuietStep(s, t);
      InFlightStep(s, t);
      OneChunkEach(Apply(s, t), rest, c);
    }
  }

  /** No step of the run reads from a client, writes to one, or tells one of success. */
  lemma {:induction false} ClientsAreCutOff(s: State, run: seq<Step>, i: nat)
    requires TableInv(s) && Quiet(s) && Schedule(s, run) && Open !in run && i < |run| && run[i].Handler?
    ensures !run[i].h.ReadUp? && !run[i].h.WriteDown? && !run[i].h.ReplySuccess?
    decreases |run|
  {
    var t, rest := run[0], run[1..];
    assert t in run && forall u :: u in rest ==> u in run;
    TableStep(s, t);
    QuietStep(s, t);
    if i > 0 {
      ClientsAreCutOff(Apply(s, t), rest, i - 1);
    }
  }

  /**
   The whole claim in one statement. Split any schedule where a Close has returned with no Open
   since it cleared the flag. Whatever runs next without an Open: the gate stays quiet; whoever
   is past Refuse was already, so later accepts are refused; no step reads from a client, writes
   to one or tells one of success; and each connection sends upstream at most the one chunk it
   was carrying at that moment.
   */
  lemma FailClosed(route: RouteId, before: seq<Step>, after: seq<Step>, k: CallId)
    requires Schedule(Init(route), before) && ClosedByCall(After(Init(route), before), k)
    requires Schedule(After(Init(route), before), after) && Open !in after
    ensures var s := After(Init(route), before);
            && Drains(s, After(s, after))
            && After(s, after).uploaded <= s.uploaded + |InFlight(s)|
            && (forall c :: Uploads(after, c) <= if c in InFlight(s) then 1 else 0)
            && (forall i :: 0 <= i < |after| && after[i].Handler? ==>
                  !after[i].h.ReadUp? && !after[i].h.WriteDown? && !after[i].h.ReplySuccess?)
  {
    var s := After(Init(route), before);
    CloseLeavesQuiet(route, before, k);
    InvRun(Init(route), before);
    QuietUntilOpen(s, after);
    forall c
      ensures Uploads(after, c) <= if c in InFlight(s) then 1 else 0
    {
      OneChunkEach(s, after, c);
    }
    forall i | 0 <= i < |after| && after[i].Handler?
      ensures !after[i].h.ReadUp? && !after[i].h.WriteDown? && !after[i].h.ReplySuccess?
    {
      ClientsAreCutOff(s, after, i);
    }
  }

  /** Some schedule without Open sends a chunk upstream. */
  ghost predicate CanUpload(s: State) {
    exists run :: Schedule(s, run) && Open !in run && After(s, run).uploaded > s.uploaded
  }

  /** Nothing more goes upstream of a quiet gate exactly when nothing is in flight. */
  lemma UploadsExactlyWhen(s: State)
    requires TableInv(s) && Quiet(s)
    ensures CanUpload(s) <==> InFlight(s) != {}
  {
    if CanUpload(s) {
      var run :| Schedule(s, run) && Open !in run && After(s, run).uploaded > s.uploaded;
      QuietUntilOpen(s, run);
    }
    if InFlight(s) != {} {
      var c :| c in InFlight(s);
      var run := [Handler(c, WriteUp)];
      OneMore(s, [], Handler(c, WriteUp));
      assert [] + run == run;
      assert Schedule(s, run) && After(s, run).uploaded > s.uploaded;
    }
  }

  /** What a caller can see: with no active connection nothing is in flight. */
  lemma NoConnectionsNothingInFlight(s: State)
    requires TableInv(s) && s.tracked == {}
    ensures InFlight(s) == {}
  {
    forall c | c in s.conns
      ensures !Carries(s.conns[c])
    {
      assert c !in s.tracked;
    }
  }

  /**
   After a Close has returned, from start-up: some schedule without Open still sends a chunk
   upstream if and only if one is in flight, and none can once ActiveConnections is zero.
   */
  lemma SilentExactlyWhen(route: RouteId, before: seq<Step>, k: CallId)
    requires Schedule(Init(route), before) && ClosedByCall(After(Init(route), before), k)
    ensures var s := After(Init(route), before);
            && (CanUpload(s) <==> InFlight(s) != {})
            && (s.tracked == {} ==> !CanUpload(s))
  {
    var s := After(Init(route), before);
    InvRun(Init(route), before);
    CloseLeavesQuiet(route, before, k);
    UploadsExactlyWhen(s);
    if s.tracked == {} {
      NoConnectionsNothingInFlight(s);
    }
  }

  /**
   Every client that was ever told of success has its event on record, and the event is still in
   the gate's buffer exactly while it is among the newest 4096.
   */
  lemma RecordedBeforeReply(route: RouteId, run: seq<Step>, c: ConnId)
    requires Schedule(Init(route), run) && c in After(Init(route), run).told
    ensures var log := After(Init(route), run).log;
            && (c, REP_SUCCESS) in log
            && ((c, REP_SUCCESS) in Tail(log, Gate.MAX_EVENTS) <==> Recent(log, (c, REP_SUCCESS), Gate.MAX_EVENTS))
            && (|log| <= Gate.MAX_EVENTS ==> (c, REP_SUCCESS) in Tail(log, Gate.MAX_EVENTS))
  {
    InvRun(Init(route), run);
    TailHasRecent(After(Init(route), run).log, (c, REP_SUCCESS), Gate.MAX_EVENTS);
  }

  // ---------------------------------------------------------------- what is recorded of a request

  /** The handler of `c` has an answer and has not recorded it: a failure code, or a connected upstream. */
  ghost predicate Pends(s: State, c: ConnId, code: nat) {
    c in s.conns && (s.conns[c].phase == Failing(code) || (code == 0 && s.conns[c].phase.Connected?))
  }

  /** What each step of a handler makes it answer: 7 for another command, 1 at a closed flag, else what the dial gave. */
  lemma AnswerOf(s: State, c: ConnId, h: HandlerStep)
    requires Enabled(s, Handler(c, h))
    ensures var s' := Apply(s, Handler(c, h));
      && (h.RejectCommand? ==> Pends(s', c, 7))
      && (h.ConsultFlag? && !s.open ==> Pends(s', c, 1))
      && (h.ConsultFlag? && s.open ==> PastRefuse(s'.conns[c].phase))
      && (h.DialErr? ==> Pends(s', c, h.code) && h.code != 0)
      && (h.DialOk? ==> Pends(s', c, 0))
  {
  }

  lemma PendsStep(s: State, t: Step, c: ConnId, code: nat)
    requires TableInv(s) && Enabled(s, t) && Pends(s, c, code) && t != Handler(c, RecordResult)
    ensures Pends(Apply(s, t), c, code)
  {
  }

  /** However the steps interleave, the answer stays until it is recorded, and then exactly it is. */
  lemma {:induction false} AnswerIsRecorded(s: State, mid: seq<Step>, c: ConnId, code: nat)
    requires TableInv(s) && Pends(s, c, code) && Schedule(s, mid) && Handler(c, RecordResult) !in mid
    ensures var m := After(s, mid);
      && Enabled(m, Handler(c, RecordResult))
      && Apply(m, Handler(c, RecordResult)).log == m.log + [(c, code)]
    decreases |mid|
  {
    if mid != [] {
      assert mid[0] in mid && forall t :: t in mid[1..] ==> t in mid;
      TableStep(s, mid[0]);
      PendsStep(s, mid[0], c, code);
      AnswerIsRecorded(Apply(s, mid[0]), mid[1..], c, code);
    }
  }

  // ---------------------------------------------------------------- shutdown

  ghost predicate ShutDown(s: State) {
    s.acceptor.Exited? && forall c :: c in s.conns ==> s.conns[c].phase.Gone? && !s.conns[c].live
  }

  lemma ShutDownStep(s: State, t: Step)
    requires ShutDown(s) && Enabled(s, t)
    ensures ShutDown(Apply(s, t)) && Apply(s, t).conns == s.conns
    ensures Apply(s, t).uploaded == s.uploaded && Apply(s, t).delivered == s.delivered
  {
    assert !t.Handler?;
  }

  lemma {:induction false} ShutDownStays(s: State, run: seq<Step>)
    requires ShutDown(s) && Schedule(s, run)
    ensures ShutDown(After(s, run)) && After(s, run).conns == s.conns
    ensures After(s, run).uploaded == s.uploaded && After(s, run).delivered == s.delivered
    decreases |run|
  {
    if run != [] {
      ShutDownStep(s, run[0]);
      ShutDownStays(Apply(s, run[0]), run[1..]);
    }
  }

  /** A closed server tracks no further connection, whatever is called later. */
  lemma {:induction false} ClosedAdmitsNone(s: State, run: seq<Step>)
    requires s.closed && Schedule(s, run)
    ensures After(s, run).closed && After(s, run).conns.Keys == s.conns.Keys && After(s, run).tracked <= s.tracked
    decreases |run|
  {
    if run != [] {
      ClosedStep(s, run[0]);
      ClosedAdmitsNone(Apply(s, run[0]), run[1..]);
    }
  }

  lemma ClosedStep(s: State, t: Step)
    requires s.closed && Enabled(s, t)
    ensures Apply(s, t).closed && Apply(s, t).conns.Keys == s.conns.Keys && Apply(s, t).tracked <= s.tracked
  {
  }

  /** A Shutdown that did the work leaves no client socket, now or after any later calls, Open included. */
  lemma ShutdownIsFinal(route: RouteId, before: seq<Step>, after: seq<Step>, k: CallId)
    requires Schedule(Init(route), before)
    requires k in After(Init(route), before).closers
    requires After(Init(route), before).closers[k].shutdown && After(Init(route), before).closers[k].stage.Finished?
    requires Schedule(After(Init(route), before), after)
    ensures var s := After(Init(route), before);
            && ShutDown(s) && ShutDown(After(s, after))
            && After(s, after).uploaded == s.uploaded && After(s, after).delivered == s.delivered
  {
    InvRun(Init(route), before);
    var s := After(Init(route), before);
    assert CloserInv(s, s.closers[k]);
    ShutDownStays(s, after);
  }

  // ---------------------------------------------------------------- one route per gate

  ghost predicate OnCurrentRoute(s: State) {
    forall c :: c in s.conns && OnRoute(s.conns[c].phase) && s.conns[c].live ==> s.conns[c].phase.route == s.route
  }

  /** A caller may swap before the first Open, or when a Close of its own has returned and no Open came since. */
  ghost predicate MaySwap(s: State) {
    !s.everOpen || exists k :: ClosedByCall(s, k)
  }

  /** The discipline SetRoute's contract asks of its callers (session.go:367, 414, 708, 738). */
  ghost predicate Disciplined(s: State, run: seq<Step>)
    requires Schedule(s, run)
    decreases |run|
  {
    run != [] ==> (run[0].SetRoute? ==> MaySwap(s)) && Disciplined(Apply(s, run[0]), run[1..])
  }

  /** What the caller knows implies that no live connection is past Refuse. */
  lemma MaySwapIsQuiet(s: State)
    requires Inv(s) && MaySwap(s)
    ensures Quiet(s)
  {
    if s.everOpen {
      var k :| ClosedByCall(s, k);
      assert CloserInv(s, s.closers[k]);
    }
  }

  lemma OnCurrentRouteStep(s: State, t: Step)
    requires Inv(s) && OnCurrentRoute(s) && Enabled(s, t) && (t.SetRoute? ==> MaySwap(s))
    ensures OnCurrentRoute(Apply(s, t))
  {
    var s' := Apply(s, t);
    if t.SetRoute? {
      MaySwapIsQuiet(s);
    }
    forall c | c in s'.conns && OnRoute(s'.conns[c].phase) && s'.conns[c].live
      ensures s'.conns[c].phase.route == s'.route
    {
      ConnStep(s, t, c);
      assert c in s.conns && s.conns[c].live;
    }
  }

  lemma {:induction false} OnCurrentRouteRun(s: State, run: seq<Step>)
    requires Inv(s) && OnCurrentRoute(s) && Schedule(s, run) && Disciplined(s, run)
    ensures OnCurrentRoute(After(s, run))
    decreases |run|
  {
    if run != [] {
      InvStep(s, run[0]);
      OnCurrentRouteStep(s, run[0]);
      OnCurrentRouteRun(Apply(s, run[0]), run[1..]);
    }
  }

  /** A gate forwards to exactly one route: every live tunnel uses the route the gate names. */
  lemma LiveTunnelsUseTheGatesRoute(route: RouteId, run: seq<Step>)
    requires Schedule(Init(route), run) && Disciplined(Init(route), run)
    ensures OnCurrentRoute(After(Init(route), run))
  {
    OnCurrentRouteRun(Init(route), run);
  }

  // ---------------------------------------------------------------- two schedules that show the limits

  lemma {:induction false} OneMore(s: State, run: seq<Step>, t: Step)
    requires Schedule(s, run) && Enabled(After(s, run), t)
    ensures Schedule(s, run + [t]) && After(s, run + [t]) == Apply(After(s, run), t)
    decreases |run|
  {
    if run != [] {
      OneMore(Apply(s, run[0]), run[1..], t);
      assert (run + [t])[1..] == run[1..] + [t];
    } else {
      assert [t][1..] == [];
    }
  }

  lemma Then(r: RouteId, run: seq<Step>, s: State, t: Step) returns (run': seq<Step>, s': State)
    requires Schedule(Init(r), run) && After(Init(r), run) == s && Enabled(s, t)
    ensures run' == run + [t] && Schedule(Init(r), run') && After(Init(r), run') == s' == Apply(s, t)
  {
    OneMore(Init(r), run, t);
    run', s' := run + [t], Apply(s, t);
  }

  /** A step of the only connection's handler. */
  lemma ThenHandler(r: RouteId, run: seq<Step>, s: State, h: HandlerStep) returns (run': seq<Step>, s': State)
    requires Schedule(Init(r), run) && After(Init(r), run) == s
    requires s.conns.Keys == {0} && CanStep(s.conns[0], h) && !h.Untrack?
    ensures run' == run + [Handler(0, h)] && Schedule(Init(r), run') && After(Init(r), run') == s'
    ensures s' == s.(conns := map[0 := NextConn(s.conns[0], h, s.open, s.route)], log := s'.log, told := s'.told,
                     uploaded := s'.uploaded, delivered := s'.delivered)
  {
    run', s' := Then(r, run, s, Handler(0, h));
    assert s'.conns == map[0 := NextConn(s.conns[0], h, s.open, s.route)];
  }

  /** A connection is accepted by an open gate. */
  lemma AcceptedSchedule(r: RouteId) returns (run: seq<Step>, s: State)
    ensures run == [Open, Acceptor(Accept(0)), Acceptor(Track)] && Schedule(Init(r), run) && After(Init(r), run) == s
    ensures s == Init(r).(open := true, everOpen := true, tracked := {0}, conns := map[0 := Conn(Handshaking, true, Idle, Idle)])
  {
    run, s := [], Init(r);
    run, s := Then(r, run, s, Open);
    run, s := Then(r, run, s, Acceptor(Accept(0)));
    run, s := Then(r, run, s, Acceptor(Track));
  }

  /** It passes Refuse and its upstream is connected. */
  lemma ConnectedSchedule(r: RouteId) returns (run: seq<Step>, s: State)
    ensures Schedule(Init(r), run) && After(Init(r), run) == s && NoSwaps(run)
    ensures s.open && s.route == r && s.closers == map[] && s.tracked == {0}
    ensures s.conns == map[0 := Conn(Connected(r), true, Idle, Idle)]
  {
    run, s := AcceptedSchedule(r);
    run, s := ThenHandler(r, run, s, ParseRequest);
    run, s := ThenHandler(r, run, s, ConsultFlag);
    run, s := ThenHandler(r, run, s, ReadRoute);
    run, s := ThenHandler(r, run, s, DialOk);
  }

  /** Its tunnel is up and its upload copier has read a chunk. */
  lemma TunnelSchedule(r: RouteId) returns (run: seq<Step>, s: State)
    ensures Schedule(Init(r), run) && After(Init(r), run) == s && NoSwaps(run)
    ensures s.open && s.route == r && s.closers == map[] && s.tracked == {0}
    ensures s.conns == map[0 := Conn(Piping(r), true, Carrying, Idle)]
  {
    run, s := ConnectedSchedule(r);
    run, s := ThenHandler(r, run, s, RecordResult);
    run, s := ThenHandler(r, run, s, ReplySuccess);
    run, s := ThenHandler(r, run, s, ReadUp);
  }

  /** A Close of that tunnel has returned. */
  lemma ClosedTunnelSchedule(r: RouteId) returns (run: seq<Step>, s: State)
    ensures Schedule(Init(r), run) && After(Init(r), run) == s && ClosedByCall(s, 0)
    ensures s.conns == map[0 := Conn(Piping(r), false, Carrying, Idle)]
  {
    run, s := TunnelSchedule(r);
    run, s := Then(r, run, s, ClearFlag(0, false));
    run, s := Then(r, run, s, Call(0, Snapshot));
    assert s.conns == map[0 := Conn(Piping(r), true, Carrying, Idle)];
    run, s := Then(r, run, s, Call(0, CloseOne(0)));
    run, s := Then(r, run, s, Call(0, Finish));
  }

  /** A chunk read before Close is written after Close has returned. */
  lemma ChunkOutlivesClose(r: RouteId) returns (before: seq<Step>, after: seq<Step>)
    ensures Schedule(Init(r), before) && ClosedByCall(After(Init(r), before), 0)
    ensures Schedule(After(Init(r), before), after) && Open !in after
    ensures After(After(Init(r), before), after).uploaded == After(Init(r), before).uploaded + 1
  {
    var s;
    before, s := ClosedTunnelSchedule(r);
    OneMore(s, [], Handler(0, WriteUp));
    after := [] + [Handler(0, WriteUp)];
  }

  /** A swap on an open gate leaves a live tunnel on the old route, so the discipline is needed. */
  lemma SwapWhileOpenMixesRoutes(r: RouteId, other: RouteId) returns (run: seq<Step>)
    requires r != other
    ensures Schedule(Init(r), run) && Disciplined(Init(r), run) && Schedule(Init(r), run + [SetRoute(other)])
    ensures !OnCurrentRoute(After(Init(r), run + [SetRoute(other)]))
  {
    var s, s';
    run, s := TunnelSchedule(r);
    NoSwapsIsDisciplined(Init(r), run);
    var run';
    run', s' := Then(r, run, s, SetRoute(other));
    assert 0 in s'.conns && s'.conns[0].live && OnRoute(s'.conns[0].phase);
  }

  predicate NoSwaps(run: seq<Step>) {
    forall i :: 0 <= i < |run| ==> !run[i].SetRoute?
  }

  lemma {:induction false} NoSwapsIsDisciplined(s: State, run: seq<Step>)
    requires Schedule(s, run) && NoSwaps(run)
    ensures Disciplined(s, run)
    decreases |run|
  {
    if run != [] {
      NoSwapsIsDisciplined(Apply(s, run[0]), run[1..]);
    }
  }
}
