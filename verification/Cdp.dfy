/**
 The DevTools client (controller/browser/cdp.go:81-247): callers, the read loop and the failure
 path share the pending table, one-slot reply channels and buffered subscriber channels. Each
 step below is one critical section or one channel operation; schedules are arbitrary.
 */
module Cdp {

  type CallId = nat
  type SubId = nat

  const SUBSCRIBER_BUFFER: nat := 256

  /** A decoded protocol message. `id` 0 marks a notification; undecodable input never gets here. */
  datatype Frame = Frame(id: nat, session: string, name: string, body: string)

  datatype Message = Reply(frame: Frame) | ConnectionClosed

  datatype Why = WriteFailed | ContextDone

  datatype Outcome = Received(m: Message) | GaveUp(why: Why) | ClientClosed

  datatype CallPhase =
    | Numbered               // id drawn, not yet registered
    | Registered             // in the table, request not yet written
    | Selecting              // request written, waiting
    | Abandoning(why: Why)   // gave up, table entry not yet deleted
    | Done(outcome: Outcome)

  /** `since`: frames already handled at registration. `sent`: everything ever put on the channel. */
  datatype CallState = CallState(phase: CallPhase, since: nat, channel: seq<Message>, sent: seq<Message>)

  datatype Reader = Reading | Matched(id: CallId, frame: Frame) | Exited

  /**
   A subscriber and its channel. `from`/`until` delimit the frames handled while it was
   subscribed; `faults` counts operations on which the runtime would panic.
   */
  datatype Subscriber = Subscriber(
    session: string, name: string,
    buffer: seq<Frame>, received: seq<Frame>,
    closed: bool, faults: nat,
    from: nat, until: nat, dropped: nat
  )

  datatype Client = Client(
    nextId: nat,
    closed: bool,
    reader: Reader,
    frames: seq<Frame>,
    pending: set<CallId>,
    calls: map<CallId, CallState>,
    subs: set<SubId>,
    subscribers: map<SubId, Subscriber>
  )

  datatype CallerStep = Register | WriteOk | WriteErr | Cancel | DeleteEntry | Receive

  datatype Step =
    | DrawId
    | Caller(id: CallId, c: CallerStep)
    | Handle(f: Frame)          // read loop: take one frame and act on it
    | SendReply                 // read loop: ch <- msg
    | ReadFails                 // read loop: the transport failed
    | Subscribe(s: SubId, session: string, name: string)
    | CancelSub(s: SubId)
    | TakeEvent(s: SubId)

  // ---------------------------------------------------------------- steps

  predicate CallerEnabled(x: CallState, c: CallerStep) {
    match c
    case Register => x.phase.Numbered?
    case WriteOk => x.phase.Registered?
    case WriteErr => x.phase.Registered?
    case Cancel => x.phase.Selecting?
    case DeleteEntry => x.phase.Abandoning?
    case Receive => x.phase.Selecting? && x.channel != []
  }

  predicate Enabled(s: Client, t: Step) {
    match t
    case DrawId => true
    case Caller(id, c) => id in s.calls && CallerEnabled(s.calls[id], c)
    case Handle(_) => s.reader.Reading?
    case SendReply => s.reader.Matched? && s.reader.id in s.calls && s.calls[s.reader.id].channel == []
    case ReadFails => s.reader.Reading? && forall id :: id in s.pending ==> id in s.calls && s.calls[id].channel == []
    case Subscribe(u, _, _) => u !in s.subscribers
    case CancelSub(u) => u in s.subscribers
    case TakeEvent(u) => u in s.subscribers && s.subscribers[u].buffer != []
  }

  function Put(x: CallState, m: Message): CallState {
    x.(channel := x.channel + [m], sent := x.sent + [m])
  }

  predicate Matches(u: Subscriber, f: Frame) {
    u.session == f.session && (u.name == "" || u.name == f.name)
  }

  predicate IsEvent(f: Frame) {
    f.id == 0 && f.name != ""
  }

  /** The non-blocking send: a full buffer drops the event, a closed channel would panic. */
  function Offer(u: Subscriber, f: Frame): Subscriber {
    if u.closed then u.(faults := u.faults + 1)
    else if |u.buffer| < SUBSCRIBER_BUFFER then u.(buffer := u.buffer + [f])
    else u.(dropped := u.dropped + 1)
  }

  function CloseChannel(u: Subscriber): Subscriber {
    if u.closed then u.(faults := u.faults + 1) else u.(closed := true)
  }

  function Dispatch(us: map<SubId, Subscriber>, subs: set<SubId>, f: Frame): map<SubId, Subscriber> {
    map u | u in us :: if u in subs && Matches(us[u], f) then Offer(us[u], f) else us[u]
  }

  function CloseAll(us: map<SubId, Subscriber>, subs: set<SubId>): map<SubId, Subscriber> {
    map u | u in us :: if u in subs then CloseChannel(us[u]) else us[u]
  }

  function FailCalls(calls: map<CallId, CallState>, pending: set<CallId>): map<CallId, CallState> {
    map id | id in calls :: if id in pending then Put(calls[id], ConnectionClosed) else calls[id]
  }

  /** Ghost bookkeeping: a still subscribed channel has now been exposed to one more frame. */
  function Extend(us: map<SubId, Subscriber>, n: nat): map<SubId, Subscriber> {
    map u | u in us :: if us[u].closed then us[u] else us[u].(until := n)
  }

  function ApplyCaller(s: Client, id: CallId, c: CallerStep): Client
    requires id in s.calls && CallerEnabled(s.calls[id], c)
  {
    var x := s.calls[id];
    match c
    case Register =>
      if s.closed then s.(calls := s.calls[id := x.(phase := Done(ClientClosed))])
      else s.(calls := s.calls[id := x.(phase := Registered, since := |s.frames|)], pending := s.pending + {id})
    case WriteOk => s.(calls := s.calls[id := x.(phase := Selecting)])
    case WriteErr => s.(calls := s.calls[id := x.(phase := Abandoning(WriteFailed))])
    case Cancel => s.(calls := s.calls[id := x.(phase := Abandoning(ContextDone))])
    case DeleteEntry => s.(calls := s.calls[id := x.(phase := Done(GaveUp(x.phase.why)))], pending := s.pending - {id})
    case Receive => s.(calls := s.calls[id := x.(phase := Done(Received(x.channel[0])), channel := x.channel[1..])])
  }

  function Apply(s: Client, t: Step): Client
    requires Enabled(s, t)
  {
    match t
    case DrawId => s.(nextId := s.nextId + 1, calls := s.calls[s.nextId + 1 := CallState(Numbered, 0, [], [])])
    case Caller(id, c) => ApplyCaller(s, id, c)
    case Handle(f) =>
      var s1 := s.(frames := s.frames + [f], subscribers := Extend(s.subscribers, |s.frames| + 1));
      if f.id != 0 then
        if f.id in s.pending then s1.(pending := s.pending - {f.id}, reader := Matched(f.id, f)) else s1
      else if f.name == "" then s1
      else s1.(subscribers := Dispatch(s1.subscribers, s.subs, f))
    case SendReply =>
      var id := s.reader.id;
      s.(calls := s.calls[id := Put(s.calls[id], Reply(s.reader.frame))], reader := Reading)
    case ReadFails =>
      s.(closed := true, reader := Exited, pending := {}, calls := FailCalls(s.calls, s.pending),
         subs := {}, subscribers := CloseAll(s.subscribers, s.subs))
    case Subscribe(u, session, name) =>
      var n := |s.frames|;
      if s.closed then s.(subscribers := s.subscribers[u := Subscriber(session, name, [], [], true, 0, n, n, 0)])
      else s.(subs := s.subs + {u}, subscribers := s.subscribers[u := Subscriber(session, name, [], [], false, 0, n, n, 0)])
    case CancelSub(u) =>
      if u in s.subs then s.(subs := s.subs - {u}, subscribers := s.subscribers[u := CloseChannel(s.subscribers[u])])
      else s
    case TakeEvent(u) =>
      var x := s.subscribers[u];
      s.(subscribers := s.subscribers[u := x.(buffer := x.buffer[1..], received := x.received + [x.buffer[0]])])
  }

  function Init(): Client {
    Client(0, false, Reading, [], {}, map[], {}, map[])
  }

  predicate Schedule(s: Client, run: seq<Step>)
    decreases |run|
  {
    run != [] ==> Enabled(s, run[0]) && Schedule(Apply(s, run[0]), run[1..])
  }

  function After(s: Client, run: seq<Step>): Client
    requires Schedule(s, run)
    decreases |run|
  {
    if run == [] then s else After(Apply(s, run[0]), run[1..])
  }

  /** The dispatch loop visits the subscriber set in any order; the order does not matter. */
  method DispatchLoop(us: map<SubId, Subscriber>, subs: set<SubId>, f: Frame) returns (out: map<SubId, Subscriber>)
    requires subs <= us.Keys
    ensures out == Dispatch(us, subs, f)
    ensures out.Keys == us.Keys
    ensures forall u :: u in us ==>
      var x, y := us[u], out[u];
      if u in subs && x.session == f.session && (x.name == "" || x.name == f.name)
      then !x.closed ==> y == if |x.buffer| < 256 then x.(buffer := x.buffer + [f]) else x.(dropped := x.dropped + 1)
      else y == x
  {
    out := us;
    var rest := subs;
    while rest != {}
      invariant rest <= subs && out == Dispatch(us, subs - rest, f)
      decreases rest
    {
      var u :| u in rest;
      if Matches(out[u], f) {
        out := out[u := Offer(out[u], f)];
      }
      rest := rest - {u};
    }
    assert subs - rest == subs;
  }

  /** The failure path empties the table entry by entry, in any order, without blocking on a channel. */
  method FailLoop(calls: map<CallId, CallState>, pending: set<CallId>) returns (out: map<CallId, CallState>)
    requires pending <= calls.Keys
    requires forall id :: id in pending ==> calls[id].channel == []
    ensures out == FailCalls(calls, pending)
    ensures forall id :: id in pending ==> out[id].channel == [ConnectionClosed]
  {
    out := calls;
    var rest := pending;
    while rest != {}
      invariant rest <= pending && out == FailCalls(calls, pending - rest)
      decreases rest
    {
      var id :| id in rest;
      assert |out[id].channel| < 1;
      out := out[id := Put(out[id], ConnectionClosed)];
      rest := rest - {id};
    }
    assert pending - rest == pending;
  }

  // ---------------------------------------------------------------- calls

  /** Index of the first frame with this id among those handled from `since` on, or |frames|. */
  function FirstReply(frames: seq<Frame>, since: nat, id: CallId): nat
    decreases |frames| - since
  {
    if since >= |frames| then |frames|
    else if frames[since].id == id then since
    else FirstReply(frames, since + 1, id)
  }

  lemma {:induction false} FirstReplyAppend(frames: seq<Frame>, f: Frame, since: nat, id: CallId)
    requires since <= |frames|
    ensures FirstReply(frames, since, id) <= |frames|
    ensures FirstReply(frames + [f], since, id) ==
            if FirstReply(frames, since, id) < |frames| then FirstReply(frames, since, id)
            else if f.id == id then |frames| else |frames| + 1
    ensures FirstReply(frames, since, id) < |frames| ==>
              (frames + [f])[FirstReply(frames, since, id)] == frames[FirstReply(frames, since, id)]
    decreases |frames| - since
  {
    if since < |frames| {
      FirstReplyAppend(frames, f, since + 1, id);
    }
  }

  predicate Answered(frames: seq<Frame>, since: nat, id: CallId) {
    FirstReply(frames, since, id) < |frames|
  }

  /** What may have been put on a call's channel: at most one message, and the right one. */
  ghost predicate SentRight(x: CallState, id: CallId, frames: seq<Frame>, closed: bool) {
    x.sent == [] ||
    (|x.sent| == 1 && match x.sent[0] {
       case Reply(f) => Answered(frames, x.since, id) && f == frames[FirstReply(frames, x.since, id)]
       case ConnectionClosed => closed && !Answered(frames, x.since, id)
     })
  }

  /**
   Where the answer to a call is. `listed`: the call is in the table; `inHand`: the read loop has
   taken `frame` for it and has not sent it yet.
   */
  ghost predicate CallOk(x: CallState, id: CallId, frames: seq<Frame>, closed: bool, listed: bool, inHand: bool, frame: Frame) {
    && x.since <= |frames|
    && SentRight(x, id, frames, closed)
    && (x.channel == [] || x.channel == x.sent)
    && (x.phase.Numbered? ==> !listed && !inHand && x.sent == [])
    && (listed ==> !closed && x.sent == [] && !inHand && !Answered(frames, x.since, id))
    && (inHand ==> x.sent == [] && Answered(frames, x.since, id) && frame == frames[FirstReply(frames, x.since, id)])
    && (x.phase.Registered? || x.phase.Selecting? ==> listed || inHand || (x.sent != [] && x.channel == x.sent))
    && (x.phase.Done? && x.phase.outcome.Received? ==> x.sent == [x.phase.outcome.m])
    && (x.phase == Done(ClientClosed) ==> closed)
  }

  ghost predicate CallInv(s: Client, id: CallId)
    requires id in s.calls
  {
    var inHand := s.reader.Matched? && s.reader.id == id;
    CallOk(s.calls[id], id, s.frames, s.closed, id in s.pending, inHand, if inHand then s.reader.frame else Frame(0, "", "", ""))
  }

  ghost predicate CallsInv(s: Client) {
    && TableInv(s)
    && (forall id :: id in s.calls ==> CallInv(s, id))
  }

  lemma CallerKeeps(s: Client, id: CallId, c: CallerStep)
    requires CallsInv(s) && Enabled(s, Caller(id, c))
    ensures CallInv(ApplyCaller(s, id, c), id)
  {
    assert CallInv(s, id);
    assert !Answered(s.frames, |s.frames|, id);
  }

  lemma HandleKeeps(s: Client, f: Frame, id: CallId)
    requires CallsInv(s) && Enabled(s, Handle(f)) && id in s.calls
    ensures CallInv(Apply(s, Handle(f)), id)
  {
    assert CallInv(s, id);
    FirstReplyAppend(s.frames, f, s.calls[id].since, id);
  }

  lemma SendKeeps(s: Client, id: CallId)
    requires CallsInv(s) && Enabled(s, SendReply) && id in s.calls
    ensures CallInv(Apply(s, SendReply), id)
  {
    assert CallInv(s, id);
  }

  lemma FailKeeps(s: Client, id: CallId)
    requires CallsInv(s) && Enabled(s, ReadFails) && id in s.calls
    ensures CallInv(Apply(s, ReadFails), id)
  {
    assert CallInv(s, id);
  }

  /** A step that leaves a call, the table entry and the read loop alone. */
  lemma BystanderKeeps(s: Client, t: Step, id: CallId)
    requires CallsInv(s) && Enabled(s, t) && id in s.calls
    requires t.DrawId? || t.Subscribe? || t.CancelSub? || t.TakeEvent? || (t.Caller? && t.id != id)
    ensures CallInv(Apply(s, t), id)
  {
    var s' := Apply(s, t);
    assert CallInv(s, id);
    assert s'.calls[id] == s.calls[id] && s'.reader == s.reader && (id in s'.pending <==> id in s.pending);
  }

  lemma CallStep(s: Client, t: Step, id: CallId)
    requires CallsInv(s) && Enabled(s, t) && id in s.calls
    ensures CallInv(Apply(s, t), id)
  {
    if t.Handle? {
      HandleKeeps(s, t.f, id);
    } else if t.SendReply? {
      SendKeeps(s, id);
    } else if t.ReadFails? {
      FailKeeps(s, id);
    } else if t.Caller? && t.id == id {
      CallerKeeps(s, id, t.c);
    } else {
      BystanderKeeps(s, t, id);
    }
  }

  /** The invariant apart from the single calls. */
  ghost predicate TableInv(s: Client) {
    && (s.closed <==> s.reader.Exited?)
    && (s.closed ==> s.pending == {})
    && s.pending <= s.calls.Keys
    && (s.reader.Matched? ==> s.reader.id in s.calls)
    && (forall id :: id in s.calls ==> 0 < id <= s.nextId)
  }

  lemma CallerTable(s: Client, id: CallId, c: CallerStep)
    requires TableInv(s) && id in s.calls && CallerEnabled(s.calls[id], c)
    ensures TableInv(ApplyCaller(s, id, c)) && ApplyCaller(s, id, c).calls.Keys == s.calls.Keys
  {
  }

  lemma TableStep(s: Client, t: Step)
    requires TableInv(s) && Enabled(s, t)
    ensures TableInv(Apply(s, t))
    ensures forall id :: id in Apply(s, t).calls && id !in s.calls ==> t.DrawId? && id == s.nextId + 1
  {
    if t.Caller? {
      CallerTable(s, t.id, t.c);
    }
  }

  lemma NewCall(s: Client)
    requires CallsInv(s)
    ensures CallInv(Apply(s, DrawId), s.nextId + 1)
  {
  }

  lemma CallsStep(s: Client, t: Step)
    requires CallsInv(s) && Enabled(s, t)
    ensures CallsInv(Apply(s, t))
  {
    TableStep(s, t);
    forall id | id in Apply(s, t).calls
      ensures CallInv(Apply(s, t), id)
    {
      if id in s.calls {
        CallStep(s, t, id);
      } else {
        NewCall(s);
      }
    }
  }

  lemma {:induction false} CallsRun(s: Client, run: seq<Step>)
    requires CallsInv(s) && Schedule(s, run)
    ensures CallsInv(After(s, run))
    decreases |run|
  {
    if run != [] {
      CallsStep(s, run[0]);
      CallsRun(Apply(s, run[0]), run[1..]);
    }
  }

  /** No call is lost: a waiting call is registered, or about to be sent its answer, or has it queued. */
  lemma WaitingCallIsServed(run: seq<Step>, id: CallId)
    requires Schedule(Init(), run)
    requires id in After(Init(), run).calls && After(Init(), run).calls[id].phase.Selecting?
    ensures var s := After(Init(), run);
            || (id in s.pending && !s.closed)
            || (s.reader.Matched? && s.reader.id == id)
            || |s.calls[id].channel| == 1
    ensures After(Init(), run).reader.Exited? ==> Enabled(After(Init(), run), Caller(id, Receive))
  {
    CallsRun(Init(), run);
    assert CallInv(After(Init(), run), id);
  }

  /** At most one message is ever sent to a call, so the read loop and the failure path never block. */
  lemma SendsNeverBlock(run: seq<Step>)
    requires Schedule(Init(), run)
    ensures var s := After(Init(), run);
            && (forall id :: id in s.calls ==> |s.calls[id].sent| <= 1)
            && (s.reader.Matched? ==> Enabled(s, SendReply))
            && (s.reader.Reading? ==> Enabled(s, ReadFails))
  {
    CallsRun(Init(), run);
    var s := After(Init(), run);
    forall id | id in s.calls
      ensures |s.calls[id].sent| <= 1 && (id in s.pending ==> s.calls[id].channel == [])
    {
      assert CallInv(s, id);
    }
  }

  /**
   What a finished call returns. A reply is the first frame with the call's id handled after the
   call registered; the closed-connection error means no such frame was ever handled.
   */
  lemma ReplyIsFirstWithId(run: seq<Step>, id: CallId)
    requires Schedule(Init(), run)
    requires id in After(Init(), run).calls && After(Init(), run).calls[id].phase.Done?
    ensures var s := After(Init(), run);
            var x := s.calls[id];
            match x.phase.outcome {
              case Received(Reply(f)) => Answered(s.frames, x.since, id) && f == s.frames[FirstReply(s.frames, x.since, id)] && f.id == id
              case Received(ConnectionClosed) => s.closed && !Answered(s.frames, x.since, id)
              case ClientClosed => s.closed
              case _ => true
            }
  {
    CallsRun(Init(), run);
    var s := After(Init(), run);
    assert CallInv(s, id);
    FirstReplyFinds(s.frames, s.calls[id].since, id);
  }

  lemma {:induction false} FirstReplyFinds(frames: seq<Frame>, since: nat, id: CallId)
    ensures var k := FirstReply(frames, since, id);
            && k <= |frames|
            && (k < |frames| ==> since <= k && frames[k].id == id)
            && (forall j :: since <= j < k ==> frames[j].id != id)
    decreases |frames| - since
  {
    if since < |frames| && frames[since].id != id {
      FirstReplyFinds(frames, since + 1, id);
    }
  }

  /** Once the client has failed, nothing is ever pending again and no frame is handled. */
  lemma {:induction false} FailedStaysFailed(s: Client, run: seq<Step>)
    requires CallsInv(s) && s.closed && Schedule(s, run)
    ensures After(s, run).closed && After(s, run).pending == {} && After(s, run).frames == s.frames
    decreases |run|
  {
    if run != [] {
      CallsStep(s, run[0]);
      FailedStaysFailed(Apply(s, run[0]), run[1..]);
    }
  }

  // ---------------------------------------------------------------- subscriptions

  /** The events a subscriber asked for, among `frames`, in order. */
  function Wanted(u: Subscriber, frames: seq<Frame>): seq<Frame> {
    if frames == [] then []
    else
      var before := Wanted(u, frames[..|frames| - 1]);
      var f := frames[|frames| - 1];
      if IsEvent(f) && Matches(u, f) then before + [f] else before
  }

  predicate InOrder<T(==)>(a: seq<T>, b: seq<T>)
    decreases |b|
  {
    a == [] ||
    (b != [] &&
     (InOrder(a, b[..|b| - 1]) || (a[|a| - 1] == b[|b| - 1] && InOrder(a[..|a| - 1], b[..|b| - 1]))))
  }

  lemma InOrderTake<T>(a: seq<T>, b: seq<T>, x: T)
    requires InOrder(a, b)
    ensures InOrder(a + [x], b + [x]) && InOrder(a, b + [x])
  {
    assert (a + [x])[..|a|] == a && (b + [x])[..|b|] == b;
  }

  lemma {:induction false} InOrderLength<T>(a: seq<T>, b: seq<T>)
    requires InOrder(a, b)
    ensures |a| <= |b| && (|a| == |b| ==> a == b)
    decreases |b|
  {
    if a != [] {
      if InOrder(a, b[..|b| - 1]) {
        InOrderLength(a, b[..|b| - 1]);
      } else {
        InOrderLength(a[..|a| - 1], b[..|b| - 1]);
      }
    }
  }

  function Delivered(u: Subscriber): seq<Frame> {
    u.received + u.buffer
  }

  ghost predicate SubOk(x: Subscriber, frames: seq<Frame>, listed: bool) {
    && x.from <= x.until <= |frames|
    && (listed <==> !x.closed)
    && (listed ==> x.until == |frames|)
    && x.faults == 0
    && |x.buffer| <= SUBSCRIBER_BUFFER
    && var wanted := Wanted(x, frames[x.from..x.until]);
       && InOrder(Delivered(x), wanted)
       && |Delivered(x)| + x.dropped == |wanted|
  }

  ghost predicate SubsInv(s: Client) {
    && s.subs <= s.subscribers.Keys
    && (s.closed ==> s.subs == {})
    && forall u :: u in s.subscribers ==> SubOk(s.subscribers[u], s.frames, u in s.subs)
  }

  lemma {:induction false} WantedSame(x: Subscriber, y: Subscriber, frames: seq<Frame>)
    requires x.session == y.session && x.name == y.name
    ensures Wanted(x, frames) == Wanted(y, frames)
  {
    if frames != [] {
      WantedSame(x, y, frames[..|frames| - 1]);
    }
  }

  /** Operations that neither add nor lose an event leave a subscriber's account balanced. */
  lemma SameAccount(x: Subscriber, y: Subscriber, frames: seq<Frame>, listed: bool)
    requires SubOk(x, frames, listed)
    requires x.session == y.session && x.name == y.name && x.from == y.from && x.until == y.until && x.dropped == y.dropped
    requires Delivered(x) == Delivered(y) && |y.buffer| <= |x.buffer| && y.faults == 0
    ensures SubOk(y, frames, !y.closed) || (x.closed && !y.closed)
  {
    WantedSame(x, y, frames[x.from..x.until]);
  }

  /** A closed channel sees nothing of later frames. */
  lemma ClosedSkips(x: Subscriber, frames: seq<Frame>, f: Frame)
    requires SubOk(x, frames, false)
    ensures SubOk(x, frames + [f], false)
  {
    assert (frames + [f])[x.from..x.until] == frames[x.from..x.until];
  }

  lemma SliceGrows(frames: seq<Frame>, f: Frame, from: nat)
    requires from <= |frames|
    ensures var seen := frames[from..|frames|];
            (frames + [f])[from..|frames| + 1] == seen + [f] && (seen + [f])[..|seen|] == seen
  {
  }

  /** The frame loop's effect on one subscribed channel. */
  lemma OpenSees(x: Subscriber, frames: seq<Frame>, f: Frame)
    requires SubOk(x, frames, true)
    ensures var y := x.(until := |frames| + 1);
            SubOk(if IsEvent(f) && Matches(y, f) then Offer(y, f) else y, frames + [f], true)
  {
    var y := x.(until := |frames| + 1);
    var z := if IsEvent(f) && Matches(y, f) then Offer(y, f) else y;
    var seen := frames[x.from..x.until];
    SliceGrows(frames, f, x.from);
    WantedSame(x, z, seen);
    InOrderTake(Delivered(x), Wanted(x, seen), f);
    if z.buffer != x.buffer {
      assert Delivered(z) == Delivered(x) + [f];
    }
  }

  /** `y` is `x` with events at most moved from the buffer to the reader, or the channel closed. */
  ghost predicate Carried(x: Subscriber, y: Subscriber, listed: bool) {
    && x.session == y.session && x.name == y.name
    && x.from == y.from && x.until == y.until && x.dropped == y.dropped && x.faults == y.faults
    && Delivered(x) == Delivered(y) && |y.buffer| <= |x.buffer|
    && (x.closed ==> y.closed) && (listed <==> !y.closed)
  }

  lemma TakeAt(s: Client, v: SubId, u: SubId)
    requires Enabled(s, TakeEvent(v)) && u in s.subscribers && (u in s.subs <==> !s.subscribers[u].closed)
    ensures var s' := Apply(s, TakeEvent(v)); u in s'.subscribers && Carried(s.subscribers[u], s'.subscribers[u], u in s'.subs)
  {
    if v == u {
      var x := s.subscribers[u];
      assert x.received + [x.buffer[0]] + x.buffer[1..] == x.received + x.buffer;
    }
  }

  lemma CancelAt(s: Client, v: SubId, u: SubId)
    requires Enabled(s, CancelSub(v)) && u in s.subscribers && (u in s.subs <==> !s.subscribers[u].closed)
    ensures var s' := Apply(s, CancelSub(v)); u in s'.subscribers && Carried(s.subscribers[u], s'.subscribers[u], u in s'.subs)
  {
  }

  lemma FailAt(s: Client, u: SubId)
    requires Enabled(s, ReadFails) && u in s.subscribers && (u in s.subs <==> !s.subscribers[u].closed)
    ensures var s' := Apply(s, ReadFails); u in s'.subscribers && Carried(s.subscribers[u], s'.subscribers[u], u in s'.subs)
  {
  }

  predicate TouchesSubs(t: Step) {
    t.Handle? || t.ReadFails? || t.TakeEvent? || t.CancelSub?
  }

  lemma ElseAt(s: Client, t: Step, u: SubId)
    requires Enabled(s, t) && !TouchesSubs(t) && u in s.subscribers
    ensures var s' := Apply(s, t); u in s'.subscribers && s'.subscribers[u] == s.subscribers[u] && (u in s'.subs <==> u in s.subs)
  {
  }

  lemma SubAt(s: Client, t: Step, u: SubId)
    requires Enabled(s, t) && u in s.subscribers && !t.Handle? && (u in s.subs <==> !s.subscribers[u].closed)
    ensures var s' := Apply(s, t); u in s'.subscribers && Carried(s.subscribers[u], s'.subscribers[u], u in s'.subs)
  {
    if t.TakeEvent? {
      TakeAt(s, t.s, u);
    } else if t.CancelSub? {
      CancelAt(s, t.s, u);
    } else if t.ReadFails? {
      FailAt(s, u);
    } else {
      ElseAt(s, t, u);
    }
  }

  lemma FramesKept(s: Client, t: Step)
    requires Enabled(s, t) && !t.Handle?
    ensures Apply(s, t).frames == s.frames
  {
  }

  lemma SubStep(s: Client, t: Step, u: SubId)
    requires SubsInv(s) && Enabled(s, t) && u in s.subscribers && !t.Handle?
    ensures SubOk(Apply(s, t).subscribers[u], Apply(s, t).frames, u in Apply(s, t).subs)
  {
    var x, y := s.subscribers[u], Apply(s, t).subscribers[u];
    assert SubOk(x, s.frames, u in s.subs);
    SubAt(s, t, u);
    FramesKept(s, t);
    SameAccount(x, y, s.frames, u in s.subs);
  }

  /** What handling a frame does to one channel. */
  lemma HandleAt(s: Client, f: Frame, u: SubId)
    requires s.reader.Reading? && u in s.subscribers && (u in s.subs <==> !s.subscribers[u].closed)
    ensures var x := s.subscribers[u];
            var y := x.(until := |s.frames| + 1);
            && u in Apply(s, Handle(f)).subscribers
            && Apply(s, Handle(f)).subscribers[u] ==
                 (if x.closed then x else if IsEvent(f) && Matches(y, f) then Offer(y, f) else y)
  {
  }

  lemma HandleSub(s: Client, f: Frame, u: SubId)
    requires SubsInv(s) && Enabled(s, Handle(f)) && u in s.subscribers
    ensures u in Apply(s, Handle(f)).subscribers
    ensures SubOk(Apply(s, Handle(f)).subscribers[u], s.frames + [f], u in s.subs)
  {
    var x := s.subscribers[u];
    assert SubOk(x, s.frames, u in s.subs);
    HandleAt(s, f, u);
    if u in s.subs {
      OpenSees(x, s.frames, f);
    } else {
      ClosedSkips(x, s.frames, f);
    }
  }

  lemma NewSub(s: Client, t: Step)
    requires SubsInv(s) && t.Subscribe? && Enabled(s, t)
    ensures SubOk(Apply(s, t).subscribers[t.s], s.frames, t.s in Apply(s, t).subs)
  {
    assert s.frames[|s.frames|..|s.frames|] == [];
  }

  lemma HandleSubs(s: Client, f: Frame)
    requires SubsInv(s) && Enabled(s, Handle(f))
    ensures SubsInv(Apply(s, Handle(f)))
  {
    var s' := Apply(s, Handle(f));
    assert s'.frames == s.frames + [f] && s'.subs == s.subs && s'.subscribers.Keys == s.subscribers.Keys;
    forall u | u in s'.subscribers
      ensures SubOk(s'.subscribers[u], s'.frames, u in s'.subs)
    {
      HandleSub(s, f, u);
    }
  }

  /** Subscribers appear only by Subscribe, and a closed client lists none. */
  lemma ListKept(s: Client, t: Step)
    requires s.subs <= s.subscribers.Keys && (s.closed ==> s.subs == {}) && Enabled(s, t) && !t.Handle?
    ensures var s' := Apply(s, t);
            && s'.subs <= s'.subscribers.Keys && (s'.closed ==> s'.subs == {})
            && forall u :: u in s'.subscribers && u !in s.subscribers ==> t.Subscribe? && u == t.s
  {
  }

  lemma SubsStep(s: Client, t: Step)
    requires SubsInv(s) && Enabled(s, t)
    ensures SubsInv(Apply(s, t))
  {
    if t.Handle? {
      HandleSubs(s, t.f);
    } else {
      var s' := Apply(s, t);
      FramesKept(s, t);
      ListKept(s, t);
      forall u | u in s'.subscribers
        ensures SubOk(s'.subscribers[u], s'.frames, u in s'.subs)
      {
        if u in s.subscribers {
          SubStep(s, t, u);
        } else {
          NewSub(s, t);
        }
      }
    }
  }

  lemma {:induction false} SubsRun(s: Client, run: seq<Step>)
    requires SubsInv(s) && Schedule(s, run)
    ensures SubsInv(After(s, run))
    decreases |run|
  {
    if run != [] {
      SubsStep(s, run[0]);
      SubsRun(Apply(s, run[0]), run[1..]);
    }
  }

  /** No schedule closes a subscriber channel twice or sends on a closed one. */
  lemma NoChannelFault(run: seq<Step>, u: SubId)
    requires Schedule(Init(), run) && u in After(Init(), run).subscribers
    ensures After(Init(), run).subscribers[u].faults == 0
    ensures u in After(Init(), run).subs <==> !After(Init(), run).subscribers[u].closed
  {
    SubsRun(Init(), run);
    assert SubOk(After(Init(), run).subscribers[u], After(Init(), run).frames, u in After(Init(), run).subs);
  }

  /**
   What a subscriber gets, read or still buffered: matching events of its subscription in order,
   and all of them exactly when its buffer was never full at the wrong moment.
   */
  lemma EventsInOrder(run: seq<Step>, u: SubId)
    requires Schedule(Init(), run) && u in After(Init(), run).subscribers
    ensures var s := After(Init(), run);
            var x := s.subscribers[u];
            && x.from <= x.until <= |s.frames|
            && var wanted := Wanted(x, s.frames[x.from..x.until]);
               && InOrder(Delivered(x), wanted)
               && (Delivered(x) == wanted <==> x.dropped == 0)
               && FairlyGot(x, Delivered(x), s.frames[x.from..x.until])
  {
    SubsRun(Init(), run);
    var s := After(Init(), run);
    var x := s.subscribers[u];
    assert SubOk(x, s.frames, u in s.subs);
    InOrderLength(Delivered(x), Wanted(x, s.frames[x.from..x.until]));
    GotFairly(x, Delivered(x), s.frames[x.from..x.until]);
  }

  /** The subscriber's buffer has room at every point of the run. */
  predicate AlwaysRoom(s: Client, run: seq<Step>, u: SubId)
    requires Schedule(s, run)
    decreases |run|
  {
    && (u in s.subscribers ==> |s.subscribers[u].buffer| < SUBSCRIBER_BUFFER)
    && (run != [] ==> AlwaysRoom(Apply(s, run[0]), run[1..], u))
  }

  lemma RoomDropsNothing(s: Client, t: Step, u: SubId)
    requires SubsInv(s) && Enabled(s, t)
    requires u in s.subscribers ==> |s.subscribers[u].buffer| < SUBSCRIBER_BUFFER && s.subscribers[u].dropped == 0
    ensures u in Apply(s, t).subscribers ==> Apply(s, t).subscribers[u].dropped == 0
  {
    if u in s.subscribers {
      assert SubOk(s.subscribers[u], s.frames, u in s.subs);
      if t.Handle? {
        HandleAt(s, t.f, u);
      } else {
        SubAt(s, t, u);
      }
    }
  }

  lemma {:induction false} RoomRun(s: Client, run: seq<Step>, u: SubId)
    requires SubsInv(s) && Schedule(s, run) && AlwaysRoom(s, run, u)
    requires u in s.subscribers ==> s.subscribers[u].dropped == 0
    ensures u in After(s, run).subscribers ==> After(s, run).subscribers[u].dropped == 0
    decreases |run|
  {
    if run != [] {
      SubsStep(s, run[0]);
      RoomDropsNothing(s, run[0], u);
      RoomRun(Apply(s, run[0]), run[1..], u);
    }
  }

  /** While the buffer never fills, a subscriber gets every matching event, in order. */
  lemma CompleteWhileRoom(run: seq<Step>, u: SubId)
    requires Schedule(Init(), run) && AlwaysRoom(Init(), run, u) && u in After(Init(), run).subscribers
    ensures var s := After(Init(), run);
            var x := s.subscribers[u];
            && x.from <= x.until <= |s.frames| && Delivered(x) == Wanted(x, s.frames[x.from..x.until])
            && x.dropped == 0 && FairlyGot(x, Delivered(x), s.frames[x.from..x.until])
  {
    RoomRun(Init(), run, u);
    EventsInOrder(run, u);
  }

  // ---------------------------------------------------------------- deliveries, on plain fields

  /** A notification of the subscriber's session, and of its method if it named one. */
  predicate Addressed(x: Subscriber, f: Frame) {
    f.id == 0 && f.name != "" && f.session == x.session && (x.name == "" || f.name == x.name)
  }

  ghost predicate Rising(p: seq<nat>) {
    forall a, b :: 0 <= a < b < |p| ==> p[a] < p[b]
  }

  /** `a` is read off `b` at the rising positions `p`. */
  ghost predicate ReadsOff<T>(a: seq<T>, b: seq<T>, p: seq<nat>) {
    Rising(p) && |p| == |a| && forall k :: 0 <= k < |p| ==> p[k] < |b| && b[p[k]] == a[k]
  }

  function CountAddressed(x: Subscriber, frames: seq<Frame>): nat {
    if frames == [] then 0
    else CountAddressed(x, frames[..|frames| - 1]) + if Addressed(x, frames[|frames| - 1]) then 1 else 0
  }

  lemma {:induction false} WantedAre(x: Subscriber, frames: seq<Frame>)
    ensures |Wanted(x, frames)| == CountAddressed(x, frames)
    ensures forall f :: f in Wanted(x, frames) ==> Addressed(x, f)
  {
    if frames != [] {
      WantedAre(x, frames[..|frames| - 1]);
    }
  }

  lemma {:induction false} AddressedIsWanted(x: Subscriber, frames: seq<Frame>, j: nat)
    requires j < |frames| && Addressed(x, frames[j])
    ensures frames[j] in Wanted(x, frames)
    decreases |frames|
  {
    var n := |frames| - 1;
    if j < n {
      AddressedIsWanted(x, frames[..n], j);
    }
  }

  lemma {:induction false} WantedPositions(x: Subscriber, frames: seq<Frame>) returns (p: seq<nat>)
    ensures ReadsOff(Wanted(x, frames), frames, p)
  {
    if frames == [] {
      p := [];
    } else {
      var n: nat := |frames| - 1;
      var q := WantedPositions(x, frames[..n]);
      p := if Addressed(x, frames[n]) then q + [n] else q;
    }
  }

  lemma {:induction false} InOrderPositions<T>(a: seq<T>, b: seq<T>) returns (p: seq<nat>)
    requires InOrder(a, b)
    ensures ReadsOff(a, b, p)
    decreases |b|
  {
    if a == [] {
      p := [];
    } else if InOrder(a, b[..|b| - 1]) {
      p := InOrderPositions(a, b[..|b| - 1]);
    } else {
      var q := InOrderPositions(a[..|a| - 1], b[..|b| - 1]);
      p := q + [|b| - 1];
    }
  }

  lemma ReadsOffTwice<T>(a: seq<T>, b: seq<T>, c: seq<T>, p: seq<nat>, q: seq<nat>) returns (r: seq<nat>)
    requires ReadsOff(a, b, p) && ReadsOff(b, c, q)
    ensures ReadsOff(a, c, r)
  {
    r := seq(|p|, k requires 0 <= k < |p| => q[p[k]]);
  }

  lemma InOrderMembers<T>(a: seq<T>, b: seq<T>, p: seq<nat>)
    requires ReadsOff(a, b, p)
    ensures forall f :: f in a ==> f in b
  {
    forall f | f in a
      ensures f in b
    {
      var k :| 0 <= k < |a| && a[k] == f;
      assert b[p[k]] == f;
    }
  }

  /**
   `got` was read off `seen` in order, each frame at most once, all notifications of `x`'s session
   and method; with nothing dropped it is all of them.
   */
  ghost predicate FairlyGot(x: Subscriber, got: seq<Frame>, seen: seq<Frame>) {
    && (exists p :: ReadsOff(got, seen, p))
    && (forall f :: f in got ==> f.id == 0 && f.name != "" && f.session == x.session && (x.name == "" || f.name == x.name))
    && (x.dropped == 0 ==> |got| == CountAddressed(x, seen))
    && (x.dropped == 0 ==> forall j :: 0 <= j < |seen| && Addressed(x, seen[j]) ==> seen[j] in got)
  }

  lemma GotFairly(x: Subscriber, got: seq<Frame>, seen: seq<Frame>)
    requires InOrder(got, Wanted(x, seen)) && (x.dropped == 0 ==> got == Wanted(x, seen))
    ensures FairlyGot(x, got, seen)
  {
    var wanted := WantedPositions(x, seen);
    var q := InOrderPositions(got, Wanted(x, seen));
    var p := ReadsOffTwice(got, Wanted(x, seen), seen, q, wanted);
    InOrderMembers(got, Wanted(x, seen), q);
    WantedAre(x, seen);
    forall j | 0 <= j < |seen| && Addressed(x, seen[j])
      ensures seen[j] in Wanted(x, seen)
    {
      AddressedIsWanted(x, seen, j);
    }
  }

  /** Over every run, for every subscriber, of the frames handled while it was subscribed. */
  lemma DeliveredAre(run: seq<Step>, u: SubId)
    requires Schedule(Init(), run) && u in After(Init(), run).subscribers
    ensures var s := After(Init(), run);
            var x := s.subscribers[u];
            && x.from <= x.until <= |s.frames| && (u in s.subs ==> x.until == |s.frames|)
            && FairlyGot(x, x.received + x.buffer, s.frames[x.from..x.until])
  {
    EventsInOrder(run, u);
    SubsRun(Init(), run);
    var s := After(Init(), run);
    assert SubOk(s.subscribers[u], s.frames, u in s.subs);
  }

  lemma KeptStep(s: Client, t: Step, u: SubId)
    requires SubsInv(s) && Enabled(s, t) && u in s.subscribers
    ensures u in Apply(s, t).subscribers
    ensures var x, y := s.subscribers[u], Apply(s, t).subscribers[u];
            y.session == x.session && y.name == x.name && y.from == x.from
  {
    assert SubOk(s.subscribers[u], s.frames, u in s.subs);
    if t.Handle? {
      HandleAt(s, t.f, u);
    } else {
      SubAt(s, t, u);
    }
  }

  lemma {:induction false} KeptRun(s: Client, run: seq<Step>, u: SubId)
    requires SubsInv(s) && Schedule(s, run) && u in s.subscribers
    ensures u in After(s, run).subscribers
    ensures var x, y := s.subscribers[u], After(s, run).subscribers[u];
            y.session == x.session && y.name == x.name && y.from == x.from
    decreases |run|
  {
    if run != [] {
      SubsStep(s, run[0]);
      KeptStep(s, run[0], u);
      KeptRun(Apply(s, run[0]), run[1..], u);
    }
  }

  /** A subscription is to the session and method it was made for, from the frame after it was made, in every later state. */
  lemma SubscriptionKept(before: seq<Step>, u: SubId, session: string, name: string, after: seq<Step>)
    requires Schedule(Init(), before) && Enabled(After(Init(), before), Subscribe(u, session, name))
    requires Schedule(Apply(After(Init(), before), Subscribe(u, session, name)), after)
    ensures var s := After(Init(), before);
            var s' := After(Apply(s, Subscribe(u, session, name)), after);
            && u in s'.subscribers && s'.subscribers[u].session == session && s'.subscribers[u].name == name
            && s'.subscribers[u].from == |s.frames|
  {
    var s := After(Init(), before);
    SubsRun(Init(), before);
    SubsStep(s, Subscribe(u, session, name));
    KeptRun(Apply(s, Subscribe(u, session, name)), after, u);
  }

  // ---------------------------------------------------------------- pipe framing

  /** WriteMessage: the bytes, then a NUL (cdp.go:41-49). */
  function Framed(msgs: seq<seq<nat>>): seq<nat> {
    if msgs == [] then [] else msgs[0] + [0] + Framed(msgs[1..])
  }

  /** Bytes up to the first NUL, or |s| if there is none. */
  function NulAt(s: seq<nat>): nat
    ensures NulAt(s) <= |s|
    ensures forall i :: 0 <= i < NulAt(s) ==> s[i] != 0
    ensures NulAt(s) < |s| ==> s[NulAt(s)] == 0
  {
    if s == [] || s[0] == 0 then 0 else 1 + NulAt(s[1..])
  }

  /** Repeated ReadMessage until the stream ends; an unterminated rest is an error, not a message. */
  function Unframed(s: seq<nat>): seq<seq<nat>>
    decreases |s|
  {
    var n := NulAt(s);
    if n == |s| then [] else [s[..n]] + Unframed(s[n + 1..])
  }

  predicate NulFree(m: seq<nat>) {
    forall i :: 0 <= i < |m| ==> m[i] != 0
  }

  /** Framing loses and merges nothing, exactly when no message contains a NUL. */
  lemma {:induction false} FramingRoundTrip(msgs: seq<seq<nat>>)
    ensures Unframed(Framed(msgs)) == msgs <==> forall m :: m in msgs ==> NulFree(m)
  {
    if msgs != [] {
      var m, rest := msgs[0], msgs[1..];
      var stream := Framed(msgs);
      assert stream == m + [0] + Framed(rest);
      var n := NulAt(stream);
      assert stream[|m|] == 0;
      assert n <= |m|;
      if NulFree(m) {
        assert forall i :: 0 <= i < |m| ==> stream[i] == m[i];
        assert n == |m|;
        assert stream[n + 1..] == Framed(rest);
        assert stream[..n] == m;
        FramingRoundTrip(rest);
        assert Unframed(stream) == [m] + Unframed(Framed(rest));
        if Unframed(stream) == msgs {
          assert Unframed(stream)[1..] == Unframed(Framed(rest));
        }
        assert msgs == [m] + rest;
      } else {
        var i :| 0 <= i < |m| && m[i] == 0;
        assert stream[i] == 0;
        assert n <= i;
        assert Unframed(stream)[0] == stream[..n];
        assert |Unframed(stream)[0]| < |m|;
        assert m in msgs;
      }
    }
  }

  /** A message that is a single NUL is read back as two empty ones. */
  lemma NulSplitsMessage()
    ensures Unframed(Framed([[0]])) == [[], []]
  {
    assert Framed([[0]]) == [0, 0] by {
      assert [[0]][1..] == [];
    }
    assert [0, 0][1..] == [0] && [0][1..] == [];
    assert Unframed([0]) == [[]];
  }
}
