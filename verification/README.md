# Tab Router: a verified model

Tab Router runs several browser identities side by side and makes one promise about them: each
identity sends traffic only through its own verified exit, and nothing flows while that exit is
not verified. This project models the components that carry the promise and proves it of them,
over every interleaving, every run and every input.

| file | component |
|---|---|
| `Gate.dfy`, `GateServer.dfy`, `BoundedLog.dfy` | the fail-closed gate, its CONNECT server, the bounded event log |
| `Startup.dfy` | start-up: routes, shared exits, browsers, checks V1 to V3 and V7, READY or teardown |
| `RouteLifecycle.dfy` | after READY: probes, re-establishment, stop, start, announcements |
| `Socks5Text.dfy`, `Socks5Target.dfy`, `Socks5Handshake.dfy`, `Socks5AnyPeer.dfy`, `Socks5Conn.dfy` | SOCKS5: addresses, destinations, the handshake of client and server, each with any peer, the same on a connection |
| `Cdp.dfy` | the DevTools multiplexer |
| `ActivationStore.dfy` | licences, seats, rotating tokens |
| `DecodoSlots.dfy`, `DecodoUsername.dfy` | sticky session slots, their file, upstream usernames |
| `Mullvad.dfy` | the relay picker |
| `ProcessTree.dfy` | the process-tree worklist and the order of signals |
| `Common.dfy`, `Decimal.dfy` | options, trimming, decimal notation |

How the main results fit together:

- `Startup.Session.Run` ends either torn down or in `ReadyState`; `RouteLifecycle.ReadySession`
  starts from exactly that state and keeps the promise over every later run. What "gate closed"
  means for sockets under concurrency is `GateServer.FailClosed`.
- Components that the source updates in place are classes or methods (`Gate`, `Monitor`, `Session`,
  `Store`, `Decodo`, `Allocator`, the SOCKS5 connection code, the loops of the multiplexer and of
  the process tree), each proved against functions on values; the claims over runs are lemmas about
  those functions. Concurrent code (`GateServer`, `Cdp`) is a step relation over the state that the
  goroutines share.
- Claims one might expect and that are false of the code come as a pair: the exact condition under
  which they hold, and an input the code can reach where they fail.

  | claim | holds exactly when | fails at |
  |---|---|---|
  | nothing goes upstream after Close has returned | nothing is in flight, as when ActiveConnections is zero: `GateServer.SilentExactlyWhen` | `GateServer.ChunkOutlivesClose` |
  | an open gate has read its pin last, throughout a run | each route.start met a closed gate or the pin: `RouteLifecycle.ReadyStaysSafe` | `RouteLifecycle.StartOnOpenGateFails` |
  | a Down subject is closed, throughout a run | no route.start was accepted for a Down subject: `RouteLifecycle.DownClosedExactlyWhen` | `RouteLifecycle.StartReopensDownSubject` |
  | a failed Activate changes nothing | `ActivationStore.ActivateNoOpExactlyWhen` | `ActivationStore.NoProxyTakesSeat` |
  | EventsSince gives all events since the cursor | `BoundedLog.GenuineCursor` | `Gate.FullLogMissesNext` |
  | a destination is relayed as the same bytes | `Socks5Target.RelayExactlyWhen` | `Socks5Target.BracketedNameLosesBrackets` |
  | NUL framing is lossless | `Cdp.FramingRoundTrip` | `Cdp.NulSplitsMessage` |
  | the process-tree loop ends | `ProcessTree.LoopEndsExactlyWhen` | `ProcessTree.CycleNeverEnds` |
  | provisioned Decodo sessions differ | those of the live slots do: `DecodoSlots.EnsuredDifferExactlyWhen` | `DecodoSlots.SharedSessionSurvives` |
  | they dial with different upstream users | those of the live slots do, blanks aside: `DecodoSlots.Decodo.Provision` | `DecodoSlots.PaddedSessionsShareUser` |

  One more holds under a discipline of the caller and fails without it: live tunnels use the gate's
  route (`GateServer.LiveTunnelsUseTheGatesRoute`, `GateServer.SwapWhileOpenMixesRoutes`). The
  DevTools client itself writes JSON text, which has no NUL, so a lossy frame can only come from
  the browser.

Assumptions:

- Network answers, provisioner answers, clock readings, browser observations and write failures are
  inputs of the steps. Each probe, re-establishment and enable call is one step, as is each locked
  section of the concurrent components.
- Random ids and tokens are fresh (`FreshInputs`, `FreshIds`, and `NewUnder`: a new session id
  differs from every known session, blanks aside), `hashSecret` is injective (`Digest`
  keeps its argument), and time does not go backwards (`RunOk` in `ActivationStore`).
- `net.ParseIP` and `net.IP.String` are any pair of functions that agree with each other as
  `Socks5Text.Lawful` says; a lawful pair is exhibited. `net.JoinHostPort`, `net.SplitHostPort` and
  `strconv.Atoi` are written out. Text trimming and case mapping are those of ASCII.
- A SOCKS5 dial that fails has a non-zero reply code, as `replyCodeFor` guarantees.
- An identity's route slot is its index, from 1 on, and distinct from the others
  (`controller/identity/identity.go`); configuration admits no session without identities
  (`controller/config/config.go`).
- A chunk is what one read of the pipe's copier takes; a write to a socket that is still open is one
  step, and a write to a closed client socket fails.
- A Decodo state file is touched by one process at a time; times count from the zero time.

Where documentation and code differ the code is modelled: an `EventCount` cursor can miss events
once the log is trimmed, and `route.start` on an open gate marks a route DOWN without closing the
gate.

## Model

| member | source | states |
|---|---|---|
| `BoundedLog.AppendAllIsTail` | routing/provider/gate.go:118-129 | over every recording run the kept log is the newest min(max, n) of the n events recorded |
| `BoundedLog.GenuineCursor` | routing/provider/gate.go:118-158 | a cursor from EventCount never meets the reset case; EventsSince then gives a suffix of the later events, its exact length, and all of them if and only if the log has not outgrown the buffer or nothing was recorded since |
| `Gate.Server.Track` | routing/socks5/server.go:97-105 | a connection is admitted to the table if and only if the server is not closed |
| `Gate.Server.Untrack` | routing/socks5/server.go:107-112 | exactly that connection leaves the table, its socket closed |
| `Gate.Server.CloseConnections` | routing/socks5/server.go:114-126 | after snapshot and closing loop no tracked connection is live, and the table is unchanged |
| `Gate.Gate.constructor` | routing/provider/gate.go:40-53 | a new gate is closed and has recorded nothing |
| `Gate.Gate.Close` | routing/provider/gate.go:100-104 | the flag is cleared and every tracked connection is closed |
| `Gate.Gate.Record` | routing/provider/gate.go:118-129 | the event is appended to the history and the buffer remains the newest 4096 of it |
| `Gate.Gate.EventCount` | routing/provider/gate.go:140-146 | the cursor is the length of the kept part of the history |
| `Gate.Gate.EventsSince` | routing/provider/gate.go:149-158 | the kept events from the cursor on, everything for a cursor out of range |
| `Gate.Gate.SucceededSince` | controller/verify/verify.go:513-520 | a positive answer names a success recorded after the cursor was taken; a negative one is conclusive while the log fits the buffer |
| `Gate.FullLogMissesNext` | routing/provider/gate.go:118-158 | a cursor taken at 4096 events does not see the next one |
| `GateServer.InvStep` | routing/socks5/server.go:77-210 | every atomic step of acceptor, handlers, Open, Close, SetRoute and Shutdown keeps the invariant that a Close's snapshot misses nobody past Refuse |
| `GateServer.CloseLeavesQuiet` | routing/provider/gate.go:98-104 | under every interleaving, when a Close has returned and no Open came since it cleared the flag, no connection past its Refuse check has a live client socket |
| `GateServer.QuietUntilOpen` | routing/socks5/server.go:155-210 | from such a state, over any schedule without Open: it stays quiet, whoever is past Refuse was already, successes are recorded only for those, no client is told of success or given a byte, and what goes upstream plus what is still in flight never exceeds the chunks in flight at the start |
| `GateServer.OneChunkEach` | routing/socks5/server.go:309-324 | of each connection at most the one chunk its copier had read and not yet written still goes upstream |
| `GateServer.ClientsAreCutOff` | routing/socks5/server.go:309-324 | no step of such a schedule reads from a client, writes to one or sends a success reply |
| `GateServer.FailClosed` | routing/provider/gate.go:97-104 | all of this for every schedule from start-up split where a Close has returned, with later accepts refused |
| `GateServer.SilentExactlyWhen` | routing/socks5/server.go:309-324 | after a returned Close some schedule without Open still uploads if and only if a chunk is in flight, and none does once ActiveConnections is zero |
| `GateServer.UploadsExactlyWhen` | routing/socks5/server.go:309-324 | the same of every quiet state |
| `GateServer.ChunkOutlivesClose` | routing/socks5/server.go:309-324 | a schedule in which a chunk read before Close is written upstream after Close has returned, so the bound is reached |
| `GateServer.RecordedBeforeReply` | routing/socks5/server.go:202-207 | every client that was ever told of success has its event on record, also after its handler has returned, and in the gate's buffer exactly while it is among the newest 4096 |
| `GateServer.AnswerOf` | routing/socks5/server.go:181-204 | another command is answered 7, a request at a closed flag 1, a failed dial with its code, a connected one 0 |
| `GateServer.AnswerIsRecorded` | routing/socks5/server.go:212-219 | however the steps interleave, that answer stays the connection's until it is recorded, and exactly it is recorded |
| `GateServer.ClosedAdmitsNone` | routing/socks5/server.go:77-105 | a closed server tracks no further connection over any later run |
| `GateServer.ShutdownIsFinal` | routing/socks5/server.go:135-153 | a Shutdown that did the work leaves no handler and no socket, whatever is called later, Open included |
| `GateServer.MaySwapIsQuiet` | controller/startup/session.go:704-741 | a caller that has not opened the gate yet, or whose Close has returned with no Open since, faces no live connection past Refuse |
| `GateServer.LiveTunnelsUseTheGatesRoute` | routing/provider/gate.go:40-95 | when callers swap routes only then, every live tunnel runs on the route the gate names |
| `GateServer.SwapWhileOpenMixesRoutes` | routing/provider/gate.go:89-95 | a schedule in which a swap on an open gate leaves a live tunnel on the old route |
| `Startup.SharedIndexMeans` | controller/startup/session.go:428-441 | sharedExit finds nothing if and only if all known addresses are pairwise distinct, and otherwise the first subject whose address an earlier one has |
| `Startup.SharedExit` | controller/startup/session.go:428-441 | the seen-map loop returns the first subject whose address an earlier one has |
| `Startup.DistinctAreUnshared` | controller/startup/session.go:428-441 | on addresses alone: nothing is shared if and only if they differ pairwise, so no draw is needed |
| `Startup.SeparateSharedExits` | controller/startup/session.go:379-426 | ends for any addresses the network returns; each slot is replaced at most once and, with distinct slots, never the first subject's, so at most N-1; other subjects are untouched and a replaced one is on the route, gate and address its draw gave; it succeeds if and only if drawing new addresses for shared ones, once each, makes them differ; on success all known addresses are pairwise distinct; no collision means no call |
| `Startup.V3Separation` | controller/verify/verify.go:234-270 | passes if and only if every browser address is known, off the host when compared, and pairwise distinct |
| `Startup.EgressExactly` | controller/verify/verify.go:194-230 | V2 on all subjects followed by V3 passes if and only if the addresses the browsers saw exist, avoid the host and differ |
| `Startup.DrillExactly` | controller/verify/verify.go:426-491 | V7 on all subjects followed by V3 passes if and only if every drill blocked, leaked nothing, resumed with a gate CONNECT, and the resumed addresses avoid the host and differ |
| `Startup.DrilledIsReady` | controller/verify/verify.go:426-491 | after a passing V7 and V3: BrowserIP and RouteIP are the address of the resume, pairwise distinct and off the host, gates open, routes READY |
| `Startup.BroughtUpAddresses` | controller/startup/session.go:314-374 | bringUpRoute passes if and only if the route or its one replacement starts and answers; the pinned address is the re-read one, else the second, else the first |
| `Startup.BroughtUpRoutes` | controller/startup/session.go:314-374 | a subject comes up, gate and all, on the replacement exactly when its own route did not answer and a replacement was obtained and started, otherwise on its provisioned route; no gate is open |
| `Startup.SeparatedRoutes` | controller/startup/session.go:379-426 | after the exits are separated it is on that route, or on the one drawn for its slot |
| `Startup.Session.Abort` | controller/startup/session.go:623-657 | afterwards no gate is open, no browser lives, the set lock is free and every route is stopped |
| `Startup.Session.BuildSubjects` | controller/startup/session.go:157-169 | one closed gate per identity on the route of its slot; succeeds if and only if there are enough routes and every gate listens |
| `Startup.Session.LaunchAll` | controller/startup/session.go:211-242 | a gate is open afterwards exactly when its browser launched |
| `Startup.Session.VerifyAll` | controller/startup/session.go:477-585 | passes if and only if the observations do (V2, V3, V4 to V6, V7, V3 again, V8), and then the state is ReadyState |
| `Startup.Session.Prepare` | controller/startup/session.go:75-209 | succeeds if and only if set-up, provisioning, every route and the separation of exits do, with the named failure otherwise and nothing left running; success means all gates closed, all routes READY, each subject on the route it came up on or drew, on pairwise distinct addresses when sessions can be replaced |
| `Startup.Session.Run` | controller/startup/session.go:75-304 | READY if and only if every step passes and the exits can be separated, and then only in ReadyState, off the host's address when compared, each subject on the route it came up on or drew; every error leaves no open gate, live browser or held lock and names the first step that failed |
| `RouteLifecycle.Monitor.Emit` | controller/health/health.go:153-163 | the kept log stays the newest 500 events ever emitted |
| `RouteLifecycle.Monitor.TryReestablish` | controller/startup/session.go:704-749 | gate closed first; the route is swapped if and only if it is provisioned, started, reads the pinned address (or pins a first one) and no other subject holds it |
| `RouteLifecycle.Monitor.ProbeSubject` | controller/health/health.go:195-290 | one probe, step by step, changes exactly its subject and emits exactly its events as the step function says |
| `RouteLifecycle.ProbeNotDue` | controller/health/health.go:214-218 | a probe that reaches the upstream before the next check changes nothing |
| `RouteLifecycle.ProbeReadsOther` | controller/health/health.go:231-241 | a due check that reads another address than the pin ends Down, gate closed, alerted; blocked is announced if it was not Down, EgressChanged if it was not alerted |
| `RouteLifecycle.ProbeReadsPin` | controller/health/health.go:242-254 | a due check that reads the pin ends READY; a Down subject is restored with its gate open |
| `RouteLifecycle.ProbeFails` | controller/health/health.go:208-230 | an unreachable upstream, no answer, or a route that does not dial closes the gate; after reestablishAfter the path is re-established if and only if the attempt is restorable, otherwise that is reported |
| `RouteLifecycle.ProbeIsOneOf` | controller/health/health.go:195-254 | those four cases are all there are |
| `RouteLifecycle.ReestablishMeans` | controller/startup/session.go:704-749 | the gate is closed first; subject and gate move to the new route exactly on a restorable attempt |
| `RouteLifecycle.NextMeans` | controller/health/health.go:195-290 | a step touches its own subject only, tags its events with it, and sees a clash exactly where another subject holds the address read |
| `RouteLifecycle.Monitor.SetRouteEnabled` | controller/startup/session.go:798-823 | stop and start change exactly their subject as the step function says |
| `RouteLifecycle.SwitchMeans` | controller/startup/session.go:798-823 | stop closes the gate and puts the route DOWN; start ends READY and open on the pinned or a first address, else DOWN with the gate as it was; the browser's exit closes the gate; a leak is only reported |
| `RouteLifecycle.ActKeepsPin` | controller/health/health.go:195-290 | no step moves a pin or puts gate and subject on different routes |
| `RouteLifecycle.ActKeeps` | controller/health/health.go:195-290 | a step leaves open gates only on READY routes whose last address read is the pin, if and only if it is not a route.start on an open gate that read something else |
| `RouteLifecycle.StartKeepsExactlyWhen` | controller/startup/session.go:808-822 | route.start keeps that claim if and only if the gate was closed or the pinned address answers |
| `RouteLifecycle.StartKeepsDownClosedExactlyWhen` | controller/startup/session.go:808-822 | route.start keeps "Down means closed" if and only if the subject is not Down or the read is refused |
| `RouteLifecycle.StartOnOpenGateFails` | controller/startup/session.go:808-817 | from READY, a route.start that gets no answer leaves the gate open on a DOWN route |
| `RouteLifecycle.StartReopensDownSubject` | controller/startup/session.go:808-822 | from READY, a failed probe and a route.start leave a Down subject with an open gate |
| `RouteLifecycle.ReopensOnlyOnPinnedAddress` | controller/health/health.go:231-254 | a closed gate opens only by a recovery probe or a route.start that read the pinned address |
| `RouteLifecycle.PinsStay` | controller/health/health.go:195-290 | over every run, any route.start included, pins never change and gates and subjects name the same route |
| `RouteLifecycle.SafeExactlyWhen` | controller/startup/session.go:798-823 | open gates stay verified throughout a run if and only if each route.start met a closed gate or read the pin |
| `RouteLifecycle.ReadyStaysSafe` | controller/health/health.go:195-270 | from READY over every run: pins never change, stay pairwise distinct and off the host, gates and subjects name the same route, and open gates have read their pin last throughout under exactly that condition |
| `RouteLifecycle.DownClosedExactlyWhen` | controller/startup/session.go:808-822 | Down means closed throughout a run if and only if no route.start of a Down subject read an acceptable address |
| `RouteLifecycle.DownStaysClosed` | controller/health/health.go:195-290 | over every monitor run Down implies a closed gate and status DOWN or VERIFYING, and an egress alert implies Down |
| `RouteLifecycle.AnnouncementsAlternate` | controller/health/health.go:195-290 | over every run, any route.start included, blocked and restored events alternate per subject, blocked first, and at most one EgressChanged lies between restores |
| `RouteLifecycle.AlternationMeans` | controller/health/health.go:242-270 | between two equal announcements of a subject lies the opposite one |
| `RouteLifecycle.AlertsOnceMeans` | controller/health/health.go:231-254 | between two EgressChanged events of a subject lies a restored one |
| `RouteLifecycle.ReadySession` | controller/health/health.go:95-123 | all of these for a monitor started on the subjects start-up reported READY |
| `Socks5Text.JoinSplit` | routing/socks5/socks5.go:66 | host:port text splits back into its parts if and only if the host has no bracket |
| `Socks5Text.SplitBrackets` | routing/socks5/socks5.go:135-145 | what splitting makes of every host with brackets |
| `Socks5Target.DecodeEncoded` | routing/socks5/socks5.go:70-133 | readTarget inverts appendTarget, leaving any bytes that follow untouched |
| `Socks5Target.AppendIsWire` | routing/socks5/socks5.go:111-133 | encoding fails if and only if the port is out of range or a name is empty or over 255 bytes; otherwise it is the field of section 5 of RFC 1928 |
| `Socks5Target.DestinationBytes` | routing/socks5/socks5.go:111-133 | the bytes as numbers: type 1, 3 or 4, a length for names, the port in network order |
| `Socks5Target.DecodedIsWire` | routing/socks5/socks5.go:70-109 | whatever decodes is such a field followed by the reported rest |
| `Socks5Target.TargetMeansSame` | routing/socks5/socks5.go:111-133 | the destination read back denotes the host asked for, names byte for byte |
| `Socks5Target.EncodingsArePrefixFree` | routing/socks5/socks5.go:111-133 | no encoding is a proper prefix of another, and equal encodings name equal destinations |
| `Socks5Target.DecodeExtends` | routing/socks5/socks5.go:70-109 | a decided decoding does not depend on bytes that arrive later |
| `Socks5Target.RelayExactlyWhen` | routing/socks5/socks5.go:66-145 | a received destination leaves again as the same bytes if and only if it is IPv4, a non-mapped IPv6 address, or a non-empty, bracket-free name that is no address literal |
| `Socks5Target.RelayRetypes` | routing/socks5/socks5.go:66-145 | what the others become: mapped IPv6 leaves as IPv4, a literal sent as a name as its address type, a colon-free name inside one pair of brackets as what is inside; an empty name and every other bracket are refused |
| `Socks5Target.BracketedNameLosesBrackets` | routing/socks5/socks5.go:66-145 | the name [x] is dialled as x |
| `Socks5Handshake.ClientContinues` | routing/socks5/client.go:58-129 | more received bytes only extend what the client sent, and never change a verdict |
| `Socks5Handshake.ServerContinues` | routing/socks5/server.go:155-286 | the same of the server |
| `Socks5Handshake.TranscriptSettles` | routing/socks5/client.go:58-129 | the exchange written out from RFC 1928 and RFC 1929 is a fixed point of both peers, with tunnels on both sides if and only if the configurations agree |
| `Socks5Handshake.QuiescentIsTranscript` | routing/socks5/server.go:155-286 | with nothing in flight, exactly that exchange has taken place |
| `Socks5Handshake.SoundRun` | routing/socks5/server.go:155-286 | every run delivers a prefix of that exchange |
| `Socks5Handshake.EveryRunIsHonest` | routing/socks5/client.go:58-129 | at every point of every fragmentation and interleaving: a client tunnel implies agreement and a server tunnel to the destination asked for; a client error or a server close implies disagreement; a finished server has no unread byte |
| `Socks5Handshake.GoesOn` | routing/socks5/client.go:58-129 | a run can continue exactly while the exchange is incomplete, and has at most as many deliveries as the exchange has bytes |
| `Socks5Handshake.HandshakeOutcome` | routing/socks5/server.go:155-286 | every run that comes to rest is in tunnel state on both sides if and only if auth modes match, credentials fit and are accepted, the destination is encodable, Refuse is false and the dial succeeds; the server's target is then the client's and no handshake byte is unread; otherwise the client has an error |
| `Socks5Conn.Conn.ReadFull` | routing/socks5/socks5.go:72-75 | reads depend only on the concatenation of the chunks the network delivers |
| `Socks5Conn.ReadTarget` | routing/socks5/socks5.go:70-109 | field-by-field reading equals decoding the stream, for every fragmentation and on early end |
| `Socks5Conn.Handshake` | routing/socks5/client.go:58-108 | writes exactly what the client function sends on the received stream and succeeds exactly when it reaches the tunnel |
| `Socks5Conn.UserPass` | routing/socks5/client.go:110-129 | the same from the credentials on |
| `Socks5Conn.Offered` | routing/socks5/server.go:237-243 | the method search finds the wanted method if and only if it was offered |
| `Socks5Conn.Negotiate` | routing/socks5/server.go:221-255 | the same as the server function from the method list on |
| `Socks5Conn.Authenticate` | routing/socks5/server.go:257-280 | the same as the server function from the credentials on |
| `Socks5AnyPeer.RequestAnswered` | routing/socks5/server.go:155-210 | for any peer with the required method and accepted credentials: a command other than 1 ends closed with reply 7 whatever gate and dial say, a refusing gate with 1, an unknown type or a stream that ends inside the destination with 8, else with what the dial gives, and a tunnel if that is 0 |
| `Socks5AnyPeer.NotEntitledIsClosed` | routing/socks5/server.go:221-280 | without the required method the peer gets 255, with rejected credentials 1, and is closed |
| `Socks5AnyPeer.OtherVersionIsClosed` | routing/socks5/server.go:226-228 | another version, at the greeting or the request, is closed without a word |
| `Socks5AnyPeer.TunnelExactlyWhen` | routing/socks5/server.go:155-286 | for any bytes from any peer the server tunnels to a destination if and only if they open with version 5, the required method, accepted credentials, version 5, command 1 and that destination, the gate is open and the dial succeeds |
| `Socks5AnyPeer.RefuseMeansNoTunnel` | routing/socks5/server.go:186-190 | a refusing gate tunnels for no peer |
| `Socks5AnyPeer.FirstBytes` | routing/socks5/client.go:58-68 | the client offers exactly one method, credentials if and only if it has a user name or a password |
| `Socks5AnyPeer.ConversationDecides` | routing/socks5/client.go:58-129 | against any peer that completes the conversation the client has sent the bytes of the standards, and tunnels exactly when the code is 0 and a bound address follows |
| `Socks5AnyPeer.ClientGivesUp` | routing/socks5/client.go:76-92 | another method, rejected or oversized credentials or an unusable destination is an error |
| `Socks5AnyPeer.ClientWasTold` | routing/socks5/client.go:58-129 | a client that tunnels has received exactly such a conversation |
| `Socks5Conn.Handle` | routing/socks5/server.go:155-210 | against any peer, writes exactly what the server function sends (plus the address-type reply when the stream ends inside a destination) and yields a destination exactly when it tunnels, which is only when it was asked for by an entitled peer's CONNECT |
| `Cdp.DispatchLoop` | controller/browser/cdp.go:134-143 | in any order, exactly the open subscribers of the event's session, and of its method or of none, get it, or count it as dropped when 256 are waiting |
| `Cdp.FailLoop` | controller/browser/cdp.go:147-163 | failing the pending calls in any order sends each exactly one error |
| `Cdp.CallsStep` | controller/browser/cdp.go:108-224 | every step of callers, read loop and failure path keeps the invariant on every call |
| `Cdp.WaitingCallIsServed` | controller/browser/cdp.go:180-224 | in every interleaving a waiting call is pending on a live client, or about to be sent its answer, or has one message queued; after failure it can always receive |
| `Cdp.SendsNeverBlock` | controller/browser/cdp.go:108-163 | each call's channel gets at most one message, so no send blocks |
| `Cdp.ReplyIsFirstWithId` | controller/browser/cdp.go:180-224 | a returned reply is the first frame with the call's id read after registration; a connection-closed error means there was none |
| `Cdp.FailedStaysFailed` | controller/browser/cdp.go:147-163 | after fail nothing is ever pending again and no frame is handled |
| `Cdp.SubsStep` | controller/browser/cdp.go:133-163 | every step keeps each subscriber's account of matching, delivered and dropped events |
| `Cdp.NoChannelFault` | controller/browser/cdp.go:228-247 | no interleaving of events, cancel and fail closes a channel twice or sends on a closed one |
| `Cdp.EventsInOrder` | controller/browser/cdp.go:133-163 | a subscriber gets notifications of its own session and method only, in order and each once, and all of them if and only if none was dropped |
| `Cdp.DeliveredAre` | controller/browser/cdp.go:133-163 | the same on plain fields over every run, of the frames handled while it was subscribed |
| `Cdp.SubscriptionKept` | controller/browser/cdp.go:228-247 | a subscription stays to the session and method it was made for, from the frame after it was made |
| `Cdp.CompleteWhileRoom` | controller/browser/cdp.go:133-144 | while its 256-slot buffer never fills it gets every matching event |
| `Cdp.FramingRoundTrip` | controller/browser/cdp.go:33-49 | NUL framing loses and merges nothing if and only if no message contains a NUL |
| `Cdp.NulSplitsMessage` | controller/browser/cdp.go:33-49 | a message that is one NUL is read back as two empty messages |
| `ActivationStore.Store.CountActive` | controller/activation/backend/store.go:293-301 | the loop counts exactly the active installations of the licence |
| `ActivationStore.Store.IssueLicense` | controller/activation/backend/store.go:100-120 | without a key nothing changes; otherwise exactly the normalised licence is appended, kept in memory even when persisting fails |
| `ActivationStore.Store.RevokeLicense` | controller/activation/backend/store.go:123-139 | revokes exactly the licences with that id or that key's hash; the error is InvalidKey if and only if there is none, and then nothing changes |
| `ActivationStore.RevokeMarks` | controller/activation/backend/store.go:123-139 | each licence with that id or key is marked and otherwise as before, every other one is unchanged |
| `ActivationStore.RevokedRefusesActivate` | controller/activation/backend/store.go:123-160 | after Revoke by key or by id, Activate with the key of that licence fails as revoked |
| `ActivationStore.IssueActivateRevoke` | controller/activation/backend/store.go:100-160 | a licence issued under a new key has at least one seat, can be activated with that key unless expired, and not after the key is revoked |
| `ActivationStore.ActivateSeats` | controller/activation/backend/store.go:161-190 | activating again for an active installation of the licence takes no further seat, otherwise exactly one |
| `ActivationStore.ValidateTouches` | controller/activation/backend/store.go:209-242 | an accepted Validate notes the time on its installation, a refused one changes nothing |
| `ActivationStore.DeactivatedIsRefused` | controller/activation/backend/store.go:209-254 | a deactivated installation is refused at once |
| `ActivationStore.MissingExactlyWhen` | controller/activation/backend/store.go:303-315 | proxy credentials are missing if and only if licence and fallback both lack one of them |
| `ActivationStore.KeySeparators` | controller/activation/backend/store.go:333-338 | spaces and dashes in a key do not matter |
| `ActivationStore.KeyCase` | controller/activation/backend/store.go:333-338 | nor does case |
| `ActivationStore.KeyBlanks` | controller/activation/backend/store.go:333-338 | nor do blanks around it |
| `ActivationStore.Store.ActivateInstallation` | controller/activation/backend/store.go:150-207 | the new state and every error, including the seat taken or token rotated by a call that then fails; the grant has the licence's own proxy credentials where it has them, else the fallback's |
| `ActivationStore.Store.ValidateInstallation` | controller/activation/backend/store.go:209-242 | the checks in order, the touched installation, every error, and the same rule for the credentials |
| `ActivationStore.Store.DeactivateInstallation` | controller/activation/backend/store.go:244-254 | a valid pair is released, every other call reports why |
| `ActivationStore.StepRefines` | controller/activation/backend/store.go:100-254 | every operation, failed ones included, keeps the store true to the history of issues, seats, rotations, revocations and releases |
| `ActivationStore.ValidateMeans` | controller/activation/backend/store.go:209-242 | Validate accepts if and only if the history authorises the pair, and each error has its own history condition |
| `ActivationStore.UsableMeans` | controller/activation/backend/store.go:283-291 | a licence is usable if and only if it was never revoked and has not expired |
| `ActivationStore.StoreRefinesHistory` | controller/activation/backend/store.go:209-242 | from an empty store after any run: accepted if and only if the token is the latest minted for the id, the id never deactivated, its licence never revoked and unexpired |
| `ActivationStore.LossIsPermanent` | controller/activation/backend/store.go:123-254 | over every later run a deactivated installation, or one whose licence was revoked or has expired, is refused with every token, later ones included, and a superseded token is refused too |
| `ActivationStore.RefusedForever` | controller/activation/backend/store.go:209-242 | the same of Validate on the store itself, after any two successive runs from an empty store |
| `ActivationStore.RefusedTokenStaysRefused` | controller/activation/backend/store.go:209-242 | a minted token that Validate refuses once is refused after every later run |
| `ActivationStore.NothingMoreGranted` | controller/activation/backend/store.go:150-207 | over every later run a revoked or expired licence seats nobody and renews no token of its installations, and a deactivated installation gets no token |
| `ActivationStore.DeadLicenceIsOver` | controller/activation/backend/store.go:123-242 | from an empty store: once a licence is revoked or expired, nothing more is granted under it and Validate refuses every installation ever seated under it, whatever the token |
| `ActivationStore.ActivateNoOpExactlyWhen` | controller/activation/backend/store.go:150-207 | Activate changes nothing if and only if one of its early checks fails |
| `ActivationStore.NoProxyTakesSeat` | controller/activation/backend/store.go:175-194 | an Activate without proxy credentials returns its error with the only seat taken |
| `ActivationStore.SeatsNeverOversold` | controller/activation/backend/store.go:150-207 | in every reachable state active installations never exceed the licence's limit and equal seats taken minus active ones released |
| `Mullvad.SortSorts` | routing/manager/mullvad.go:381-386 | candidates are ordered by country, then hostname |
| `Mullvad.SortPermutes` | routing/manager/mullvad.go:381-386 | and are the same relays |
| `Mullvad.SortIsStable` | routing/manager/mullvad.go:381-386 | relays of one country and hostname keep their order |
| `Mullvad.SortOrders` | routing/manager/mullvad.go:381-386 | the order is by country, then by hostname |
| `Mullvad.LessMeans` | routing/manager/mullvad.go:381-386 | text compares by code unit at the first difference, a proper prefix first |
| `Mullvad.UnusedAre` | routing/manager/mullvad.go:368-376 | an address is available if and only if an active relay with a key has it and it was not used |
| `Mullvad.TwoPasses` | routing/manager/mullvad.go:387-413 | what a country-first pass and a second pass achieve: n relays if and only if n distinct addresses exist, and the most countries possible |
| `Mullvad.Allocator.Take` | routing/manager/mullvad.go:387-406 | one greedy pass takes distinct new addresses, one per country when asked, until n or exhaustion |
| `Mullvad.Allocator.Pick` | routing/manager/mullvad.go:356-413 | succeeds if and only if the list was fetched and n unused distinct addresses exist; no address is ever returned twice and all relays were active with a key; the first candidate in order is always taken; with distinct candidate addresses it covers min(n, number of countries) countries; a failed fetch changes nothing, a failure after the count check consumes every unused address |
| `Mullvad.Allocator.Provision` | routing/manager/mullvad.go:155-173 | succeeds if and only if pick does and slots 1..n have devices; a missing device is the first one missing, and its n relays stay taken |
| `Mullvad.Allocator.Replace` | routing/manager/mullvad.go:175-192 | the failed address is retired whatever follows; the replacement is active, never used before and different; a slot without a device fails with the replacement taken |
| `DecodoUsername.UsernameInjective` | routing/manager/decodo.go:366-410 | equal usernames come from equal normalised account, country, session and minutes, with and without country |
| `DecodoUsername.UsernameReads` | routing/manager/decodo.go:366-410 | the username of plain parameters letter by letter, the address locked to the session |
| `DecodoUsername.UsernameRefuses` | routing/manager/decodo.go:366-396 | minutes outside 1..1440, a session with a dash or without letters, and a country not of two letters make none |
| `DecodoUsername.SpellingsOfOneUser` | routing/manager/decodo.go:366-369 | a leading user- and the case of the country make no difference |
| `DecodoUsername.SameUserExactlyWhen` | routing/manager/decodo.go:366-410 | accepted sessions make the same username if and only if they are equal once trimmed |
| `DecodoUsername.SessionsGiveDistinctUsernames` | routing/manager/decodo.go:366-410 | different minted (alphanumeric) session ids give different upstream usernames |
| `DecodoUsername.PaddedSessionSameUser` | routing/manager/decodo.go:366-372 | a session with a blank in front makes the username of the session without it |
| `DecodoSlots.EncodingIsUnique` | routing/manager/decodo.go:325-358 | the saved sequence depends on the map alone, not on the order it is walked in |
| `DecodoSlots.SortEntries` | routing/manager/decodo.go:333-340 | the in-place insertion sort orders by slot and keeps exactly the entries |
| `DecodoSlots.Encode` | routing/manager/decodo.go:325-358 | save writes the one ascending listing of the map |
| `DecodoSlots.LoadIsOverride` | routing/manager/decodo.go:295-323 | loading any file, with skipped and repeated entries, overrides memory with what the file alone would load and touches no other slot |
| `DecodoSlots.LastEntryCounts` | routing/manager/decodo.go:316-321 | the last well-formed entry of a slot is the one loaded |
| `DecodoSlots.NoEntryNoSlot` | routing/manager/decodo.go:316-321 | a slot without a well-formed entry is not loaded |
| `DecodoSlots.LoadOverrides` | routing/manager/decodo.go:295-323 | for a saved file that is the saved map |
| `DecodoSlots.SaveLoadRoundTrip` | routing/manager/decodo.go:295-358 | load after save restores the map |
| `DecodoSlots.EnsuredAt` | routing/manager/decodo.go:261-271 | ensuring 1..n changes slot s if and only if it lies in 1..n and is missing, empty or expired, and then to its fresh id |
| `DecodoSlots.EnsuredPlainly` | routing/manager/decodo.go:261-271 | the same with the window written out: a session is kept while it is younger than the session minutes, to the nanosecond |
| `DecodoSlots.Decodo.EnsureSlot` | routing/manager/decodo.go:261-271 | a slot is renewed exactly when it is missing, empty or past the window computed from the session minutes |
| `DecodoSlots.Decodo.EnsureSlots` | routing/manager/decodo.go:199-208 | the loop ensures slots 1, 2, ... up to n or to the first whose session makes no username, and no id changes its slot |
| `DecodoSlots.SlotsGetDistinctUsers` | routing/manager/decodo.go:273-286 | two slots with accepted sessions share an upstream username if and only if their trimmed sessions are equal; genuine slots never do |
| `DecodoSlots.EnsuredDifferExactlyWhen` | routing/manager/decodo.go:199-212 | with fresh ids the sessions of 1..n, compared by any key, differ after renewal if and only if those not due for renewal did |
| `DecodoSlots.Decodo.constructor` | routing/manager/decodo.go:97-122 | a provisioner starts beside any state file; well-formed ids that differ make it genuine |
| `DecodoSlots.Decodo.Load` | routing/manager/decodo.go:295-323 | memory is overridden by what the file holds, or unchanged when it cannot be read |
| `DecodoSlots.Decodo.Save` | routing/manager/decodo.go:325-358 | a successful save makes the file hold exactly memory; a failed one leaves it |
| `DecodoSlots.Decodo.Provision` | routing/manager/decodo.go:188-212 | whatever the file held: only missing or expired slots of 1..n change, also when a later slot or the save fails; success is decided by file access and usernames; with fresh ids the sessions differ if and only if those of the live slots do, and the upstream usernames if and only if those do once trimmed; from genuine ids file access alone decides, the sessions differ and each id stays with its slot |
| `DecodoSlots.SharedSessionSurvives` | routing/manager/decodo.go:261-323 | a state file with one session in two live slots keeps both slots sharing it |
| `DecodoSlots.PaddedSessionsShareUser` | routing/manager/decodo.go:261-323 | a state file with two live sessions that differ by a blank gives two slots one upstream user |
| `DecodoSlots.Decodo.Reestablish` | routing/manager/decodo.go:216-230 | with file and memory in agreement it changes nothing; it returns the slot's own session if and only if there is one that makes a username |
| `DecodoSlots.Decodo.ReplaceSession` | routing/manager/decodo.go:235-250 | exactly its slot changes, to the fresh id |
| `ProcessTree.WorkInvStep` | routing/platform/platform_linux.go:41-44 | each turn of the growing loop appends only new descendants, parents first |
| `ProcessTree.BuildTree` | routing/platform/platform_linux.go:24-46 | the list is exactly root and its descendants, each once, parents before children |
| `ProcessTree.KillOrder` | routing/platform/unix.go:57-69 | the reverse walk signals every child before its parent, each process once |
| `ProcessTree.KillTree` | routing/platform/unix.go:55-69 | the group is signalled first if and only if the root leads it, then exactly the tree with children before parents, or only the root when the tree cannot be read |
| `ProcessTree.LoopEndsExactlyWhen` | routing/platform/platform_linux.go:41-44 | the loop ends if and only if the root is not its own descendant |
| `ProcessTree.CycleNeverEnds` | routing/platform/platform_linux.go:41-44 | with two processes that are each other's parents it does not |

## Left out

- Chromium launch, flags, preferences, page navigation and environment: the behaviour of an external browser; launches and navigations are inputs.
- HTTP, TLS, JSON, TOML, base64 and hex library code, and the public-IP fetch: the address or the failure is an input.
- Diagnostics: it pins addresses anew and reopens gates on purpose, so it is not part of the run relation.
- The internals of V4, V5, V6, V8 and V9: pass or fail inputs of READY.
- The identity set's lock file: held or not held.
- Liveness of the pipe between client and upstream, and that Shutdown's waiting ends: they depend on the upstream; only safety is proved.
- Write errors and timeouts on a SOCKS5 connection: a peer whose write fails has lost its connection.
- The exact error texts and the monitor's leak sampling, which only adds events.
- Wrap-around of the multiplexer's 64-bit call ids, and frames that are not valid JSON, which the read loop skips.
- Tor, WireGuard, installers, archive extraction, endpoint tables, Windows and macOS process trees: foreign processes and operating-system calls.
- IPC, command line, terminal reporter, configuration loading: plumbing.
- Mullvad's account, device and key handling: calls to a remote service.
- Quality of randomness and hashing: freshness and injectivity are assumed.
- ProcessTree.BuildTree: a root that is its own descendant is excluded because the loop then never ends, as LoopEndsExactlyWhen shows.
- Gate.Gate.SucceededSince: speaks of cursors taken by EventCount, the only ones the checks use.
