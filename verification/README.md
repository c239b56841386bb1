# A verified model of Arden

Arden is an LDAPv3 client library in Go. This project models its hard cores in
Dafny and proves what they promise, over every input, every interleaving and every
run. `dafny verify dfyconfig.toml` checks it.

**The connection** (`Protocol`, `Conn*`). One connection multiplexes operations over
message IDs. `ConnMessages` has the messages it writes, `ConnCore` what each critical
section does to the lock-protected state, and `ConnMachine` the transition system of
all goroutines, with contexts, the peer and the transport as the environment.
`ConnOps`, `ConnInv`, `ConnWorkers` and `ConnHistory` hold the groups of its
invariant, and `ConnRuns` proves that every step keeps all of them. `ConnClaims` and
`ConnWire` state what follows for whole runs: delivery in order and without loss, IDs
that are never shared, at most one Abandon, the order of lifecycle states, what is on
the wire for each reported outcome, and what a peer reads there. `ConnRetire` says what
retirement tells every operation, and `ConnAbandon` that an Abandon that is due is never
forgotten. `ConnRace` shows that the one exception among them does happen. `ConnReader`
puts the read loop on top, over the frames of `ConnFrames`, and `ConnFates` says what
becomes of every response it takes, early ones in particular. `ConnObject` is the object
itself: its methods keep the invariant and do what the transition system does.

**The pool** (`Pool*`). `PoolCore` is its transition system, callers included,
`PoolInv` and `PoolRuns` its invariant, `PoolClaims` the results on exclusive leases,
draining, the connection cap, expiry and waiters, and `PoolObject` the scheduler's
methods, which take its steps.

**BER and the LDAP envelope** (`Ber*`, `Envelope*`, `Wire`). Printers and parsers of
identifiers, lengths, integers, elements and packets as exact inverses of each other,
the deep validator against trees, the incremental framer against the slice reader,
exactly which envelopes and requests are accepted, and the round trip of a stream.
`BerOctets` and `EnvelopeOctets` spell headers and messages as the octets they are.

**Filters** (`Filter*`). The recursive filter codec over the scoped decoder: `Filter`
has packets and decoding as functions, `FilterWire`, `FilterFields` and
`FilterRoundTrip` the round trips in both directions, `FilterOctets` a printer of its
own that every encoding agrees with octet by octet, `FilterText` what text is, and
`FilterDecoder` the decoder object with its sticky first error and its loops.

**Smaller cores.** `Attributes` (description keys and the indexed collection),
`Resolve` (depth-first resolution of object classes), `Paging` (the paged search
iterator).

A connection's run is a sequence of states with one event between neighbours. An
event is one critical section or one unlocked action of one goroutine, so any
interleaving is a run. Some fields of an operation are history that the code does not
keep and the claims speak of: what was routed to it, what was handed out, whether it
was tombstoned.

Where the code and its documentation differ the model follows the code. Five points
are worth knowing. The replacement loop dials without looking at the endpoint's cap,
so live connections and dials reach the cap plus one (`PoolClaims.CapIsPassed`), and
`PoolClaims.OnlyRedialPassesTheCap` says exactly when. A registered waiter that
returns straight from a dial stays counted: `PoolClaims.SlotIsLost` is a run that
loses the only slot, `PoolClaims.NobodyWaitsAgain` says that it stays lost, and
`PoolClaims.CountIsExact` exactly when the count is right. When cancellation wins the
race for a Write, the writer returns its token before the canceling goroutine has
retired the connection, so that a part of a message can be followed by another
message (`ConnRace.PartIsFollowed`); `ConnWire.PartialIsLast` rules it out in every
other case. A response that comes before its request is written waits for the write to
be observed; if the request is then not sent at all, the reader waits for it until the
connection ends (`ConnFates.MayWaitInVain`, `ConnFates.WaitsInVain`). The framer adds header and frame length in an `int`, so a length near the
top of its range panics (`BerFramer.Framer.Next` says exactly when).

## Model

| member | source | states |
|---|---|---|
| ConnClaims.RunInv | connection.go:427-939 | in every state of every run, for any interleaving of operations, Abandons, closing, retirement, the peer and the transport, the whole connection invariant holds |
| ConnClaims.RunEvolves | connection.go:427-1289 | whatever an operation has reached in one state of a run (terminal, abandoned, responses routed and handed out, write result) it keeps in every later state; nothing is routed to it once its lifecycle is over |
| ConnClaims.SafeDelivery | connection.go:697-1085 | if the completing response was routed before delivery stopped, then in every later state what Next handed out followed by what it still yields is exactly the arrivals in order, and then EOF, whatever is canceled or retired in between |
| ConnClaims.DeliveryInOrder | connection.go:697-1085 | in every state what was and will be handed out is a prefix of the arrivals, all with the operation's ID, all but the last continuing it; a completed operation ends in EOF if and only if it completed before its delivery stopped |
| ConnClaims.YieldIsQueue | connection.go:697-736 | calling Next until it yields nothing hands out the queue in order and then reports error, EOF or a wait as an empty queue would |
| ConnClaims.NeverReissued | connection.go:537-595 | before retirement every ID that any step issues, to an operation, an Abandon or the Unbind, is in range and is neither the ID of an operation being set up, pending or abandoned nor one that any goroutine still has to release |
| ConnClaims.IdsPartitioned | connection.go:572-627 | reserved, pending and tombstoned IDs are disjoint subsets of [1, maxID]; pending holds exactly the installed operations whose lifecycle is unfinished |
| ConnClaims.EndedForGood | connection.go:645-736 | an operation whose lifecycle ended stays ended, gets no further response, and Next on it never blocks |
| ConnClaims.AbandonsAreSafe | connection.go:760-946 | at most one Abandon is ever written for an operation, only once its ID is tombstoned and never once it completed; any reader takes the message for an AbandonRequest under an ID of its own in range whose contents are that operation's ID |
| ConnClaims.ObserverNeverBlocks | trace.go:82-149 | an operation sends its observer at most six dispatches, fewer than the eight slots of its queue |
| ConnFates.EarlyIsRouted | connection.go:991-1042 | a response that came before its request's write was observed is, once it is, routed as one that came in time: it becomes the first response of exactly that operation if and only if the connection has not ended, the operation was not abandoned and its pattern lists the identifier, and Next then yields it unless the operation was canceled or the response alone breaks the byte limit |
| ConnFates.EarlyNotLost | connection.go:1012-1028 | over any session such a response stays in the reader's hand, nothing being taken after it, until the operation has it as its first, unless the operation is abandoned or the connection ends |
| ConnFates.ResponsesAccounted | connection.go:948-1085 | in every session what arrived for an operation is exactly the responses the reader gave it, in the order it took them from the transport; all others were late for an abandoned operation, refused, or cut off by the end, but for the one in hand |
| ConnFates.SessionIsRun | connection.go:948-965 | a connection with its read loop goes only through states that runs of the transition system reach, so every claim about runs holds of it |
| ConnFates.WaitsInVain | connection.go:1012-1028 | what the reader waits for is the write being observed, not its end: if the request turns out unsent, it waits until the connection ends |
| ConnFates.MayWaitInVain | connection.go:488-494 | and that happens: for every first request of a connection and every response with its ID there is a session in which the request is gone unsent and the reader still waits for it |
| ConnReader.VerdictMeans | connection.go:996-1033 | one look of route lets a response wait exactly if the operation with its ID is pending and its write was not observed, and refuses it exactly if nobody has its ID or the pattern of the operation or tombstone that has it lists its identifier nowhere |
| ConnReader.ActKeeps | connection.go:948-1085 | every act of the reader and every step of anybody else keeps the invariant that ties what arrived to what was taken |
| ConnFrames.ElsewhereUndelivered | connection.go:991-1085 | no step but the reader's brings a response to any operation |
| ConnRetire.RetirementTold | connection.go:1235-1289 | when a connection retires its error is closed if it was closing and else the reason it was asked for; from then on every operation that was pending ends, behind its queue, with the error it already had, or closed, or that reason, where a transport failure reads definitely unsent for an operation that never called writeAll and ambiguous for one that did |
| ConnRetire.RetirementAsked | connection.go:841-939 | no step retires but one that asks for it: any goroutine with a reason, a write with the outcome it reports, or an Abandon that could not be sent |
| ConnAbandon.AbandonOnItsWay | connection.go:760-939 | while the connection is open, every pending operation that was canceled or overflowed and is to be abandoned has exactly one goroutine on its Abandon, which has neither given up nor been forgotten |
| ConnAbandon.AbandonIsSent | connection.go:896-939 | every abandoned operation has a goroutine that wrote for it, and once that is over without having retired the connection the whole Abandon is on the wire |
| ConnAbandon.RunOwes | connection.go:896-939 | in every state of every run an Abandon that ended without an error has an operation that has ended or a connection at its end |
| ConnWire.WritesItsRequest | connection.go:427-535 | whatever an operation's goroutine hands to the transport parses under that operation's message ID with the identifier it declared, and with its very protocol and control octets if its packets print one element each; a caller's was installed in ready and never parses as a Bind or an Unbind |
| ConnWire.WireOutcomes | connection.go:799-894 | the wire is the accepted prefixes of the writeAll calls, one block per call and no goroutine calling twice; a partial block was reported ambiguous; a sent message is on the wire in one piece; an operation reported definitely unsent, by its write or by Next after retirement, put nothing there |
| ConnWire.EndedUnwritten | connection.go:812-837 | a request whose context ended, or whose connection was closing or retired, before the writer was its own is reported definitely unsent for good, and nothing of it is ever on the wire |
| ConnWire.BlockInPlace | connection.go:841-894 | the block of each call stands right behind the blocks of the earlier ones |
| ConnWire.PartialIsLast | connection.go:841-894 | a partial block is the last on the wire and its connection has retired, unless cancellation won the race for that Write |
| ConnWire.UnbindIsLast | connection.go:1181-1233 | an Unbind is written only by closing, parses as an Unbind under an ID in range, and no message follows it, whatever goroutines were on their way |
| ConnWire.PeerReads | connection.go:841-965 | unless a race for a Write was lost, a peer that frames and parses the wire from its first byte gets exactly the messages accepted whole, in order; no part of a message is ever taken for one |
| ConnRace.RacedRun | connection.go:861-875 | for any two sendable requests of callers there is a run in which one octet of the first stands on the wire, reported ambiguous, with the whole of the second behind it and the connection not retired |
| ConnRace.PartIsFollowed | connection.go:861-875 | so a partial block can be followed by another message on any connection that allows two operations: the exception in PartialIsLast is needed |
| ConnMessages.RequestReads | connection.go:511-535 | what encodeLDAPRequest returns parses under the given ID with the declared identifier, whatever packets the request has |
| ConnMessages.InternalReads | connection.go:941-946 | an internal request of at most four content octets is read back whole: ID, identifier and contents |
| ConnMessages.AbandonReads | connection.go:909-909 | an Abandon parses as an AbandonRequest whose contents denote exactly its target |
| ConnMessages.UnbindReads | connection.go:1218-1218 | an Unbind parses as an UnbindRequest without contents |
| EnvelopeOctets.InternalOctets | connection.go:941-946 | an Abandon is 0x30 around 0x02 with its ID and 0x50 with its target's, an Unbind ends in 0x42 0x00 |
| EnvelopeOctets.AssociationOctets | connection.go:507-509 | callers may submit anything but the identifier octets 0x60 of Bind and 0x42 of Unbind |
| ConnClaims.PhasesForward | bootstrap.go:152-190 | over a run the lifecycle state never moves back, and retirement is final and keeps its reason |
| ConnClaims.PhasesOneByOne | bootstrap.go:152-190 | a step takes a connection to the very next state, to draining, or to its end: no state is skipped |
| ConnClaims.ScopesSeparated | bootstrap.go:204-224 | caller operations are installed only in ready; initialization operations are installed only before, and in ready none is reserved, pending or being written |
| ConnRuns.InitialInv | connection.go:350-386 | a new connection satisfies the invariant |
| ConnRuns.StepKeeps | connection.go:427-1289 | every step of every goroutine and of the environment keeps the invariant and takes nothing back from any operation |
| ConnRuns.BeginKept | connection.go:427-446 | reserving an ID for a new operation keeps the invariant |
| ConnRuns.SetupKept | connection.go:447-486 | encoding, giving up, installing and rejecting an operation keep the invariant |
| ConnRuns.WriterKept | connection.go:799-837 | taking the write token, finding the connection broken, starting and leaving writeAll keep the invariant |
| ConnRuns.WriteKept | connection.go:841-894 | every step inside writeAll, with the retirement that a failed or ambiguous write brings, keeps the invariant |
| ConnRuns.SettleKept | connection.go:488-505 | observing a write, completing a no-response operation and removing an unsent one keep the invariant |
| ConnRuns.StreamKept | connection.go:697-797 | consuming and canceling a stream keep the invariant |
| ConnRuns.ArrivalKept | connection.go:991-1085 | routing a response keeps the invariant |
| ConnRuns.AbandonKept | connection.go:896-939 | every step of an Abandon keeps the invariant |
| ConnRuns.CloseKept | connection.go:1181-1233 | every step of closing keeps the invariant |
| ConnRuns.RetireKept | connection.go:1235-1277 | retirement by anyone at any time keeps the invariant |
| ConnRuns.PhaseKept | bootstrap.go:152-224 | initialization transitions and becoming ready keep the invariant |
| ConnWorkers.StepKeepsWorkers | connection.go:812-839 | every reserved ID and the write token have one holder, one worker at a time is inside writeAll, each enters it at most once, and none after the one that unbinds |
| ConnWorkers.CallKeepsWorkers | connection.go:841-894 | steps inside writeAll change no holder |
| ConnInv.ReplaceKeeps | connection.go:645-667 | rewriting one operation, and dropping it from pending exactly if that finishes it, keeps the ID maps and the operations in step |
| ConnInv.InstallCore | connection.go:606-627 | installation moves an ID from reserved to pending and keeps the core invariant |
| ConnInv.TombstoneCore | connection.go:917-930 | burying a target moves its ID from pending to the tombstones and keeps the core invariant |
| ConnInv.RetireCore | connection.go:1235-1277 | retirement ends every pending operation and keeps the core invariant |
| ConnInv.ArrivalCore | connection.go:991-1085 | routing keeps the core invariant, dropping the ID exactly on completion |
| ConnHistory.CallKeeps | connection.go:841-894 | each step of a call keeps the wire equal to the accepted prefixes, and the result a call reports agrees with what it had accepted |
| ConnHistory.SpoiledWritten | connection.go:841-894 | once a call is ambiguous without a lost race the connection has retired and nothing is accepted after it |
| ConnHistory.RequestsWriter | connection.go:799-810 | a call writes its own operation's message, a pending operation has recorded that its write began, and the result do sees is the call's |
| ConnHistory.RequestsRetired | connection.go:1254-1289 | retirement reports unsent only operations that never called writeAll |
| ConnHistory.BecomeReadyKeeps | bootstrap.go:204-224 | an idle connection that becomes ready has no initialization operation left at work |
| ConnOps.ArriveKeeps | connection.go:1044-1072 | a response is appended in arrival order with the byte total exact and both limits kept |
| ConnOps.RefusedIffTooMuch | connection.go:1044-1070 | a response is refused, and delivery stopped, exactly when queueing it would break the message or the byte limit |
| ConnOps.PopKeeps | connection.go:706-713 | handing out the oldest response keeps the byte total exact and the order |
| ConnOps.RouteKeeps | connection.go:1034-1075 | routing keeps everything that always holds of an operation; only an operation whose write was observed is routed to |
| ConnOps.CancelKeeps | connection.go:760-789 | cancellation keeps it, never erases a terminal result, and marks a pending operation that is to be abandoned |
| ConnOps.TombstoneKeeps | connection.go:924-928 | giving the ID up keeps it |
| ConnOps.RemoveKeeps | connection.go:645-667 | removing an operation nothing was routed to keeps it |
| ConnOps.RetireKeeps | connection.go:1254-1289 | retirement keeps it; every dispatch has been sent exactly if it had cause: written, first response, canceled by its consumer, end |
| ConnOps.DispatchesFit | trace.go:82-149 | six kinds of dispatch, each sent at most once |
| ConnCore.ScanIsFirst | connection.go:572-595 | the scan returns the first free ID in cyclic order after the last one issued, across the int32 wrap |
| ConnCore.ScanSeesAll | connection.go:572-595 | a scan that finds nothing has seen every ID it passed occupied |
| ConnCore.ReserveIffRoom | connection.go:572-595 | an ID is issued exactly when fewer than maxID are occupied, and it is a free one in range |
| ConnObject.Conn.constructor | connection.go:350-386 | a new connection is an initial state of the transition system and satisfies the core invariant |
| ConnObject.Conn.ScanIds | connection.go:576-593 | the loop of the allocator computes the scan |
| ConnObject.Conn.TryReserveMessageID | connection.go:572-595 | reserves the first free ID, exactly when one is free, and changes nothing else |
| ConnObject.Conn.ReleaseReserved | connection.go:597-604 | keeps the core invariant; afterwards the ID is occupied only if an operation or a tombstone has it, and no other ID's state changed |
| ConnObject.Conn.ReserveOperation | connection.go:537-570 | reserves an ID exactly if the connection is open, in scope and has a free one, and takes the transition system's step |
| ConnObject.Conn.BeginClosing | connection.go:1181-1210 | exactly one caller begins to close; afterwards no scope is allowed, so no operation is accepted |
| ConnObject.Conn.InstallPending | connection.go:606-627 | installs exactly when open, in scope and still reserved, and keeps the core invariant |
| ConnObject.Conn.RemovePending | connection.go:645-667 | ends the operation, keeps the core invariant, and leaves it not pending |
| ConnObject.Conn.CancelPending | connection.go:760-789 | keeps the operation in order; a terminal operation is unchanged; any other yields its first reason from Next at once; an Abandon is asked for exactly if it is pending, unfinished, not yet being abandoned and of that mode, retirement likewise for its mode |
| ConnObject.Conn.CancelOperation | connection.go:760-797 | cancels as the transition system does, keeps the core invariant, and asks for an Abandon, for retirement or for nothing exactly as the operation's state and mode say |
| ConnObject.Conn.Deliver | connection.go:1044-1072 | keeps order, exact byte total and both limits; queues the response last, or stops delivery exactly when queueing it would break the message or the byte limit |
| ConnObject.Conn.RoutePending | connection.go:1034-1085 | finishes the operation exactly on a completing response; asks for an Abandon or for retirement exactly if a response that does not complete it broke a limit and the mode says so, and Next then yields that limit |
| ConnObject.Conn.RouteResponse | connection.go:991-1085 | keeps the core invariant; waits exactly if the operation is pending and its write not observed, accepts exactly if it was and the pattern lists the identifier, drops exactly what a tombstone's pattern lists, and calls everything else unexpected; only an accepted response changes anything |
| ConnObject.Conn.BuryTarget | connection.go:917-930 | tombstones exactly if the target is still pending and the connection open |
| ConnObject.Conn.NextResponse | connection.go:705-727 | hands out the oldest response, else the error, else EOF; never blocks on a finished operation; keeps the core invariant |
| ConnObject.Conn.RetirePendings | connection.go:1254-1263 | the loop over pending ends every operation and empties the map |
| ConnObject.Conn.RetirePending | connection.go:1254-1289 | the operation's lifecycle is over, its queue and any earlier error kept; otherwise it gets the reason, or for a transport failure ambiguous if its write had begun and definitely unsent if not |
| ConnObject.Conn.RetireWith | connection.go:1235-1277 | retires once: the error is closed if closing and else the reason, all ID maps are emptied, every pending operation ends as RetirePending says and no other changes; keeps the core invariant and shuts the transport |
| ConnObject.Conn.Transition | bootstrap.go:152-190 | a live connection moves exactly to the state of the next rank or to closed, and otherwise stays |
| ConnObject.Conn.MarkReady | bootstrap.go:204-224 | becomes ready exactly from an initializing connection on which no ID is reserved, pending or tombstoned |
| ConnObject.Transport.WriteAll | connection.go:841-894 | whatever the transport and the context do, one contiguous block, all of it when sent, none when definitely unsent, partial only when ambiguous, and then retired or raced; from any state with an open transport where the call has begun, the loop takes call steps each enabled in its turn that lead to the same wire, result and retirement; the outcome is definitely unsent exactly if the context had ended before any byte was taken or a Write took none and failed while the context was alive |
| Protocol.NewFramingPattern | protocol/operation.go:98-148 | succeeds exactly on application identifiers with one meaning each, and then classifies by the two lists |
| Protocol.ValidateIds | protocol/operation.go:98-134 | one list of identifiers is accepted exactly if all are application identifiers, distinct and new |
| PoolClaims.RunInv | pool/pool.go:177-801 | the pool invariant holds in every state of every run |
| PoolClaims.LeasesAreExclusive | pool/pool.go:203-347 | inFlight is exactly the admitted and unreleased operations and within the limit; a leased connection is neither broken nor draining, has one holder, and that lease owns all its operations; a broken connection stays listed exactly while it has operations |
| PoolClaims.AdmitsOnly | pool/pool.go:203-347 | a step admits an operation or grants a lease only while the pool is open, on a connection that is listed, neither broken nor draining, of the endpoint asked for, unleased or held through that lease, below its limit (idle for a lease), and none the caller may have does less |
| PoolClaims.WaitsOnlyWhenFull | pool/pool.go:264-276 | a caller is made to wait or turned away only while every connection it may have is gone, broken, draining, leased or full |
| PoolClaims.DialLists | pool/pool.go:231-250 | a dial that succeeds before closing lists exactly one connection, new, idle and unleased; any other lists none |
| PoolClaims.RedialLists | pool/pool.go:454-507 | so does a replacement dial |
| PoolClaims.ReplacesOnlyTheDead | pool/pool.go:442-507 | a replacement starts and dials only while the pool is open and its endpoint has no connection that is alive |
| PoolClaims.LiveIsCount | pool/pool.go:358-363 | the live count of an endpoint is the number of its connections that are listed, neither broken nor draining |
| PoolClaims.ClosesAll | pool/pool.go:803-812 | closing retires every listed connection and changes nothing else |
| PoolClaims.ClosingStep | pool/pool.go:760-801 | once closing, no step admits an operation, grants a lease or raises the active count |
| PoolClaims.ClosingRun | pool/pool.go:760-801 | so it is over any number of steps |
| PoolClaims.BusyIsActive | pool/pool.go:623-633 | a connection with an unreleased operation is listed and counted as active |
| PoolClaims.DrainIsComplete | pool/pool.go:760-801 | a drain that finds the active count zero has waited for every operation ever admitted, and nothing becomes active again; until then a connection with work stays listed |
| PoolClaims.CapPlusOne | pool/pool.go:226-507 | live connections and dials never exceed the cap plus one, dials of acquire alone never the cap, and at most one replacement goroutine runs |
| PoolClaims.OnlyRedialPassesTheCap | pool/pool.go:349-507 | a step passes the cap if and only if it is a replacement dial that starts while the dials in progress already equal the cap |
| PoolClaims.CapIsPassed | pool/pool.go:454-473 | a run with a cap of one that ends with two dials in progress |
| PoolClaims.ExpirySchedulesReplacement | pool/pool.go:706-749 | an expiry pass asks for a replacement exactly when it drains the endpoint's last live connection |
| PoolClaims.ExpiryMeans | pool/pool.go:706-749 | an expiry pass drains a connection exactly if it is alive, unleased, and either has reached its maximum lifetime since it was created or is idle, has been so for the idle lifetime, and another of its endpoint stays alive at that point; a drained one retires at once exactly if idle; everything else is untouched |
| PoolClaims.ExpireMeans | pool/pool.go:706-749 | the same for any list and any count that the pass starts with |
| PoolClaims.ExpireCounts | pool/pool.go:706-749 | the same for any part of the list and any live count |
| PoolClaims.WaitersAreBounded | pool/pool.go:264-310 | the waiter count is exactly the callers that registered and did not unregister, never above the limit, and positive beyond the lost ones whenever a registered caller has not returned |
| PoolClaims.LeaksExactly | pool/pool.go:226-262 | a step loses a waiter exactly when a registered caller returns straight from a dial, with the dial's or its context's error or because the pool closed meanwhile; no step finds one again |
| PoolClaims.CountIsExact | pool/pool.go:226-310 | over a run the waiter count equals the callers still waiting if and only if no registered caller has returned straight from a dial |
| PoolClaims.LeaksStay | pool/pool.go:226-310 | lost waiters stay lost over any number of steps |
| PoolClaims.NobodyWaitsAgain | pool/pool.go:264-276 | once as many waiters are lost as the limit allows, no caller is ever blocked or registered again |
| PoolClaims.SlotIsLost | pool/pool.go:251-262 | a run with one slot in which a caller waits, is woken, dials, fails and returns, after which no caller waits and the slot is gone |
| PoolInv.InitialInv | pool/pool.go:79-139 | a new pool satisfies the invariant |
| PoolRuns.StepKeeps | pool/pool.go:177-801 | every step keeps the invariant |
| PoolRuns.AdmitKeeps | pool/pool.go:203-209 | admitting an operation keeps it |
| PoolRuns.TakeLeaseKeeps | pool/lease.go:26-32 | granting a lease keeps it |
| PoolRuns.LeaseAdmitKeeps | pool/lease.go:83-90 | admitting an operation through a lease keeps it |
| PoolRuns.ReleaseKeeps | pool/pool.go:583-597 | giving an operation back keeps it |
| PoolRuns.CloseLeaseKeeps | pool/lease.go:155-171 | closing a lease keeps it, also while its operations still run |
| PoolRuns.BreakKeeps | pool/pool.go:518-532 | a broken connection keeps it |
| PoolRuns.ExpireKeeps | pool/pool.go:706-749 | an expiry pass keeps it |
| PoolRuns.CloseAllKeeps | pool/pool.go:803-812 | marking every connection as retiring keeps it |
| PoolRuns.EndpointKeeps | pool/pool.go:442-507 | starting and ending replacement loops and their dials keep it |
| PoolRuns.CallerKeeps | pool/pool.go:177-311 | every step of a caller of acquire or of a lease's acquireOperation keeps it: looking, being served, dialing, failing, waiting, waking and being refused |
| PoolObject.Scheduler.SelectConnection | pool/pool.go:313-347 | finds a connection exactly when one is eligible, and one with the fewest operations in flight |
| PoolObject.Scheduler.ScanEndpoint | pool/pool.go:320-340 | one endpoint's part of the scan keeps the candidates the least loaded so far |
| PoolObject.Scheduler.SelectDialEndpoint | pool/pool.go:349-388 | picks an endpoint below the cap and outside backoff with the least load, and one whenever there is one |
| PoolObject.Scheduler.CountLive | pool/pool.go:358-363 | counts the live connections of an endpoint |
| PoolObject.Scheduler.constructor | pool/pool.go:79-139 | a new scheduler is an initial state and satisfies the invariant |
| PoolObject.Scheduler.Look | pool/pool.go:195-276 | one locked look of acquire takes an enabled step and keeps the invariant: it says closed exactly if the pool is closing, serves exactly if something is eligible, dials exactly if nothing is and an endpoint has room, and else waits or, exactly at the limit on waiters, refuses |
| PoolObject.Scheduler.FinishDial | pool/pool.go:231-250 | the end of a dial takes the transition system's step: success lists one new connection unless the pool is closing and clears the backoff, failure sets it, and the caller is sent on accordingly |
| PoolObject.Scheduler.AcquireOperation | pool/lease.go:68-98 | takes an enabled step and keeps the invariant; admits exactly while the lease and the pool are open, the connection works and the lease is below its limit; waits exactly if that limit alone is in the way and a waiter has room |
| PoolObject.Scheduler.EndLease | pool/lease.go:155-171 | closes a lease: with nothing in flight the connection is free and idle from now on, retires if draining and is unlisted if unused and broken or retiring; keeps the invariant |
| PoolObject.Scheduler.ReleaseOperation | pool/pool.go:583-597 | gives back one operation, plain or leased: its connection is charged exactly one less, and on becoming idle is idle from now on, loses a closed lease, retires if draining and is unlisted if unused and broken or retiring; keeps the invariant |
| PoolObject.Scheduler.ConnectionDone | pool/pool.go:518-525 | marks a done connection broken, ends its lease, unlists it if unused, and keeps the invariant |
| PoolObject.Scheduler.ExpireOne | pool/pool.go:721-738 | drains one connection exactly if it is of the endpoint, alive, unleased and has either lived its maximum lifetime or is idle, has been for the idle lifetime, and is not the last one alive |
| PoolObject.Scheduler.ExpireEndpoint | pool/pool.go:714-740 | one endpoint's part of the pass drains exactly the connections whose ages and company say so, and reports a replacement exactly when the last live connection went |
| PoolObject.Scheduler.RetireAllExpired | pool/pool.go:706-749 | the whole pass under one lock: nothing while closing, else at every endpoint exactly the connections whose ages and company say so are drained, and a replacement is asked for at exactly the endpoints whose last live connection went |
| PoolObject.Scheduler.CountActive | pool/pool.go:781-790 | computes the count the drain loop waits for |
| BerTree.AcceptsIffEncodesTree | ber/reader.go:82-151 | a byte string is accepted exactly when it is the encoding of a tree within the depth, element and tag limits; the tree is unique and the budget charged is its node count |
| BerTree.EncodingUnique | ber/reader.go:82-151 | no encoding is a prefix of another and equal encodings come from equal trees |
| BerTree.ValidateOneSound | ber/reader.go:116-151 | an element that deep validation accepts is the encoding of a tree within the limits |
| BerTree.SkipComplete | ber/reader.go:116-151 | every tree within the limits is accepted, whatever follows it |
| BerTree.ParseElementSound | ber/reader.go:82-110 | an element that was read is one printed element at the front |
| BerTree.ParseElementComplete | ber/reader.go:82-110 | one printed element at the front is the element that is read |
| BerIdentifier.IdentifierComplete | ber/reader.go:333-369 | every printed identifier is read back whole, whatever follows it |
| BerIdentifier.IdentifierSound | ber/reader.go:333-369 | whatever decodeIdentifier accepts is the printed form of what it returns |
| BerLength.LengthComplete | ber/reader.go:371-403 | every printed length is read back whole, whatever follows it |
| BerLength.LengthSound | ber/reader.go:371-403 | whatever decodeLength accepts is the printed form of what it returns |
| BerIdentifier.AppendIdentifier | ber/identifier.go:71-96 | appends exactly the identifier octets, filling and marking a five-octet array in place |
| BerIdentifier.FillSeptets | ber/identifier.go:81-91 | the septets of a high tag number end up at the back of the array |
| BerIdentifier.MarkContinued | ber/identifier.go:92-94 | every septet but the last gets its continuation bit |
| BerLength.AppendLength | ber/length.go:5-15 | appends exactly the shortest length octets |
| BerIdentifier.DecodeIdentifier | ber/reader.go:333-369 | the loop agrees with the identifier grammar, errors included |
| BerLength.DecodeLength | ber/reader.go:371-403 | the loop agrees with the length grammar, overflow included |
| BerInteger.ContentsDenote | ber/packet.go:174-205 | printed contents denote the number and are minimal |
| BerInteger.ContentsShortest | ber/packet.go:174-205 | no string denoting the number is shorter |
| BerInteger.MinimalUnique | ber/packet.go:174-205 | a minimal string is what is printed for the number it denotes |
| BerInteger.IntegerBytes | ber/packet.go:174-205 | computes those contents for every int64 and uint64 |
| BerInteger.NegativeBytes | ber/packet.go:175-187 | the shortest two's complement of a negative number |
| BerInteger.NonnegativeBytes | ber/packet.go:189-204 | the shortest two's complement of a non-negative number |
| BerInteger.DecodeInteger | ber/reader.go:257-291 | the loop agrees with the exact value, the size limit and the range of the type |
| BerInteger.ConvertExact | ber/reader.go:276-290 | a conversion gives the number back exactly when the type holds it |
| BerInteger.IntegerRoundTrip | ber/reader.go:257-291 | every value its type holds is read back from its printed contents, if the size limit lets them through, and refused otherwise |
| BerReader.NewReader | ber/reader.go:39-47 | opens a reader exactly on data within valid limits |
| BerReader.Reader.PeekIdentifier | ber/reader.go:72-78 | returns the next identifier and moves nothing |
| BerReader.Reader.ReadElement | ber/reader.go:82-110 | reads one element, advancing and charging only on success |
| BerReader.Reader.SkipElement | ber/reader.go:116-125 | reads one element and validates everything nested in it |
| BerReader.Reader.ValidateNested | ber/reader.go:127-151 | validates nested contents, keeping what was charged on failure |
| BerReader.Reader.SkipRemaining | ber/reader.go:142-150 | the loop over a child reader |
| BerReader.Reader.Primitive | ber/reader.go:155-176 | reads a primitive element, or puts the reader back |
| BerReader.Reader.Constructed | ber/reader.go:180-212 | enters a constructed element with the parent already past it, or puts the reader back |
| BerReader.Reader.Integer | ber/reader.go:230-253 | reads an INTEGER, or puts the reader back |
| BerReader.SkipWhole | ber/reader.go:39-151 | reading one whole value accepts exactly the encodings of trees within the limits and charges their node count |
| BerCursor.ReadPrimitiveBack | ber/reader.go:155-176 | a printed primitive is read back whole |
| BerCursor.ReadPrimitiveSound | ber/reader.go:155-176 | what a primitive read consumed was one printed element |
| BerCursor.EnterBack | ber/reader.go:180-212 | a printed constructed element opens onto its contents |
| BerCursor.EnterSound | ber/reader.go:180-212 | what was entered was one printed element |
| BerPacket.EncodedLength | ber/packet.go:131-142 | the exact encoded length, computed without encoding |
| BerPacket.ContentLength | ber/packet.go:120-129 | the exact contents length |
| BerPacket.IdentifierLength | ber/packet.go:207-219 | the exact number of identifier octets |
| BerPacket.LengthLength | ber/packet.go:221-230 | the exact number of length octets |
| BerPacket.AppendTo | ber/packet.go:104-118 | appends exactly the encoding of the packet |
| BerPacket.EncodeNew | ber/packet.go:97-99 | the exact bytes, and exactly as many as were reserved for them |
| BerPacket.PacketOfTree | ber/packet.go:97-137 | the packet built for a tree prints the tree's encoding and has its size |
| BerOctets.LengthOctets | ber/length.go:5-15 | lengths octet by octet: themselves below 0x80, then 0x81, 0x82 or 0x83 and the number most significant octet first |
| BerOctets.IdentifierOctets | ber/identifier.go:71-96 | identifiers octet by octet: class, form and number, or 31 and the number in marked groups of seven bits |
| BerOctets.IntegerOctets | ber/packet.go:174-205 | one- and two-octet integers as the octets they are |
| BerPacket.AcceptedBytesReprint | ber/packet.go:97-137 | whatever deep validation accepts is printed again byte for byte from the tree that was read |
| BerFramer.Framer.ReadByte | ber/framer.go:97-106 | takes one byte, or reports the end of the stream |
| BerFramer.Framer.CollectIdentifier | ber/framer.go:32-54 | collects exactly the identifier octets |
| BerFramer.Framer.CollectLength | ber/framer.go:59-77 | collects exactly the length octets |
| BerFramer.Framer.CollectHeader | ber/framer.go:31-81 | collects exactly the header that the slice reader sees there |
| BerFramer.Framer.Next | ber/framer.go:31-95 | frames exactly the raw element ReadElement finds at the front of the stream; panics if and only if header plus length leaves the int range; EOF is clean only before a frame |
| BerFramer.OversizedHeaderPanics | ber/framer.go:82-86 | a ten-octet input on which header plus length overflows |
| EnvelopeLayout.AcceptedIffLaidOut | response.go:30-105 | a message is accepted exactly when it is laid out as section 4.1.1 of RFC 4511 says inside the limits, and the response then has exactly the parts of that layout |
| EnvelopeLayout.MessageSound | response.go:30-105 | an accepted message has such a layout |
| EnvelopeLayout.MessageBack | response.go:30-105 | a message with such a layout is accepted with its parts |
| EnvelopeOctets.AcceptedOctets | response.go:30-105 | an accepted message is 0x30 around 0x02 with its ID, an element of application class, perhaps 0xA0 around 0x30s, and elements other than 0xA0 |
| Envelope.ReadControls | response.go:76-85 | the loop reads the controls, each a deeply valid SEQUENCE |
| Envelope.ReadExtensions | response.go:89-102 | the loop reads the trailing extensions, none of them controls |
| Envelope.ReadTail | response.go:66-102 | controls, if they are next, and then extensions |
| Envelope.ReadContents | response.go:43-102 | message ID, protocol operation and tail |
| Envelope.ParseOwnedResponse | response.go:30-105 | parses exactly the messages of the envelope grammar |
| Envelope.EncodeLDAPRequest | connection.go:511-535 | encodes a request and accepts it exactly if its own envelope parses back to what was declared |
| EnvelopeLayout.AcceptedHeader | connection.go:511-535 | any accepted request, whatever its packets, is read back under its own message ID with the declared identifier, as many controls and no extensions |
| EnvelopeLayout.RequestAccepted | connection.go:511-535 | a request whose packets print one element each is accepted if and only if it fits the frame, integer, depth, element and tag limits, its controls are SEQUENCEs, and it is declared as what it is |
| EnvelopeOctets.RequestSpelled | connection.go:511-535 | a request is written as 0x30 around 0x02 with its ID, its operation, and 0xA0 around its controls exactly if it has any |
| EnvelopeLayout.RequestRoundTrip | connection.go:511-535 | an accepted request of such packets parses back to its message ID, protocol bytes and control bytes |
| Wire.ReadLoop | connection.go:948-965 | delivers the responses of the stream up to the first failure |
| Wire.StreamDelivers | connection.go:948-965 | any messages that parse, written back to back, are delivered one by one as what they parse as, whatever follows |
| Wire.PartDeliversNothing | connection.go:948-965 | a proper part of a message that parses is never delivered as anything |
| Wire.StreamRoundTrip | connection.go:948-965 | the concatenation of any sequence of accepted requests, whatever follows, is framed and parsed back into those requests, in order |
| FilterRoundTrip.RoundTrip | rfc4511/filter.go:408-444 | every well-formed filter within the limits, of any nesting and with any unknown alternatives and extensions, decodes from its encoding to itself, charging exactly its elements and leaving what follows |
| FilterOctets.EncodingSpelled | rfc4511/filter.go:73-360 | every filter, of any nesting, is encoded octet by octet as an independent printer of section 4.5.1.7 of RFC 4511 writes it: 0xA0 for and, 0xA1 for or, 0xA2 for not, up to 0xA9, and the tags of every field inside |
| FilterOctets.DecodesSpelled | rfc4511/filter.go:408-444 | what that printer writes for a well-formed filter within the limits decodes to that filter |
| FilterOctets.AcceptedIsSpelled | rfc4511/filter.go:408-444 | whatever is accepted and charged for its own elements is what that printer writes for the decoded filter |
| FilterOctets.OctetDecides | rfc4511/filter.go:408-444 | the leading octet alone decides which alternative a filter is decoded as |
| FilterText.TextIsUtf8 | ber/decoder.go:168-199 | text is accepted exactly if it is the UTF-8 encoding of a sequence of Unicode scalar values |
| FilterRoundTrip.RoundTripAll | ber/decoder.go:236-249 | so does every sequence of filters |
| FilterRoundTrip.Accepted | rfc4511/filter.go:408-444 | whatever is accepted is a well-formed filter; its encoding is exactly what was read if as many elements were charged as it has, and otherwise shorter with fewer elements |
| FilterRoundTrip.FiltersSound | ber/decoder.go:236-249 | the same for a sequence of filters |
| FilterRoundTrip.Reencodes | rfc4511/filter.go:91-454 | decoding, encoding and decoding again gives the same filter; the octets are the same if and only if the budget charged equals the filter's elements, and fewer otherwise |
| FilterRoundTrip.ExplicitFalseShrinks | rfc4511/filter.go:347-389 | a family of inputs whose octets do shrink: an explicit FALSE for dnAttributes is accepted and then left out |
| FilterRoundTrip.FilterElement | rfc4511/filter.go:73-360 | the encoding of a well-formed filter is one element with its identifier |
| FilterWire.ReservedRefused | ber/decoder.go:271-292 | a reserved field identifier is refused wherever it stands among the extensions |
| FilterWire.ExtensionsBack | ber/decoder.go:271-292 | preserved unknown fields are read back |
| FilterWire.ExtensionsSound | ber/decoder.go:271-292 | accepted extensions are all that was left, deeply valid, none reserved, each charged its elements |
| FilterWire.UnknownBack | rfc4511/types.go:252-267 | a preserved unknown field is read back with its elements charged |
| FilterWire.UnknownSound | rfc4511/types.go:260-267 | an accepted unknown field is one deeply valid element |
| FilterWire.BoundedPrimitive | ber/decoder.go:168-199 | bounding a primitive read to its element changes nothing |
| FilterWire.ValueBack | ber/decoder.go:142-199 | a printed value is read back, text only if it is UTF-8 |
| FilterWire.ValueSound | ber/decoder.go:142-199 | an accepted value is one printed element, and text is UTF-8 |
| FilterFields.AssertionBack | rfc4511/assertion.go:16-46 | a printed assertion is read back |
| FilterFields.AssertionSound | rfc4511/assertion.go:29-46 | accepted assertion fields are a printed assertion with a non-empty description |
| FilterFields.PartsBack | rfc4511/filter.go:284-326 | printed substring parts are read back, unknown trailing ones included |
| FilterFields.PartsSound | rfc4511/filter.go:303-326 | accepted parts are printed parts with no field identifier among the extensions |
| FilterFields.MatchBack | rfc4511/filter.go:347-389 | printed extensible-match fields are read back |
| FilterFields.MatchSound | rfc4511/filter.go:363-406 | accepted extensible-match fields print as what was read exactly when charged for their own elements, and shorter otherwise |
| FilterFields.PrintsAssertion | rfc4511/filter.go:446-454 | the packets of an assertion print as its fields, one after the other |
| FilterFields.PrintsParts | rfc4511/filter.go:284-300 | the packets of substring parts print as the parts, in order |
| FilterFields.PrintsMatch | rfc4511/filter.go:347-360 | the packets of an extensible match print as its fields, in order |
| FilterDecoder.Decoder.IsNext | ber/decoder.go:87-96 | absence at the end of a scope, failure on a malformed identifier |
| FilterDecoder.Decoder.Fail | ber/decoder.go:52-56 | the first failure sticks |
| FilterDecoder.Decoder.ReadAs | ber/decoder.go:142-199 | reads one value bounded to its element; a failed scope reads nothing |
| FilterDecoder.Decoder.ReadOptionalAs | rfc4511/filter.go:303-318 | an optional field, present exactly if it is next |
| FilterDecoder.Decoder.ReadAll | rfc4511/filter.go:311-313 | the loop over a repeated field reads as many as there are |
| FilterDecoder.Decoder.BooleanAs | ber/decoder.go:311-322 | reads FALSE and TRUE in their one form each |
| FilterDecoder.Decoder.Extensions | ber/decoder.go:271-292 | the loop reads everything that is left and refuses reserved identifiers |
| FilterDecoder.UnmarshalAssertion | rfc4511/assertion.go:29-46 | the sticky-error form agrees with stopping at the first failure |
| FilterDecoder.UnmarshalParts | rfc4511/filter.go:303-322 | likewise for substring parts |
| FilterDecoder.UnmarshalSubstrings | rfc4511/filter.go:303-334 | likewise for substrings, with a non-empty description and at least one part |
| FilterDecoder.UnmarshalMatch | rfc4511/filter.go:363-406 | likewise for extensible matches |
| FilterDecoder.UnmarshalFilter | rfc4511/filter.go:408-444 | decodes one filter as the grammar says |
| FilterDecoder.UnmarshalAll | ber/decoder.go:236-249 | the loop decodes every filter of a scope |
| Attributes.SameKey | rfc4511/attributes.go:22-46 | two descriptions have the same key exactly when their bases agree in lower case and their options agree, in lower case, as sets |
| Attributes.LowerForgetsCase | rfc4511/attributes.go:22-30 | two texts agree in lower case exactly when they differ at most in the case of ASCII letters |
| Attributes.LowerIsLower | rfc4511/attributes.go:22-30 | lower case changes nothing but the case of letters and leaves no capital one |
| Attributes.KeyForgetsCase | rfc4511/attributes.go:22-46 | descriptions that differ only in case have the same key |
| Attributes.Key | rfc4511/attributes.go:22-46 | the path without sorting and the path with split, sort and deduplicate both give the canonical key |
| Attributes.CanonicalOptions | rfc4511/attributes.go:44-45 | sorted and compacted options are strictly increasing with the same members |
| Attributes.IncreasingUnique | rfc4511/attributes.go:28-46 | a strictly increasing list is determined by its members |
| Attributes.FindPut | rfc4511/attributes.go:113-131 | setting an attribute changes what its key finds and nothing else, and keeps keys distinct |
| Attributes.FindWithout | rfc4511/attributes.go:135-152 | deleting a key makes it absent, keeps every other attribute and their order |
| Attributes.Collection.Lookup | rfc4511/attributes.go:94-108 | finds what a linear scan of the insertion-ordered list finds |
| Attributes.Collection.SetKeyed | rfc4511/attributes.go:120-131 | replaces in place or appends, and says which |
| Attributes.Collection.Set | rfc4511/attributes.go:113-115 | sets as the list does |
| Attributes.Collection.Delete | rfc4511/attributes.go:135-152 | deletes as the list does, with the index in step |
| Attributes.Collection.MoveDown | rfc4511/attributes.go:146-150 | the loop over the index moves every later entry down by one |
| Attributes.Collection.Build | rfc4511/attributes.go:66-79 | builds as setting one attribute after the other |
| Attributes.Collection.Clone | rfc4511/attributes.go:172-186 | a collection of its own with the same attributes in order |
| Attributes.Collection.Decode | rfc4511/attributes.go:201-220 | fails exactly if the reader does or two descriptions have the same key, leaving the receiver as it was, and else holds the attributes in order |
| Resolve.Members | gen/resolve.go:232-282 | succeeds exactly if every reachable class is known, declares known attributes once each and no cycle is reachable; lists every reachable class once, after all its superclasses; a member is required exactly if a reachable class has it in MUST; ends on cyclic input |
| Resolve.Walker.Walk | gen/resolve.go:236-257 | walks one class, failing only for a reason the schema has |
| Resolve.Walker.WalkSups | gen/resolve.go:249-253 | the loop over superclasses finishes them all |
| Resolve.Walker.Finish | gen/resolve.go:254-274 | a class is finished after its superclasses, with its members collected |
| Resolve.Walker.DeclareMembers | gen/resolve.go:257-273 | accepts exactly known and unrepeated names, required ones first |
| Resolve.Walker.Declare | gen/resolve.go:262-272 | one list of names, with MUST winning over MAY |
| Resolve.FinishedResolves | gen/resolve.go:232-282 | a finished order that has the roots is exactly what is reachable and has no cycle |
| Resolve.PathDescends | gen/resolve.go:232-282 | along any inheritance path the places in the order strictly descend |
| Resolve.StackCycle | gen/resolve.go:242-244 | meeting a class that is being walked exhibits a cycle |
| Paging.Collect | client.go:224-344 | reading a search to its end yields the entries and the referral URIs of successive pages in order, up to the first error or empty cookie, and reports success exactly if the search ended well, for every transcript |
| Paging.EndsWell | client.go:290-344 | a search ends without an error if and only if some page is complete with an empty cookie (any, if not paged) and every page before it is complete with a cookie |
| Paging.YieldsReached | client.go:290-344 | it yields the entries and URIs of all pages up to the first that it does not go on from, and of no later one |
| Paging.PageEnds | client.go:307-338 | a page fails exactly if it is not entries and references followed by one successful final response on a cleanly closing stream, or has no readable cookie though paged; otherwise the search stops exactly on an empty cookie and goes on with exactly a non-empty one |
| Paging.PageRows | client.go:300-306 | the entries and URIs of a page are those before its first reply that is neither |
| Paging.Entries.ReadRow | client.go:300-306 | one entry or reference is taken from the front of what is still to come |
| Paging.Entries.constructor | client.go:224-238 | the first request carries an empty cookie, and everything the transcript holds is still to come |
| Paging.Entries.Next | client.go:290-344 | hands out the first entry still to come across page boundaries, and says false exactly when none are left, the search then being done or failed exactly as the transcript ends; never reads a missing stream |
| Paging.Entries.ReadReply | client.go:294-343 | one turn of that loop |
| Paging.Entries.FinishPage | client.go:309-338 | the final response of a page ends the search, fails it, or asks for the next page with exactly its cookie, as the page's end says |
| Paging.Entries.StartPage | client.go:370-385 | opens a stream only when none is open, and otherwise refuses without sending anything |
| Paging.Entries.CloseStream | client.go:387-394 | closes the stream, if any, and forgets it |
| Paging.Entries.Close | client.go:361-368 | ends the search with no stream open |
| Paging.PagedResultsCookie | client.go:535-565 | the first paged-results control decides; its absence is an error |
| Paging.CookieRoundTrip | client.go:528-565 | a cookie put into a control comes out of it again, wherever it stands behind controls of other kinds, and without such a control there is none |
| Paging.CookieIff | client.go:535-565 | a control value yields a cookie if and only if it is a sequence of an integer and that cookie with nothing behind either, inside the limits |
| Paging.ControlOctets | client.go:528-533 | the control's value octet by octet: 0x30 around 0x02 with the size and 0x04 with the cookie |

## Left out

- Dialing, TLS, sockets, contexts and timers: their effects are environment choices of the transition systems (a context that ends, bytes accepted, a peer that closes, the clock).
- Byte ownership and aliasing of slices: bytes are immutable sequences, so what callers may share or must copy is not modelled; an operation is named by its place in a sequence instead of a pointer, and a copied Attributes value that shares its store is not modelled.
- Unsolicited responses and the Notice of Disconnection: a queue without interleaving properties of its own; their retirement of the connection is an environment step.
- Error offsets, messages and wrapping: errors are classes; that an error of acquireWriter after an ambiguous retirement wraps both outcome sentinels is not modelled.
- Who else retires a connection, and why: the retirements of writeAll, of sendAbandon and of the read loop are part of their steps; besides, any goroutine may retire at any time, which covers every other call of retire in the code.
- initializationSession's operation limit and stream bookkeeping: counters without interleaving properties beyond the connection's own.
- The observer's hooks, logging and tracing output: only the number and the kinds of its dispatches are modelled.
- Backoff delays and their jitter, and the comparison of frozen profiles: a dial may succeed or fail at any time and take any time.
- Pool operations that wait: the blocking between two critical sections is an interleaving; the change channel and the per-endpoint waiter counts, which only statistics read, are not modelled.
- gen: attribute inheritance, OID expansion, models, templates and YAML are not modelled; attribute inheritance is the same cycle check on a single chain.
- The other RFC 4511 messages, auth, ldapmodel and the DAO layer: easier codecs of the same kind, or thin layers.
- Filter.DecodeFilter: decoders are function values in the source and so functions on cursors here; FilterDecoder has the object form. The double bounding of an assertion filter to the same element is done once.
- Attributes.Key: lower case is that of ASCII letters; descriptions with other letters, which are not valid descriptions, would be mapped further by the code.
- ConnObject.Conn.RouteResponse: the wait for the write of the request to be observed is reported to the caller instead of blocking; ConnReader has the waiting.
- Paging.Collect: a transcript is finite, so a server that sends empty pages with fresh cookies for ever is not modelled.
- ConnWire.PeerReads: stated for limits that allow the connection's own requests of fourteen octets, three elements and four integer octets; encodeInternalRequest does not check its messages against the configured limits.
