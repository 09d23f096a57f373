# beamd in Dafny

beamd exposes local development servers on public hostnames: an agent keeps one tunnel session to an edge, the edge
routes public requests over streams of that session, and a request log is shipped to a control plane. This project
models the parts of it that are hard to get right (concurrent bookkeeping, crash recovery, teardown order) and proves
what they promise.

Protocols are state machines. A step is one critical section, one channel or file operation, or one answer of the
environment; every interleaving of steps is a run, and the main theorems hold in every state of every run. Where the
code updates fields in place, a class does the same, and its methods are proved against the steps of the machine.
Networks, file systems, clocks and library code are environments that may answer anything their interface allows.

| file | what it holds |
|---|---|
| `Options.dfy`, `Sets.dfy`, `Counting.dfy` | shared vocabulary: an optional value, sizes of sets, counters as what they count |
| `Lines.dfy`, `RepairTail.dfy`, `Shipper.dfy`, `FileSink.dfy`, `Pipeline.dfy`, `Drains.dfy` | the request log: lines in a byte file, tail repair, the shipper, the sink, both together under crashes and rotation, and what a drain achieves |
| `Registry.dfy`, `RegistryRuns.dfy`, `EdgeTable.dfy`, `SharedHosts.dfy` | the routing table: its steps, their interleavings, the maps updated in place, and host lists that upset its gauge |
| `Admission.dfy`, `Leases.dfy`, `EdgeRun.dfy`, `LateBytes.dfy`, `EdgeLimits.dfy`, `Traffic.dfy` | the edge's slots, stream leases, traffic reports and shutdown, as one machine; a run of it that loses a byte; the capacity settings; the traffic totals |
| `SessionLife.dfy`, `QuicStream.dfy`, `YamuxGate.dfy` | the transports: a session's end, a QUIC stream's two directions, the yamux open gate |
| `Candidates.dfy`, `Replay.dfy` | the client: choosing a transport, replaying registrations, matching replies to calls |
| `Naming.dfy`, `Labels.dfy` | hostnames, certificate coverage, derived labels, a tunnel's host set |
| `BoundedCache.dfy`, `CertGate.dfy`, `TokenStore.dfy` | the two capped caches, the issuance gate, token scopes |

## What turned out false

Each of these has an input that shows it (a run, a table, a script or a name) and a statement of exactly when the
property does hold.

- The sink takes any failure of its own stat of `<path>.1` for absence and renames over it
  (`Pipeline.FailedSinkStatDestroysALine`). The rename loses nothing exactly when everything in `<path>.1` was accepted
  (`Pipeline.FailedSinkStatSafeExactly`); right before the shipper's removal it loses exactly what the newly rotated file
  still had to ship (`Pipeline.RenameBeforeRemoval`); in all other cases it is harmless for good
  (`Pipeline.HarmlessExactly`, `Pipeline.NothingIsLost`).
- The shipper does the same with its stat, adopts the live file, and leaves unshipped lines behind its cursor
  (`Pipeline.FailedStatStrandsALine`, `Pipeline.FailedStatSafeExactly`). They stay on disk, but nothing rotates again
  until a restart from a cursor of another file; the cursor just saved is not one (`Pipeline.StuckForGood`).
- The sink loses events without counting them: when the flush of a rotation stops short (`FileSink.LostInRotation`,
  exactly then: `FileSink.Sink.WriteOne`, `FileSink.ShortFlushLoses`), when a tail repair failed and the torn line
  spoils the next one (`FileSink.LostBehindTornLine`, exactly then: `FileSink.Sink.BufferLine`), and when it is closed
  with events in a broken writer (`FileSink.LostInClose`, exactly those: `FileSink.Sink.Close`).
- The tunnel gauge goes wrong in two kinds of step and no other, and exactly when `RegistryRuns.GaugeSafe` says
  (`RegistryRuns.StepGaugeExactly`, over runs `RegistryRuns.GaugeExactUntil`). A register does it when it evicts a dead
  tunnel of another slug and then finds its own slug at the cap (`Registry.CrossSlugDrift`), or takes the last host of
  another tunnel of its own session (`Registry.SwallowDrift`). An unregister does it unless exactly one tunnel loses its
  last host, or nothing is removed: when its tunnel's list still names a host that another tunnel took
  (`Registry.SharedHostDrift`), or when the name is unknown and its fallback host belongs to another tunnel
  (`Registry.StrayNameDrift`). `SharedHosts.dfy` shows host lists a scope gives for the last three.
- Bytes counted after a stream's totals were loaded are never reported (`LateBytes.LateByteIsLost`); exactly those:
  `EdgeRun.SavedReportComplete`.
- A control-stream reader that holds a reply for a call whose channel is full and which has ended, answered or not, blocks
  for good (`Replies.ReaderCanWedge`, `Replies.WedgedForever`); while the call still waits, its own receive frees the
  reader (`Replies.BlockedReaderFreed`), unless it gives up first.
- A certificate decision can be an approval in the middle of a cooldown (`CertGate.AllowedInsideCooldown`): exactly when
  the cooldown started between the call's look and its store (`CertGate.AllowedWhileCoolingExactly`).
- A raw Write can begin after CancelWrite (`QuicStream.WriteAfterAbort`): the one that had passed its check when the abort
  came, and no other; exactly then: `QuicStream.LateWriteExactly`.
- A server name with an empty label is accepted and gets a certificate that does not cover it
  (`Naming.EmptyLabelsNotCovered`); exactly those: `Naming.CoveredExactly`.
- The host shown for a tunnel may be one it does not answer on (`Labels.ShownHostNotListed`); exactly when:
  `Labels.HostsForTunnel` and `Labels.ShownHostIsListed`.

## Model

| member | source | states |
|---|---|---|
| `Pipeline.NothingIsLost` | internal/reqlog/shipper.go:90-206 | in every state of every run of sink and shipper, with crashes, lost cursor saves, restarts from any saved cursor, refused posts, rotations and harmless renames over a rotated file: each valid complete line that reached disk was accepted or is on disk; and, unless the shipper's stat of a rotated file failed, lies after the cursor |
| `Pipeline.StepKeepsInv` | internal/reqlog/shipper.go:90-206 | every file operation, post and save of either side, but a harmful rename, keeps the invariant behind it |
| `Drains.DrainTakesAll` | internal/reqlog/shipper.go:90-206 | from any state of the pipeline with the shipper idle and no failed stat behind it: a tick and then the shipper's own steps with working stats, reads and posts, up to the first return to idle, leave every valid complete line on disk accepted |
| `Drains.DrainExists` | internal/reqlog/shipper.go:90-206 | and such a drain exists from every such state |
| `Pipeline.NextDrainSendsTheRest` | internal/reqlog/shipper.go:90-147 | the lines that the drain of the shipper run on its own is specified to send include every one not yet accepted |
| `Pipeline.NeverPastEnd` | internal/reqlog/shipper.go:172-178 | with nobody else editing the files, no cursor the shipper follows is ever past the end of its file, so the restart from offset 0 is not taken and a read changes nothing but where the shipper stands |
| `Pipeline.FailedStatSafeExactly` | internal/reqlog/shipper.go:100-144 | a failed stat of the rotated file is harmless if and only if there is no older rotated file or all of it was accepted |
| `Pipeline.AdoptSafeExactly` | internal/reqlog/shipper.go:139-146 | adopting the live file is lossless if and only if everything in older files was accepted |
| `Pipeline.FailedStatStrandsALine` | internal/reqlog/shipper.go:100-144 | a concrete run in which the failed stat leaves a line behind the cursor |
| `Pipeline.StuckForGood` | internal/reqlog/file.go:168-187 | with the cursor on the live file and a rotated file present, a step keeps that so if and only if it is neither a restart from a cursor of another file nor a rename of the sink |
| `Pipeline.FailedSinkStatSafeExactly` | internal/reqlog/file.go:175-186 | after a failed stat of the sink, renaming loses nothing if and only if there is no rotated file or all of it was accepted |
| `Pipeline.FailedSinkStatDestroysALine` | internal/reqlog/file.go:175-186 | a concrete run in which that stat destroys an unshipped line |
| `Pipeline.RotateKeepsInv` | internal/reqlog/file.go:318-327 | a rename over an accepted rotated file keeps the whole invariant wherever the shipper stands, provided the live file was accepted, too, if the shipper is about to remove |
| `Pipeline.HarmlessExactly` | internal/reqlog/file.go:175-186 | a rename is of that kind if and only if it loses nothing at once and nothing by the removal that may follow |
| `Pipeline.TrueStatIsHarmless` | internal/reqlog/file.go:175-186 | a stat of the sink that tells the truth never leads to a harmful rename |
| `Pipeline.RenameBeforeRemoval` | internal/reqlog/shipper.go:109-137 | the rename just before the shipper removes the file it finished loses nothing if and only if the live file was accepted, too |
| `Shipping.ReadBatch` | internal/reqlog/shipper.go:214-250 | the lines and byte count of a batch are the complete non-empty lines up to the batch's end; each error case exactly when it applies |
| `Shipping.Shipper.DrainFile` | internal/reqlog/shipper.go:166-206 | terminates; what the control plane took is the valid lines between the start and the cursor, in order, once, for every batch size; the cursor saves sit on line boundaries; an accepting peer means fully drained |
| `Shipping.Shipper.ShipBatch` | internal/reqlog/shipper.go:185-204 | the cursor moves, and is saved, only after a 2xx or a batch without valid lines |
| `Shipping.Shipper.Drain` | internal/reqlog/shipper.go:90-147 | whatever the peer answers, it takes a beginning of what there is to send, and the rotated file is removed only when all of it was taken; with an accepting peer: the rotated file's rest, then the live file, each line once |
| `Shipping.Shipper.FinishOld` | internal/reqlog/shipper.go:107-143 | the rotated file is finished and removed, or kept with a beginning of it taken |
| `Shipping.BatchEndsAtLineEnd` | internal/reqlog/shipper.go:235-250 | a batch ends at a line end or where it began, so no torn tail is consumed |
| `RepairTail.RepairTail` | internal/reqlog/file.go:257-299 | the chunked backward scan keeps exactly the file up to its last newline, for every chunk size, and reports whether it cut |
| `RepairTail.RepairKeepsCursor` | internal/reqlog/file.go:257-299 | the cut never goes below an offset on a line boundary and changes no complete line |
| `FileSink.Sink.WriteOne` | internal/reqlog/file.go:142-188 | every event taken stays intact on disk, pending, counted or lost silently; the last if and only if the write works and either a torn line spoils it or a rotation's flush stops short |
| `FileSink.Sink.BufferLine` | internal/reqlog/file.go:155-168 | a written event is lost silently if and only if the torn line before it makes the joined line invalid |
| `FileSink.Sink.Rotate` | internal/reqlog/file.go:318-327 | the events lost silently are exactly those whose newline the ignored flush did not reach |
| `FileSink.Sink.Reopen` | internal/reqlog/file.go:131-140 | giving up a broken writer counts everything pending in it |
| `FileSink.Sink.FlushTick` | internal/reqlog/file.go:190-208 | a tick loses nothing silently, and after one whose opening works the sink writes again |
| `FileSink.Sink.Run` | internal/reqlog/file.go:104-228 | over any script of events, ticks and answers: with rotation flushes and tail repairs that work, no event is ever lost uncounted; each of the two is needed |
| `FileSink.Sink.Close` | internal/reqlog/file.go:104-115 | the events lost silently are exactly those whose newline stays in the buffer, all of a broken writer's buffer |
| `FileSink.LostInRotation` | internal/reqlog/file.go:318-327 | for any event, a script that loses it uncounted in a rotation whose flush fails |
| `FileSink.LostBehindTornLine` | internal/reqlog/file.go:232-244 | for any event and a torn line that spoils it, a script that loses it uncounted after a failed repair |
| `FileSink.LostInClose` | internal/reqlog/file.go:107-115 | for any event, a script that loses it uncounted in a close with a broken writer |
| `FileSink.Sink.Open` | internal/reqlog/file.go:232-253 | a torn line found on opening is cut and counted once |
| `FileSink.ShortFlushLoses` | internal/reqlog/file.go:318-327 | a flush of a file that ends with an event loses an event if and only if it stops anywhere before the end |
| `Registry.RegisterKeepsAll` | internal/edge/edge.go:1268-1378 | with disjoint host sets a register keeps route consistency, the exact gauge, the cap and host ownership |
| `Registry.RepliesMean` | internal/edge/edge.go:1268-1378 | invalid_name, name_taken and over_limit are answered exactly when the name is too long, a wanted host is served by another open session, or the slug still holds its cap after the eviction; a registered new tunnel answers on every wanted host; a refusal other than for the cap leaves the table alone |
| `Registry.RegisterGaugeExactly` | internal/edge/edge.go:1333-1375 | with any host sets, the gauge stays exact if and only if, by the guards met on the way, the register neither evicts and then finds its slug at the cap nor swallows another tunnel of its session |
| `Registry.SwallowDrift` | internal/edge/edge.go:1363-1375 | tables on which a session's second tunnel swallows its first and both are counted |
| `Registry.CrossSlugDrift` | internal/edge/edge.go:1333-1361 | a table on which evict-then-refuse leaves the gauge wrong |
| `Registry.ReclaimNeverOverLimit` | internal/edge/edge.go:1321-1361 | a register that reclaims a dead tunnel of its own slug is never refused with over_limit |
| `Registry.RegisterSparesOpen` | internal/edge/edge.go:1298-1319 | a register leaves every route of every other open session |
| `Registry.RemoveGaugeExactly` | internal/edge/edge.go:1400-1412 | with any hosts, the locked part of unregister keeps the gauge exact if and only if exactly one tunnel loses its last host, or nothing is removed |
| `Registry.SharedHostDrift` | internal/edge/edge.go:1392-1412 | a table, reached by two registers that keep the gauge, on which an unregister takes two tunnels and counts one |
| `Registry.FirstOfTwo` | internal/edge/edge.go:1363-1375 | the first of those registers |
| `Registry.SecondOfTwo` | internal/edge/edge.go:1363-1375 | the second of those registers |
| `Registry.StrayNameDrift` | internal/edge/edge.go:1392-1412 | a table on which the fallback host of an unknown name takes one off for no tunnel |
| `Registry.RemoveKeepsSound` | internal/edge/edge.go:1392-1412 | with any hosts, the locked part of unregister keeps routes, names and host lists in agreement, and the cap |
| `Registry.RemoveKeepsAll` | internal/edge/edge.go:1392-1412 | with disjoint host sets, it keeps the gauge, too, and removes exactly that tunnel |
| `SharedHosts.SwallowedByScope` | internal/edge/hostnames.go:122-173 | host lists of one scope before and after the base became a custom domain, with which a register swallows a tunnel |
| `SharedHosts.BothVanishByScope` | internal/edge/hostnames.go:122-173 | host lists with which an unregister takes two tunnels |
| `SharedHosts.StrayNameByScope` | internal/edge/edge.go:1392-1398 | in the flat shape, an unknown name whose fallback host is another tunnel's custom host |
| `Registry.ForgetKeepsAll` | internal/edge/edge.go:1414-1418 | forgetting a name no route serves keeps everything |
| `Registry.UnregisterFrees` | internal/edge/edge.go:1392-1418 | after a whole unregister the name is free, nothing serves it, and the slug holds one tunnel less |
| `Registry.DropKeepsAll` | internal/edge/edge.go:1421-1443 | dropping a session keeps everything, also after its tunnels were reclaimed: no double decrement |
| `Registry.DropKeepsGauge` | internal/edge/edge.go:1427-1443 | the drop keeps the gauge exact with any hosts |
| `RegistryRuns.RoutesAlwaysSound` | internal/edge/edge.go:1268-1443 | in every interleaving of sessions, with any hosts: routes name open sessions that know the name and list the host, and every slug is within its cap |
| `RegistryRuns.StepGaugeExactly` | internal/edge/edge.go:1268-1443 | with any hosts, a step keeps the gauge exact if and only if the table before it is as stated for its kind |
| `RegistryRuns.GaugeExactUntil` | internal/edge/edge.go:1268-1443 | over runs, the gauge is the number of distinct tunnels up to the first step that is not so, and wrong after that step |
| `RegistryRuns.TableAlwaysSound` | internal/edge/edge.go:1268-1443 | in every interleaving whose steps bring in disjoint host sets, all of it, gauge included |
| `RegistryRuns.OthersSpareOpenRoutes` | internal/edge/edge.go:1298-1443 | no step of another session removes or replaces a route of an open session |
| `EdgeTable.Edge.Register` | internal/edge/edge.go:1268-1378 | the in-place register is the table's register step, reply included; `Registry.RepliesMean` says what that reply means |
| `EdgeTable.Edge.RemoveHosts` | internal/edge/edge.go:1400-1412 | the in-place unregister section is the table's step |
| `EdgeTable.Edge.DropSession` | internal/edge/edge.go:1425-1443 | the in-place drop is the table's step, counting distinct names |
| `EdgeTable.Edge.Scan` | internal/edge/edge.go:1298-1319 | the host scan finds a conflict exactly when there is one, and else all dead tunnels in the way |
| `EdgeTable.Edge.EvictAll` | internal/edge/edge.go:1333-1344 | evicting tunnel by tunnel removes all their routes and bookkeeping and nothing else |
| `EdgeTable.Edge.CountHeld` | internal/edge/edge.go:1348-1356 | the session-by-session count is the number of distinct tunnels of the slug |
| `Admission.StepKeepsInv` | internal/edge/edge.go:521-685 | every step from accept to the end of the handler keeps slots in use equal to holders, the pre-auth map and session set exact, and the wait groups exact |
| `Admission.GiveBackNeverBlocks` | internal/edge/edge.go:919-985 | no release meets an empty channel and no wait group goes below zero, so no release frees another connection's slot |
| `Admission.AllOverMeansAllFree` | internal/edge/edge.go:987-1139 | when every connection is over every slot is free: no exit path leaks one |
| `Admission.InvMeansSound` | internal/edge/edge.go:937-985 | the map guards of promoteAuthenticated and releasePreauth always find their transport |
| `Admission.DownStopsAdmission` | internal/edge/edge.go:521-586 | after the shutdown flag no handler is added and no transport enters the pre-auth map or the session set |
| `Admission.GrantsExactly` | internal/edge/edge.go:533-539 | each slot is granted exactly while fewer connections than the limit hold one, the authenticated one only while up |
| `Admission.AdmitsExactly` | internal/edge/edge.go:926-984 | a transport enters the pre-auth map, and is promoted, exactly while the edge is up |
| `Admission.StartsExactly` | internal/edge/edge.go:541-585 | a handler starts exactly while the edge is up |
| `Admission.HandshakeLeads` | internal/edge/edge.go:644-684 | what a handshake and the negotiated protocol lead to |
| `Leases.StepKeepsInv` | internal/edge/edge.go:173-232 | every step of a dial and its watcher keeps global and session slots and both watcher groups equal to their holders, within capacity, and reports exact |
| `Leases.GiveBackNeverBlocks` | internal/edge/edge.go:193-222 | no lease release or watcher release meets an empty channel or group |
| `Leases.GrantsExactly` | internal/edge/edge.go:173-217 | a dial is let in exactly while its session admits, and gets each slot exactly while fewer dials than the capacity hold one |
| `Leases.LeaseOutlivesStream` | internal/edge/edge.go:1909-1990 | a lease whose stream exists is returned only after the stream is done and reported, and never twice |
| `Leases.GlobalIsSumOfSessions` | internal/edge/edge.go:173-201 | global slots in use are the session slots in use plus the half-taken acquisitions |
| `EdgeRun.SavedReportComplete` | internal/edge/traffic.go:194-224 | in every run that ends flushed, what was saved of a stream is all it counted if and only if no byte was counted after the step that loaded its totals; there is such a step |
| `EdgeRun.TotalsAfterLoad` | internal/edge/traffic.go:222-224 | from the load on, a stream's totals never change |
| `LateBytes.LateByteIsLost` | internal/edge/traffic.go:216-224 | a run of the whole edge, from idle to the final flush, with one byte counted and a report of none |
| `Leases.QuietMeansReported` | internal/edge/traffic.go:256-275 | with no watcher left, every stream there ever was is reported exactly once |
| `Leases.ClosedStaysClosed` | internal/edge/edge.go:209-228 | a session that stopped admitting streams never gains a watcher |
| `EdgeRun.StepKeepsInv` | internal/edge/edge.go:691-871 | the whole edge: connections, dials, workers and Shutdown together keep all of the above |
| `EdgeRun.SlotsBalance` | internal/edge/edge.go:173-201 | in every run: every slot has one holder, no channel is over capacity, stream slots balance |
| `EdgeRun.WindowsStayBounded` | internal/config/server.go:330-337 | in every run of a serveable configuration, leases times the yamux window never exceed 1 GiB |
| `EdgeRun.CapWasAdvertised` | internal/edge/edge.go:1072 | in every run, a session's stream capacity is the smaller of what is configured and what its agent advertised in its hello |
| `EdgeRun.AuthSlotOutlivesStreams` | internal/edge/edge.go:1444-1456 | a session's authenticated slot is free only when it has no lease and no watcher |
| `EdgeRun.ShutdownClosesEverything` | internal/edge/edge.go:695-727 | every transport still before or after authentication is in the snapshots and closed before Shutdown waits |
| `EdgeRun.NothingStartsAfterFlag` | internal/edge/edge.go:691-727 | once the flag is up no accept, handler, session, proxy or background group grows: every begin section refuses |
| `EdgeRun.FlushIsLast` | internal/edge/edge.go:811-871 | if the workers joined, the final flush holds every leased stream's totals exactly once, all groups are empty and nothing is reported later, dials detached from their request included |
| `Traffic.Conserved` | internal/edge/traffic.go:65-76 | every tunnel with a slug holds what it held plus the sum of its reports |
| `Traffic.Unbilled` | internal/edge/traffic.go:65-68 | a report without a slug changes nothing |
| `Traffic.KeysGained` | internal/edge/traffic.go:65-76 | the store gains exactly the reported tunnels that have a slug |
| `Traffic.OrderDoesNotMatter` | internal/edge/traffic.go:65-76 | streams that end in another order leave the same totals |
| `Traffic.FlushThenLoad` | internal/edge/traffic.go:133-179 | reading back what a flush wrote, in any record order, gives the same totals |
| `Traffic.Store.RecordTraffic` | internal/edge/traffic.go:65-76 | the in-place store is what its reports add up to |
| `Traffic.Store.Flush` | internal/edge/traffic.go:154-164 | the records list every tunnel once, with its totals |
| `EdgeLimits.Server.FinalizeRuntime` | internal/config/server.go:270-348 | fills the omitted settings on every path and accepts exactly the serveable configurations; a refusal names a setting that is wrong; the QUIC exposure check never refuses |
| `EdgeLimits.FillIsIdempotent` | internal/config/server.go:262-269 | finalizing twice is finalizing once |
| `EdgeLimits.ExposureFits` | internal/config/server.go:330-338 | the exposure product cannot wrap a 64-bit integer |
| `EdgeLimits.StreamCapacity` | internal/edge/edge.go:320-334 | an agent can lower but never raise its session's stream capacity |
| `SessionLife.DoneAfterChildren` | internal/tunnel/session.go:145-207 | in every run: once the session's Done is closed, every child ever registered has its Done closed; Done closes once; at most one CONNECTION_CLOSE (section 19.19 of RFC 9000) is sent, with the code of CloseInfo |
| `SessionLife.FirstEventDecides` | internal/tunnel/session.go:145-165 | from the first terminal event on, CloseInfo is fixed and no child registers |
| `SessionLife.WinnerSends` | internal/tunnel/quic.go:178-200 | in every run, a CloseWithError that claimed first has sent exactly one CONNECTION_CLOSE, with its own code, when it returns, and the session is finished |
| `SessionLife.SentFromCall` | internal/tunnel/quic.go:178-200 | what was sent carries the code and reason that some call passed, and CloseInfo says the same |
| `SessionLife.StepKeepsInv` | internal/tunnel/quic.go:178-208 | every claim, registration, completion, finish and local close keeps the session's invariant |
| `SessionLife.TerminalIsFinal` | internal/tunnel/session.go:145-165 | one step never undoes a terminal state, a Done or a sent close |
| `SessionLife.SessionState.Claim` | internal/tunnel/session.go:145-155 | keeps the session's invariant; the first claim wins and fixes the close info, and no claim adds a child |
| `SessionLife.SessionState.Register` | internal/tunnel/session.go:157-165 | keeps the invariant; a stream becomes one that Done waits behind exactly while nothing terminal has happened |
| `SessionLife.SessionState.Unregister` | internal/tunnel/session.go:167-181 | keeps the invariant: a forgotten child has its Done closed and still counts as registered |
| `SessionLife.SessionState.FinishLocked` | internal/tunnel/session.go:183-197 | keeps the invariant; the first call gets every child ever registered whose Done is not closed, any other call none |
| `QuicStream.RawCallsAreSafe` | internal/tunnel/quic_stream.go:72-204 | in every run: raw Close at most once, never during a raw Write, never after CancelWrite; CancelWrite at most once; no raw Write begins after raw Close and at most one after CancelWrite; Done closed once, exactly when both directions are terminal |
| `QuicStream.WriteAfterAbort` | internal/tunnel/quic_stream.go:96-107 | a run with that one raw Write |
| `QuicStream.LateWriteExactly` | internal/tunnel/quic_stream.go:96-144 | a raw Write begins after CancelWrite if and only if an abort reset the stream after the Write's check |
| `QuicStream.SendMovesForward` | internal/tunnel/quic_stream.go:109-157 | the sending state only moves open, FIN, reset (section 3.1 of RFC 9000), and no Done or terminal receive is undone |
| `QuicStream.CloseAchieves` | internal/tunnel/quic_stream.go:109-160 | in every run, a CloseWrite that returned has ended sending; a Close that returned has ended receiving, too, and Done is closed |
| `QuicStream.Adapter.CloseWriteSection` | internal/tunnel/quic_stream.go:115-131 | keeps all promises on the raw stream and Done; nothing can be written after it, Done is closed exactly if receiving had ended, and raw Close is called exactly if sending was open |
| `QuicStream.Adapter.AbortSection` | internal/tunnel/quic_stream.go:133-144 | keeps them; from any state both directions end, Done is closed once, CancelWrite was called at most once |
| `QuicStream.Adapter.MarkReceiveTerminal` | internal/tunnel/quic_stream.go:178-183 | keeps them; Done is closed exactly if sending had ended |
| `QuicStream.Adapter.EndWithParent` | internal/tunnel/quic_stream.go:197-203 | keeps them; both directions end and Done is closed once, without a call on the raw stream |
| `YamuxGate.GateNeverPanics` | internal/tunnel/yamux.go:137-291 | in every run: tokens in use are opens in progress plus incomplete slot-holding streams, each token taken is in use or was returned once, and no release finds the gate empty |
| `YamuxGate.QuietGateIsEmpty` | internal/tunnel/yamux.go:459-477 | when all opens returned and all streams are done the gate is empty |
| `YamuxGate.StepKeepsInv` | internal/tunnel/yamux.go:137-238 | every timeout, cancel, close, failure and completion path keeps the gate's books |
| `Candidates.Client.ConnectOnce` | internal/client/client.go:501-547 | whatever the network answers, and whenever Close is called: each kind begins at most once and in the preferred order, in automatic mode the second if and only if the first was unavailable (dial failure not terminal, timeout, lost network, or joined and lost or idle without a code) and nobody cancelled; every dial finds all earlier transports done and no refusal by message or close, success installs exactly the last transport on a client not closed, failure installs none and accounts for all |
| `Candidates.NoDialAfterRefusal` | internal/client/client.go:867-905 | in a safe attempt no dial follows a refusal by message or by application close, an unjoined transport or an installed session |
| `Candidates.Client.Attempt` | internal/client/client.go:504-545 | one candidate: installed, over, or cleaned up; the next follows if and only if this one was unavailable, nobody cancelled and there is one; the fallback counter and time |
| `Candidates.Client.Candidate` | internal/client/client.go:553-600 | a success that raced a deadline is cleaned up before anything else |
| `Candidates.Client.Install` | internal/client/client.go:907-927 | installs unless closed or the slug changed, and else changes nothing |
| `Candidates.Client.Order` | internal/client/client.go:568-591 | automatic mode tries both kinds, TCP first exactly after a recent fallback |
| `Candidates.TryQuic` | internal/client/client.go:604-638 | addresses are tried in order, each next one if and only if the network was down for the last, with everything joined |
| `Candidates.Negotiate` | internal/client/client.go:651-726 | every failed hello leaves a joined, or terminally failed, candidate, as eligible as the network's answers make it; any answer but hello_ok ends the attempt, and an error message is on record as a refusal |
| `Candidates.FailCandidate` | internal/client/client.go:867-905 | an eligible failure stays so if and only if the transport was joined and its final close is the client's own, or was lost or idle without a code, which then names the cause |
| `Candidates.CloseDecides` | internal/client/client.go:751-808 | which closes decide by themselves, which allow a fallback (if and only if), and that a peer's code never does |
| `Candidates.DialFaultMeans` | internal/client/client.go:837-865 | a failed dial is eligible if and only if its category is not terminal or, without one, it is a timeout or a lost network and not a cancellation |
| `Candidates.RefusalsAndLabels` | internal/client/client.go:751-789 | which code is reported as which refusal, and the fixed labels |
| `Replay.ReplayLoop` | internal/client/client.go:1022-1093 | "replay complete" means every name intended with the same port at every look since the first snapshot was acknowledged, and is missing only if some call was refused; no call is made for a name not intended at the look before it |
| `Replay.CompleteMeansRegistered` | internal/client/client.go:1022-1133 | in any interleaving with the session's reader and other calls, each such name was acknowledged on that session by a reply that names it |
| `Replay.ReplayIntended` | internal/client/client.go:1065-1093 | one pass acknowledges or reports failed every chosen name that stayed as it was |
| `Replies.RepliesReachTheirCall` | internal/client/client.go:386-449 | in every run, every reply that answered a call or lies in its channel is for its tunnel: `registered` with its name, or an error with its name or none |
| `Replies.DispatchedToItsCall` | internal/client/client.go:1115-1160 | a message read while a call was pending is put into that call's channel if and only if it is for its tunnel, and into no other |
| `Replies.StepKeepsInv` | internal/client/client.go:1095-1160 | the reader never puts a foreign reply into a call's channel |
| `Replies.WedgedForever` | internal/client/client.go:1115-1160 | a reader blocked on a call that ended reads nothing ever again |
| `Replies.BlockedReaderFreed` | internal/client/client.go:1115-1160 | in every other case the call's own receive frees the reader |
| `Replies.ReaderCanWedge` | internal/client/client.go:400-449 | a concrete run that blocks the reader |
| `Naming.SlugRoundTrip` | internal/naming/naming.go:79-134 | SlugFromHost recovers the slug from every rendered host |
| `Naming.HostnameInjective` | internal/naming/naming.go:79-94 | no two (label, slug) pairs share a host in the hyphen and subdomain shapes |
| `Naming.FlatSharesByLabel` | internal/naming/naming.go:79-87 | in the flat shape two tunnels share a host if and only if they share a label |
| `Naming.RenderedHostsAreCovered` | internal/certs/certs.go:124-155 | every rendered host is covered by its namespace's one-label wildcard (section 6.4.3 of RFC 6125) |
| `Naming.CoveredExactly` | internal/certs/certs.go:124-155 | an accepted server name is covered by one of the names issued for it if and only if none of its labels is empty |
| `Naming.EmptyLabelsNotCovered` | internal/certs/certs.go:124-155 | names with an empty slug or tunnel label that are accepted and that none of the names issued for them covers |
| `Labels.Sanitize` | internal/naming/derive.go:23-50 | the loop computes the specified form, which is empty or a valid label |
| `Labels.SanitizedIsLabel` | internal/naming/derive.go:23-50 | for every input and every hash: empty or a valid label (section 2.1 of RFC 1123), tidy, at most 63 characters |
| `Labels.SanitizeIsIdempotent` | internal/naming/derive.go:23-50 | applying it twice changes nothing |
| `Labels.FixedPoints` | internal/naming/derive.go:23-50 | it changes nothing if and only if the input is empty or a valid label without a double hyphen |
| `Labels.ReplacedAt` | internal/naming/derive.go:25-33 | letters, digits and hyphens stay and every other character becomes a hyphen |
| `Labels.LongTextsKeepTheirHash` | internal/naming/derive.go:41-50 | a tidied text of at most 63 characters is kept whole; a longer one keeps a beginning of at most 56 and the hash of all of it |
| `Labels.HostsForTunnel` | internal/edge/hostnames.go:122-173 | the host list is non-empty, without duplicates, and exactly the bound slugs' hosts and the domains' hosts; the shown host is listed if and only if a domain is primary or the shown slug's host is listed |
| `Labels.ShownHostIsListed` | internal/edge/hostnames.go:142-173 | in terms of the scope: the shown slug's host is listed if and only if the slug is bound, or hidden by the shape, or a custom domain is its own subdomain of the base |
| `Labels.ShownHostNotListed` | internal/edge/hostnames.go:160-173 | scopes whose shown host is not listed |
| `BoundedCache.Evict` | internal/certs/decisiongate.go:140-153 | no expired entry stays, nothing is added, and exactly half the cap stays if more were live |
| `BoundedCache.StoredFits` | internal/auth/http_store.go:145-150 | storing keeps the cap, whatever was evicted |
| `BoundedCache.SmallEvictionKeepsAll` | internal/auth/http_store.go:157-170 | an eviction that finds at most half the cap live drops no live entry |
| `CertGate.GateHolds` | internal/certs/decisiongate.go:66-136 | in every run: the cache is within its cap, every approval answered is backed by one stored at most posTTL before, only approved names cool down, cooldown starts without a success between are a cooldown apart |
| `CertGate.StepKeepsInv` | internal/certs/decisiongate.go:66-136 | every section of overlapping Decide calls, failures and successes keeps it |
| `CertGate.AllowedWhileCoolingExactly` | internal/certs/decisiongate.go:79-92 | over runs: a call stores its answer during a cooldown if and only if, since its look, a failure was recorded for the approved and not cooling name, no success after it, less than a cooldown ago |
| `CertGate.CoolingWasApproved` | internal/certs/decisiongate.go:111-128 | in every run, a name in the cooldown map is there since a failure recorded, at the time kept with it, while the cache held an approval of it |
| `CertGate.CachedNeverWhileCooling` | internal/certs/decisiongate.go:67-77 | a cached approval is never given during a cooldown |
| `CertGate.LookAnswers` | internal/certs/decisiongate.go:67-77 | a look refuses during a cooldown, else answers with the cached verdict, approval or denial, while it has not expired, else asks |
| `CertGate.AllowedInsideCooldown` | internal/certs/decisiongate.go:66-129 | a concrete run with an approval during a cooldown |
| `CertGate.DecisionGate.LookUp` | internal/certs/decisiongate.go:67-77 | keeps the gate's invariant; answers with the cached, unexpired verdict outside a cooldown and refuses during one; an approval is backed by one stored at most posTTL ago |
| `CertGate.DecisionGate.Remember` | internal/certs/decisiongate.go:82-92 | keeps the invariant and the cap; adds the one verdict and nothing else, and an approval is on record from now |
| `CertGate.DecisionGate.RecordFailure` | internal/certs/decisiongate.go:111-128 | keeps the invariant; afterwards the name cools exactly if it did or was approved, a running cooldown is not extended and none is forgotten early |
| `TokenStore.AuthorizesExactly` | internal/auth/http_store.go:99-122 | a request is resolved exactly as the endpoint's reply allows |
| `TokenStore.Parse` | internal/auth/http_store.go:206-249 | what is kept of a reply grants exactly what the reply does |
| `TokenStore.DefaultIsGranted` | internal/auth/http_store.go:99-122 | there is a default scope exactly when anything is granted, and it is granted |
| `TokenStore.ScopesAreGranted` | internal/auth/http_store.go:99-151 | in every run of overlapping lookups: the cache is within its cap, and a resolved scope is granted by a reply for its token stored no longer ago than the positive time to live |
| `TokenStore.StepKeepsInv` | internal/auth/http_store.go:126-151 | every section of overlapping lookups keeps the cap, the backing of entries and the freshness of results |
| `TokenStore.HitHasReply` | internal/auth/http_store.go:127-133 | every hit can be answered: the reply its entry rests on is on record |
| `TokenStore.HttpStore.LookUp` | internal/auth/http_store.go:127-133 | the first section answers exactly with an entry that is fresh, and that rests on a reply for the token within its time to live |
| `TokenStore.HttpStore.Remember` | internal/auth/http_store.go:135-150 | the second section keeps the cap and the backing of every entry from any valid state; a failed fetch is refused and not kept |

## Left out

- Assumptions of the pipeline: inodes are never 0 and never reused, nobody else edits the log files, and one batch is read from one snapshot of a file, so a read that races a tail repair is not covered.
- `Pipeline.NothingIsLost`: lines are compared by content, so two identical lines count as one delivery; duplicates of delivery are allowed.
- `FileSink.Sink.Run`: an untailed sink overwrites an older rotated file, which the count of archived lines does not subtract.
- `RegistryRuns.TableAlwaysSound`: assumes for the gauge that the hosts a register or an unregister brings in are owned by its (name, slug) pair; `Naming.HostnameInjective` gives that for default hosts of valid names in the hyphen and subdomain shapes, not for custom domains nor for the unvalidated name of an unregister. Without the assumption `RegistryRuns.RoutesAlwaysSound`, `RegistryRuns.StepGaugeExactly` and `RegistryRuns.GaugeExactUntil` are the exact statements.
- `EdgeRun.FlushIsLast`: the flush is the list of reports made up to that moment; `Traffic.dfy` says what they add up to. Failing file writes, periodic flushes and extra traffic sinks are not modelled.
- `Traffic.Conserved`: byte counts are unbounded, without 64-bit wrap-around.
- `EdgeRun.StepKeepsInv`: slots, leases and shutdown are modelled on values, without update in place or aliasing; public request handlers are one phase, and the listener and raw connection sets are not modelled.
- `SessionLife.StepKeepsInv`: streams are identifiers; raw connection errors arrive as arbitrary close infos, without the translation of library errors and without the reason's length limit.
- `YamuxGate.StepKeepsInv`: half-close timers and the drain goroutine only appear as the moment a stream's completion is called.
- `Candidates.Client.ConnectOnce`: a dial either gives one transport or none; the dialer's own races and address resolution are not modelled, nor is the reconnect loop with its backoff.
- `Replay.ReplayLoop`: bounded by the number of passes after which the session ends; names restored by a rollback between two looks count as changed.
- Rollback of the intended map after a failed Register, and concurrent Register calls for one name.
- `Labels.Sanitize`: lower-casing is a character map that leaves lower-case letters, digits, hyphens and dots alone; the hash is any six lower-case alphanumeric characters.
- `CertGate.GateHolds`: the clock is monotone and read once per section.
- The one-winner resolution of QUIC accept attempts and its metrics: two flags under one lock.
- TLS, ACME, the QUIC and yamux libraries and net/http: environments.
- Command line, prompts, configuration files, the local daemon's API, DNS providers, device login, metrics text, header rewriting and byte copying: plumbing without state worth a proof.
