# Mahiron verification

A Dafny model of the state machines in the Mahiron DVR tuner server, with proofs. Run `dafny verify dfyconfig.toml` in this
directory.

Each component has a file of definitions that say what the code does, as functions on values, and files of theorems about
them. Where the source changes objects in place, a further file has a class with the source's fields, methods and loops;
every method is proved to make exactly the step that the definitions describe, so the theorems hold of the objects.

| component | definitions | theorems | objects |
|---|---|---|---|
| job manager | `JobProtocol` | `JobInvariant`, `JobTheorems`, `JobShutdown`, `JobOutcomes`, `JobExamples` | `JobManager` |
| CRC, sections, packets | `Crc`, `Packets`, `Sections` | the same, `SectionStreams` | `SectionAssembly`, `PacketReader` |
| PAT and service views | `Pat`, `Demux` | `PatTables`, `ServiceView`, `ServiceShows`, `TablesArrive`, `Continuity` | `DemuxObjects` |
| DSM-CC carousels | `Carousel` | `CarouselTheorems`, `CarouselAcceptance`, `CarouselKeeping`, `CarouselAssembly`, `LogoCarousel` | `CarouselObject` |
| EPG peers | `SharedPeers`, `PeerFilling` | the same | the same |
| EPG readiness | `Readiness` | the same, `ReadinessSchedule` | `ReadyGroup` |
| pooled chunks | `ChunkPool` | `ChunkPoolTheorems`, `ChunkPoolOrder`, `ChunkPoolDelivery` | |
| tuner reservation | `Tuners` | `TunerTheorems`, `TunerOutcomes` | `TunerManager` |
| fan-out | `FanOut`, `FanOutRuns` | the same, `FanOutDelivery` | `PacketWriter` |
| module cache | `ModuleCache` | the same, `ModuleCacheHits` | `ModuleCacheObject` |

Sections under one mutex are one step. Handlers, timers, device makers, parsers that are not modelled, fresh identifiers and
the order in which a map is walked are parameters or free choices, so the theorems hold for all of them.

Where the code does less than one would expect, the model follows the code, and the exact condition is proved:

- `Abort` of a job that is not running does not dispatch (`JobTheorems.AbortSettledExactly`).
- The shutdown sweep ranges over a history that trimming shifts in place, and can step over jobs (`JobShutdown.SweepExactly`).
- `samePAT` reads a missing program as PID 0, and can take two PATs for one (`ServiceView.SamePatExactly`), so that a view can
  go stale (`ServiceView.StaleExactly`).
- `ObserveDII` can return modules as accepted that it has evicted (`CarouselAcceptance.AcceptedRemainExactly`,
  `CarouselAcceptance.NothingLostExactly`), and a module that it announces again can come back empty
  (`CarouselKeeping.DiiLeavesExactly`).
- The block count of a module wraps around at 32 bits (`CarouselAssembly.NoBlocksExactly`,
  `CarouselAssembly.WrapCompletesFromCacheOnly`).
- A waiting request is not woken by every step that makes a tuner fit for it (`TunerTheorems.MissedExactly`).
- `GetVersion` can mark another entry than the one it returns (`ModuleCache.TouchesExactly`).
- A section that begins in the last one or two bytes of a packet is lost (`SectionStreams.CutHeaderIsLost`); all other packings
  are assembled (`SectionStreams.PackedRoundTrip`).
- A full channel of the writer can have room again when its oldest message is taken out
  (`ChunkPoolDelivery.CanLoseWithRoom`, `ChunkPoolDelivery.LostOnlySo`).

## Model

| member | source | states |
|---|---|---|
| `JobInvariant.RunsKeepInvariant` | internal/job/manager.go:132-371 | In every state of every run, over all interleavings of enqueue, handler return, retry timer, abort and shutdown, whose signal can come between the starts of any dispatch loop: running is the number of active jobs and at most maxConcurrent; the queue has exactly the queued jobs, once each; activeKeys is exactly the keys of unfinished jobs and no two share one; activeExclusiveKeys is the disjoint union over running jobs; every unfinished job is in history; done was closed exactly once for finished jobs and not at all for others |
| `JobInvariant.StepKeeps` | internal/job/manager.go:132-371 | Each single step keeps that invariant |
| `JobInvariant.TrimKeeps` | internal/job/manager.go:625-639 | Trimming drops only finished jobs and ends with a history within its limit or without a finished job |
| `JobTheorems.StepEvolves` | internal/job/manager.go:187-347 | Every step either leaves a job where it is or lowers its measure (retries left, then status); a handler return lowers it and counts once |
| `JobTheorems.HandlerStartsAreBounded` | internal/job/manager.go:210-246 | In every run a handler has returned as often as it was started, unless it is running, and is started at most once more than there are retry delays |
| `JobTheorems.StartsRespectDependencies` | internal/job/manager.go:291-331 | A step that starts a job leaves no unfinished job that holds a key the started job depends on |
| `JobTheorems.DispatchSettles` | internal/job/manager.go:176-185 | After dispatch the manager is shut down, or full, or every queued job waits for an active key or exclusive key |
| `JobTheorems.StepSettles` | internal/job/manager.go:132-371 | Steps that end in dispatch reach that state, and all other steps keep it, except an abort that strands work |
| `JobTheorems.AbortSettledExactly` | internal/job/manager.go:465-487 | Abort of a queued or standby job does not dispatch: it leaves startable work behind exactly if some queued job waits at most for the aborted one while there is room |
| `JobTheorems.RunsStaySettled` | internal/job/manager.go:176-185 | In a run whose aborts strand nothing, every state is settled |
| `JobTheorems.IdleMeansDone` | internal/job/manager.go:176-185 | With acyclic dependencies, a settled manager with nothing running and nothing in standby has an empty queue and only finished jobs |
| `JobShutdown.SweepExactly` | internal/job/manager.go:349-360 | The shutdown sweep finishes every queued job, and every standby job exactly if its pass over the history, which trimming shifts under it, reaches them all |
| `JobShutdown.StandbyPassExactly` | internal/job/manager.go:355-359 | The standby pass leaves nobody in standby exactly if it steps over nobody |
| `JobShutdown.SteppedOver` | internal/job/manager.go:349-365 | With a history above its limit, the standby job after one that is removed is stepped over |
| `JobShutdown.ShortHistoryIsSwept` | internal/job/manager.go:349-360 | A history within its limit is always swept completely |
| `JobExamples.SweepCanMissStandby` | internal/job/manager.go:349-360 | A reachable state in which the sweep leaves a job in standby |
| `JobExamples.AbortCanStrandWork` | internal/job/manager.go:478-487 | A reachable settled state in which aborting a standby job leaves an idle manager with a startable job in its queue |
| `JobOutcomes.RunsDecide` | internal/job/manager.go:187-213 | In every run, whatever the outcome and whenever the shutdown signal comes: a handler that returns takes its job to standby exactly if it failed with an error that may be retried, the job was not aborted, it has a retry left and there is no shutdown; otherwise the job is finished, marked as failed exactly if there was an error and no abort |
| `JobOutcomes.NeverStartedAgain` | internal/job/manager.go:187-213 | In every run, a job whose handler has succeeded, was cancelled, or failed with an error that may not be retried, is finished for good and never started again |
| `JobOutcomes.FinishedIsFinal` | internal/job/manager.go:248-280 | In every run the record of a finished job stays as it is |
| `JobOutcomes.AbortDecides` | internal/job/manager.go:433-487 | An abort finds a job exactly if it is unfinished; a running one goes on marked as aborted, a queued one or one in standby is finished as aborted, all others stay as they are |
| `JobOutcomes.TimerDecides` | internal/job/manager.go:236-246 | A retry timer takes its job back into the queue exactly if that is in standby and there is no shutdown, and does nothing otherwise |
| `JobOutcomes.EnqueueDecides` | internal/job/manager.go:132-174 | An enqueue is rejected exactly for shutdown, an invalid definition, or an unfinished job with its key, in this order; otherwise the new job is queued or already running, with no retry, abort or failure to its name |
| `JobOutcomes.NothingStartsAfterSignal` | internal/job/manager.go:176-185 | In every run, whatever runs after the shutdown signal was already running when it came |
| `JobOutcomes.TrimDropsOldest` | internal/job/manager.go:625-639 | Trimming takes away the oldest finished jobs, as many as the history is above its limit or as there are |
| `JobOutcomes.QueueKeepsOrder` | internal/job/manager.go:132-371 | Every step keeps the order of the queue, and puts newcomers behind all who were there |
| `JobOutcomes.StartsInOrder` | internal/job/manager.go:291-300 | A job is started before one that is ahead of it in the queue only if a dependency or an exclusive key holds that one back |
| `JobManager.Manager.Enqueue` | internal/job/manager.go:132-174 | Enqueue takes the protocol step: the rejections in their order, or the new job and a dispatch |
| `JobManager.Manager.HandlerReturned` | internal/job/manager.go:187-208 | The locked part of run takes the protocol step: completion, then retry or finish, then dispatch |
| `JobManager.Manager.TimerFired` | internal/job/manager.go:236-244 | A retry timer takes the protocol step, and does nothing if it comes too late |
| `JobManager.Manager.Abort` | internal/job/manager.go:433-487 | Abort takes the protocol step for the running, the queued and the standby case, and reports truly whether it found the job |
| `JobManager.Manager.Rerun` | internal/job/manager.go:489-511 | Rerun enqueues the definition of a job that is still in history and rerunnable |
| `JobManager.Manager.ShutdownSweep` | internal/job/manager.go:110-115 | The locked part of Shutdown takes the protocol step |
| `JobManager.Manager.Dispatch` | internal/job/manager.go:176-185 | The dispatch loop starts the jobs that the protocol starts, in its order |
| `JobManager.Manager.PopRunnable` | internal/job/manager.go:291-300 | The first runnable job is taken out of the queue |
| `JobManager.Manager.DependenciesSatisfied` | internal/job/manager.go:302-314 | True exactly if no dependency is active and no exclusive key is held |
| `JobManager.Manager.StartJob` | internal/job/manager.go:316-331 | Starting marks the job, the active entry, its exclusive keys and the count |
| `JobManager.Manager.CompleteActive` | internal/job/manager.go:333-339 | Completion takes back what starting marked |
| `JobManager.Manager.Settle` | internal/job/manager.go:199-205 | Retry or finish as the protocol decides |
| `JobManager.Manager.Finish` | internal/job/manager.go:248-280 | A job is finished once, its key is freed and the history trimmed |
| `JobManager.Manager.TrimHistory` | internal/job/manager.go:625-639 | The trimming loop in place, with what stays behind in the backing array |
| `JobManager.Manager.AbortAll` | internal/job/manager.go:349-354 | The first loop of the sweep, over a copy of the queue |
| `JobManager.Manager.SweepStandby` | internal/job/manager.go:355-359 | The second loop of the sweep, over the slots that the history had at first |
| `Crc.TableStepIsClockByte` | ts/section.go:145-151 | One table lookup does eight clocks of the bit-serial register of Annex A of ISO/IEC 13818-1 |
| `Crc.TableCrcIsRegister` | ts/section.go:145-151 | On every byte sequence and from every start the table-driven CRC is that register |
| `Crc.ResidueIsZero` | ts/section.go:145-151 | A message with its own CRC behind it, high byte first, has CRC zero |
| `Crc.MakeTable` | ts/section.go:155-169 | The table loop fills every entry with the polynomial division of its index |
| `Crc.Crc32` | ts/section.go:145-151 | The CRC loop over the table computes the register |
| `Packets.WordIsShifted` | ts/packet.go:30-31 | Reading two bytes as a number is the shift and or of the source |
| `Packets.WordOfBytes` | ts/pat.go:49-57 | Writing a 16-bit word as two bytes and reading it gives it back |
| `Packets.AdaptedReadsBack` | ts/packet.go:33-86 | Bit 5 of the fourth byte announces an adaptation field and bit 4 a payload; the payload begins behind the field, and the first bit of the field signals a discontinuity |
| `Sections.PacketReadsBack` | ts/demux.go:403-432 | Every field that the assembler looks at is read back from a packet as the packetizer wrote it: PID, flags, counter, payload with its padding |
| `Sections.SectionRoundTrip` | ts/section.go:60-143 | From any prior state, feeding the packets of a well-formed section gives exactly that section, or nothing if its CRC is wrong or it is stuffing |
| `Sections.StreamRoundTrip` | ts/section.go:60-143 | The same for a list of sections with the counter threaded through |
| `Sections.OthersChangeNothing` | ts/section.go:60-67 | Packets of other PIDs, damaged ones and ones without payload change neither state nor result |
| `Sections.MultiplexRoundTrip` | ts/section.go:60-143 | End to end: whatever lies in between, exactly the packetized sections arrive, in order |
| `Sections.FeedDeliversValid` | ts/section.go:101-143 | Whatever packets arrive, a section is handed on only if its CRC is right |
| `SectionStreams.PackedRoundTrip` | ts/section.go:60-143 | However sections are packed into the packets of a PID, with packets that end one section, hold any number of whole ones and begin another, exactly the sections that the packets complete arrive, in order, unless their CRC is wrong; in any multiplex, as long as no section is cut within its first three bytes |
| `SectionStreams.CutHeaderIsLost` | ts/section.go:101-120 | The failing input: a section of which only one or two bytes fit into the packet that points at it is dropped, with all its later packets |
| `SectionStreams.LossCostsItsSection` | ts/section.go:60-143 | End to end: if any one packet of a stream of packetized sections is lost, every section arrives but the one that the packet belonged to |
| `SectionAssembly.ValidateCrc` | ts/section.go:20-26 | ValidateCRC, with the length checks before the CRC |
| `SectionAssembly.SectionAssembler.FeedAll` | ts/section.go:60-99 | FeedAll on the object computes the state and the sections of the specification |
| `SectionAssembly.SectionAssembler.ConsumePayload` | ts/section.go:101-120 | consumePayload: complete sections, and an incomplete rest into the buffer |
| `SectionAssembly.SectionAssembler.CompleteSections` | ts/section.go:122-143 | completeSections on the buffer |
| `SectionAssembly.FillPacket` | ts/demux.go:408-428 | One packet filled byte by byte is header, pointer, section bytes and padding |
| `SectionAssembly.PacketizeSection` | ts/demux.go:403-432 | The packetizing loop with its running counter |
| `Pat.BuildThenParse` | ts/pat.go:14-64 | Building succeeds exactly if the PMT PID has 13 bits; parsing the built section then gives back stream id, version and the one program, or the network PID for program 0 |
| `Pat.BuiltShape` | ts/pat.go:40-64 | A built section has 16 bytes, a right length field and a right CRC |
| `Pat.ParsedPidsFit` | ts/pat.go:28-36 | Every PID of a parsed PAT has 13 bits and no program is 0 |
| `PatTables.ParsesExactly` | ts/pat.go:14-38 | A section parses exactly if it is whole, a PAT and has a right CRC; it lists a program at the PID of the last of its entries for it, whatever entries there are, and the network PID in the same way for program 0 |
| `PatTables.CollectsExactly` | ts/scanner.go:78-101 | After any sections, a table holds under a number exactly the last one that counted with this number, as long as none with another id, version or last number has counted since; sections count if they are whole, in force now and not past the last number |
| `PatTables.CompletesExactly` | ts/scanner.go:78-101 | A section completes its table exactly if it counts and then every number up to its last is there |
| `PatTables.CombinesExactly` | ts/demux.go:213-229 | A complete PAT is taken exactly if all its sections parse, and lists a program at the PID that the last section with it gives |
| `Pat.ParsePat` | ts/pat.go:14-38 | The parsing loop, with its error cases |
| `Pat.BuildPatSection` | ts/pat.go:40-64 | The builder, byte by byte, with its error case |
| `ServiceView.ReadyExactly` | ts/scanner.go:91-100 | add reports a table as ready exactly if every number up to the last has its section |
| `ServiceView.SamePatExactly` | ts/demux.go:374-384 | samePAT is equality, except exactly if programs disappear that all had PMT PID 0 and as many others come |
| `ServiceView.ObserveKeepsDemux` | ts/demux.go:205-329 | In every run the programs are those of the current PAT with its PMT PIDs, and no PAT in use names a PID that the builder refuses |
| `ServiceView.PatsCountOn` | ts/demux.go:157-183 | Over every run the PAT packets of a view carry consecutive continuity counters, across all PAT changes, and each announces this service and no other |
| `ServiceView.ReceiverGetsEachPat` | ts/demux.go:168-178 | A receiver in any state assembles exactly one section from each of them, which lists exactly this service |
| `ServiceView.ReadyViewAnnounces` | ts/demux.go:157-178 | After every run, while the PAT is ready, the view shows a PAT packet for every PAT packet; it announces the service at the PMT PID of its program exactly unless the service has left behind the view and come back elsewhere, and then it announces PID 0 |
| `ServiceView.StaleExactly` | ts/demux.go:157-254 | After every run a view of the current generation holds another PMT PID than the ready PAT exactly if, since it was last rebuilt, its service left at PMT PID 0 under a PAT that samePAT took for the current one, and has come back at another PID |
| `ServiceView.ViewCanGoStale` | ts/demux.go:356-384 | A run, for any two services and any PMT PID but 0, after which the ready PAT has the service at that PID and the view announces it at PID 0 |
| `ServiceView.ShowsNothingElse` | ts/demux.go:157-183 | After every run, whatever the view shows is a PAT packet of its service, or the packet it was given, unchanged, on a PID allowed for the service |
| `ServiceShows.ShowsExactly` | ts/demux.go:157-183 | After every run from the start, a packet on a PID other than 0 is shown, unchanged, exactly if it is undamaged, the last complete PAT lists the service, and its PID is a common one, the PMT PID of that PAT, one that the last PMT of the service since it took this PMT PID named, or one that the last complete CAT named |
| `ServiceShows.ListedExactly` | ts/demux.go:205-254 | A service is at a PMT PID exactly if the last complete PAT lists it there |
| `ServiceShows.PmtExactly` | ts/demux.go:277-329 | A PID belongs to the service exactly if the last PMT of the service named it and the service has been at its PMT PID ever since |
| `ServiceShows.CatExactly` | ts/demux.go:256-275 | A PID is a CA PID exactly if the last complete CAT named it |
| `TablesArrive.PatArrives` | ts/demux.go:99-254 | A PAT of one section that comes in packets is followed, whatever was before: exactly its programs at its PMT PIDs are listed, and those PIDs are looked at |
| `TablesArrive.PmtArrives` | ts/demux.go:99-329 | A PMT that comes in packets on the PMT PID of its service replaces what the program names, and nothing else |
| `TablesArrive.CatArrives` | ts/demux.go:99-275 | A CAT that comes in packets on PID 1 joins its table, and the PIDs that a complete table names are the CA PIDs |
| `TablesArrive.AnnouncedIsShown` | ts/demux.go:99-183 | From the wire to the viewer: after the packets of a PAT and of a PMT of the service, every view of the service shows each undamaged packet on the PIDs that the PMT names |
| `TablesArrive.LooksExactly` | ts/demux.go:194-203 | Packets are assembled on nine PIDs of shared tables, on the PMT PIDs of all programs, and on the section PIDs that PMTs named |
| `TablesArrive.ObserveKeepsPmtPids` | ts/demux.go:205-329 | Every step keeps that the PMT PIDs which are looked at are exactly those of the listed programs |
| `TablesArrive.ForgetsExactly` | ts/demux.go:205-329 | What has come of a section is forgotten exactly for a PID that a PAT or PMT no longer names |
| `ServiceView.RunsKeepView` | ts/demux.go:157-183 | A view holds nothing, or the one packet of a one-program PAT for its service, in every run |
| `DemuxObjects.SamePatLoop` | ts/demux.go:374-384 | samePAT over the map in any order |
| `DemuxObjects.AddSection` | ts/scanner.go:78-101 | tableSectionSet.add with its loop |
| `DemuxObjects.OrderedSections` | ts/scanner.go:103-109 | tableSectionSet.ordered |
| `DemuxObjects.CombineSections` | ts/demux.go:213-225 | All sections of a PAT parsed and merged, or nothing if one is bad |
| `DemuxObjects.Demuxer.ObservePat` | ts/demux.go:205-254 | observePAT with its loops over maps in any order takes the step of the specification |
| `DemuxObjects.Demuxer.ObserveCat` | ts/demux.go:260-274 | observeCAT behind its guard, with the CA PIDs that all sections name |
| `DemuxObjects.Demuxer.ObservePmt` | ts/demux.go:277-314 | observePMT for a table of its own program, and nothing otherwise |
| `DemuxObjects.Demuxer.FeedWithPid` | ts/demux.go:99-135 | FeedWithPID assembles the packet, returns its sections with their PID and handles each, tables only on PIDs of their own kind; what happened is a run of the specification |
| `DemuxObjects.ServiceDemux.Packet` | ts/demux.go:157-183 | servicePacket takes the step of the view |
| `DemuxObjects.ServiceDemux.RebuildPatOutput` | ts/demux.go:356-372 | rebuildPATOutput; its panic cannot be reached |
| `CarouselTheorems.RunsKeepCarousel` | ts/dsmcc_carousel.go:101-317 | In every run of ObserveDII, ObserveDDB, Restore and ReleaseCompletedPayload: bytes in flight and bytes held stay within their limits, modules and rejections are disjoint, generations are unique, and counts agree with the received flags |
| `CarouselTheorems.VictimIsUnique` | ts/dsmcc_carousel.go:353-389 | Unique generations make the victim independent of the order of the map |
| `CarouselTheorems.RoomIsMade` | ts/dsmcc_carousel.go:135-140 | Evicting ends with room for any module within the limit, so the check behind the loop never fails, and touches no complete module |
| `CarouselTheorems.OldestGoFirst` | ts/dsmcc_carousel.go:353-370 | Whoever is evicted is older than every in-flight module that stays |
| `CarouselTheorems.NoMoreThanNeeded` | ts/dsmcc_carousel.go:135-136 | With the last evicted module there would have been no room |
| `CarouselTheorems.TrimKeeps` | ts/dsmcc_carousel.go:256-257 | Evicting payloads keeps the exempt module and everything in flight, and stops within the limit or when nothing else is held |
| `CarouselTheorems.OldestPayloadsGoFirst` | ts/dsmcc_carousel.go:372-389 | Evicted payloads are older than those that stay |
| `CarouselTheorems.StaysExactly` | ts/dsmcc_carousel.go:252-261 | A module that has become complete is kept exactly if it alone is within the limit |
| `CarouselAcceptance.DiiDecidesExactly` | ts/dsmcc_carousel.go:101-165 | A DII with distinct ids settles every module it names and no other: which are returned, and which are rejected for which reason, can be told before the call by sizes and limits; every module that is there has the download id, version, size and block size that the DII names, so what is missing without a rejection was evicted |
| `CarouselKeeping.DiiLeavesExactly` | ts/dsmcc_carousel.go:101-165 | Told from the carousel and the DII before the call, for each of its modules: it is there exactly if it is acceptable and nothing that the DII allocates pushes it out; it has kept all its blocks and its generation exactly if it was there with the same download id, version, size and block size and had not been pushed out by its turn, and otherwise is empty with a new generation |
| `CarouselAcceptance.AnnouncedAgainCanBeNew` | ts/dsmcc_carousel.go:124-153 | A failing input: a module that is announced again unchanged is evicted for another before its turn, and comes back empty |
| `CarouselAcceptance.SparesExactly` | ts/dsmcc_carousel.go:135-136 | Making room spares an in-flight module exactly if the new one fits beside it and all that is not older |
| `CarouselAcceptance.AcceptedRemainExactly` | ts/dsmcc_carousel.go:101-165 | All modules that ObserveDII returns are still in the carousel exactly if, at its turn, each module that is allocated fits beside all in flight from the oldest accepted module onwards |
| `CarouselAcceptance.NothingLostExactly` | ts/dsmcc_carousel.go:101-165 | All accepted modules are there, and those announced again have kept their blocks, exactly if each module that is allocated fits beside what was in flight before the call and is not older than the oldest one announced again, without what the DII has replaced or rejected by then, and beside what it has added by then |
| `CarouselAcceptance.FitsTogetherExactly` | ts/dsmcc_carousel.go:101-165 | If no incomplete module is announced again, as in a new carousel, what is accepted remains exactly if the sizes of all that is allocated sum to at most the limit |
| `CarouselAcceptance.AcceptedCanBeEvicted` | ts/dsmcc_carousel.go:124-153 | A failing input: two modules that fit one by one but not together are both returned, and only the second is there |
| `CarouselAssembly.AnnouncedWaits` | ts/dsmcc_carousel.go:141-151 | A newly announced module waits for whatever payload of its size comes |
| `CarouselAssembly.StillWaiting` | ts/dsmcc_carousel.go:223-251 | After any blocks, in any order, repeated and mixed with others, a module of which one is missing has received exactly those that came, and their bytes are in place |
| `CarouselAssembly.ReassemblesInAnyOrder` | ts/dsmcc_carousel.go:223-264 | A block completes the module exactly if it is the last one missing, and then the data is the payload, or the budget error if the payload alone is over the limit |
| `CarouselAssembly.RestoreIsReceiving` | ts/dsmcc_carousel.go:299-317 | Restore leaves the same carousel as receiving all blocks, in any order |
| `CarouselAssembly.RestoreExactly` | ts/dsmcc_carousel.go:299-317 | Restore does something exactly for an incomplete module with the same download id, version and size and a payload of that size: it is complete with the payload, or gone if the payload is over the limit |
| `CarouselAssembly.ReleaseExactly` | ts/dsmcc_carousel.go:277-285 | A payload is released exactly if the module is complete and still has it; nothing else changes |
| `CarouselAssembly.NoBlocksExactly` | ts/dsmcc_carousel.go:141-148 | A module has no blocks exactly if the 32-bit sum in the block count wraps around |
| `CarouselAssembly.WrapIgnoresBlocks` | ts/dsmcc_carousel.go:223-236 | Then every block for it is ignored and changes nothing |
| `CarouselAssembly.WrapCompletesFromCacheOnly` | ts/dsmcc_carousel.go:101-317 | Then no operation completes the module but Restore, exactly if that is given a matching payload within the limit |
| `CarouselObject.DsmccCarousel.Remove` | ts/dsmcc_carousel.go:340-351 | remove; the counters cannot underflow |
| `CarouselObject.DsmccCarousel.FindOldest` | ts/dsmcc_carousel.go:353-389 | The search for the victim over the map in any order |
| `CarouselObject.DsmccCarousel.ObserveDii` | ts/dsmcc_carousel.go:101-165 | ObserveDII with its loops: new state and accepted list as specified, counters equal to the sums |
| `CarouselObject.DsmccCarousel.ObserveDdb` | ts/dsmcc_carousel.go:223-264 | ObserveDDBWithResult: new state and result as specified |
| `CarouselObject.DsmccCarousel.Restore` | ts/dsmcc_carousel.go:299-317 | Restore, true exactly if the identity matches and the payload may be held |
| `CarouselObject.DsmccCarousel.ReleaseCompletedPayload` | ts/dsmcc_carousel.go:277-285 | ReleaseCompletedPayload, once per completed payload |
| `LogoCarousel.AssemblesExactly` | ts/logo_common.go:362-382 | assemble gives the payload, byte for byte, exactly if every block is there |
| `LogoCarousel.SameBytes` | ts/logo_common.go:328-346 | When the last block arrives, assemble gives for all blocks that came the bytes that the DSM-CC carousel holds, and before it nothing |
| `LogoCarousel.GivesTheSame` | ts/logo_common.go:328-360 | Over a run of the object: nothing is handed to the parser until the last block of the module arrives, and then exactly the bytes that the DSM-CC carousel holds after the same blocks |
| `LogoCarousel.RegistersExactly` | ts/logo_common.go:305-326 | A logo module that a DII names is kept with its blocks exactly if it was there with the same download id, version and size, and otherwise is new and empty; the block size is not compared |
| `LogoCarousel.ParsedOnce` | ts/logo_common.go:328-360 | Once a payload has been parsed, no block of its module hands out anything until a DII registers the module anew; a refused payload is handed out again when its block comes again |
| `LogoCarousel.ContainsExactly` | ts/logo_common.go:110-112 | A module is a logo module exactly if the marker occurs somewhere in its info |
| `LogoCarousel.LogoCarousel.ObserveDii` | ts/logo_common.go:305-326 | Logo modules are registered, and kept if announced again unchanged |
| `LogoCarousel.LogoCarousel.ObserveDdb` | ts/logo_common.go:328-360 | A wanted block is stored; a whole payload goes to the parser, and the module is done if that succeeds |
| `LogoCarousel.LogoCarousel.AssembleModule` | ts/logo_common.go:362-382 | The joining loop |
| `SharedPeers.SameGroupExactly` | internal/epg/program_merge.go:47-77 | Two programs land in the same peer group exactly if shared links connect their keys in some number of steps, in either direction |
| `SharedPeers.GroupedExactly` | internal/epg/program_merge.go:47-77 | Two programs are in one group exactly if a path leads from one to the other on which each key is named by a program of the one before, or the other way round, as shared, with a service and an event, on its own network unless another is given |
| `SharedPeers.LinkPartitions` | internal/epg/program_merge.go:38-45 | A union keeps classes equal to connectedness |
| `SharedPeers.CompressOk` | internal/epg/program_merge.go:33-35 | Path compression keeps the parent map a forest with the same classes |
| `SharedPeers.AttachOk` | internal/epg/program_merge.go:39-44 | Union keeps the parent map acyclic |
| `SharedPeers.Forest.Find` | internal/epg/program_merge.go:24-36 | find ends, returns the class representative and changes no class |
| `SharedPeers.Forest.Union` | internal/epg/program_merge.go:38-45 | union merges the two classes and no others |
| `PeerFilling.FilledExactly` | internal/epg/program_merge.go:94-126 | Fields that are not blank never change; a blank one becomes that of the first member of the group, in list order, that had one, and stays blank if there is none |
| `PeerFilling.SameToGive` | internal/epg/program_merge.go:79-83 | However many members are filled already, the group has the same to give |
| `PeerFilling.FillingTwiceIsOnce` | internal/epg/program_merge.go:20-126 | A second call on the same programs changes nothing: the groups are the same, and they have the same to give |
| `PeerFilling.FillFromPeers` | internal/epg/program_merge.go:94-126 | fillProgramFromPeers on the object, field by field |
| `PeerFilling.FillGroup` | internal/epg/program_merge.go:79-83 | A group in place, though later members see earlier ones filled |
| `PeerFilling.FillGroups` | internal/epg/program_merge.go:79-83 | All groups in any order give the same result |
| `PeerFilling.FillProgramsFromSharedPeers` | internal/epg/program_merge.go:20-84 | Every program takes its blank fields from its group as it was at the beginning |
| `Readiness.RunDescribes` | internal/epg/snapshot.go:125-203 | After every run a flag bit is set exactly if its section came since the last reset, a table has the one version of those sections, and exactly the sections are ignored that they let go |
| `Readiness.OrderDoesNotMatter` | internal/epg/snapshot.go:125-203 | The sections of one state of the schedule lead to the same group in any order, however often and whenever they come, as long as each comes in the same three-hour segment |
| `Readiness.OnlyGrows` | internal/epg/snapshot.go:142-187 | Between resets no bit is taken back, and a ready group stays ready |
| `Readiness.ChangesExactly` | internal/epg/snapshot.go:141-187 | observeReady reports no change exactly if there was no reset and the state is the same |
| `ReadinessSchedule.ReadyMeansComplete` | internal/epg/snapshot.go:125-253 | While sections of one schedule arrive, in any order, repeated and at any times, the group is ready exactly if of each of its tables some section came, and every section that the schedule has came too, unless its three hours of the day in Japan were over when a section of today's table came |
| `Readiness.ReadyExactly` | internal/epg/snapshot.go:241-253 | A group is ready exactly if no table misses a section |
| `Readiness.MissingExactly` | internal/epg/snapshot.go:315-330 | The missing sections are exactly those neither seen nor ignored, in increasing order |
| `Readiness.CompleteExactly` | internal/epg/snapshot.go:302-313 | A table is complete exactly if it misses nothing |
| `ReadyGroup.Group.ObserveReady` | internal/epg/snapshot.go:125-188 | observeReady on the bitmaps does to their bits what the specification says, and returns whether anything changed |
| `ReadyGroup.Group.Reset` | internal/epg/snapshot.go:190-203 | reset |
| `ReadyGroup.Group.IsReady` | internal/epg/snapshot.go:241-253 | ready |
| `ReadyGroup.IsTableComplete` | internal/epg/snapshot.go:302-313 | readyTableComplete over the bytes |
| `ReadyGroup.MissingSections` | internal/epg/snapshot.go:315-330 | readyMissingSections over the bits |
| `ChunkPoolTheorems.RunsKeepInv` | internal/util/dynamicmultiwriter.go:45-205 | Under all interleavings of writers, workers, Attach, Detach and the two phases of Close: a counter is the number of references (queued copies, writes in progress, enqueues to come), a chunk is in one place only, and listed subscribers are open |
| `ChunkPoolTheorems.StepKeepsInv` | internal/util/dynamicmultiwriter.go:45-205 | Each atomic step keeps that |
| `ChunkPoolTheorems.ReturnedOnce` | internal/util/dynamicmultiwriter.go:144-151 | Whoever takes the last reference returns a chunk that was not returned before |
| `ChunkPoolTheorems.PoolIsUnreferenced` | internal/util/dynamicmultiwriter.go:129-151 | What is in the pool, or on the way there, nobody refers to |
| `ChunkPoolTheorems.NoSendOnClosedChannel` | internal/util/dynamicmultiwriter.go:153-171 | Every send meets an open channel |
| `ChunkPoolTheorems.DeliveredIsWritten` | internal/util/dynamicmultiwriter.go:173-185 | What a subscriber is given are the bytes of a message as it was written |
| `ChunkPoolTheorems.NobodyIsStuck` | internal/util/dynamicmultiwriter.go:113-199 | A writer within Write and a worker with a chunk can always take a next step |
| `ChunkPoolTheorems.NothingLeaks` | internal/util/dynamicmultiwriter.go:173-199 | When all writers rest and all workers are done, no chunk is referenced |
| `ChunkPoolOrder.DeliveriesInOrder` | internal/util/dynamicmultiwriter.go:113-185 | With one writer, a subscriber gets messages in the order of writing, none twice |
| `ChunkPoolOrder.StepKeepsOrder` | internal/util/dynamicmultiwriter.go:113-185 | Each step keeps what is delivered, held and queued in order |
| `ChunkPoolDelivery.WriteReachesAll` | internal/util/dynamicmultiwriter.go:113-199 | Under all interleavings: when a Write finishes, its message has been put at the end of the line (got, held, queued) of every subscriber that was listed when it began, or both its tries for that subscriber met a channel with all its 128 places taken |
| `ChunkPoolDelivery.ListedExactly` | internal/util/dynamicmultiwriter.go:45-111 | In every run the messages are meant exactly for those who have attached and have not left, met an error or been closed since |
| `ChunkPoolDelivery.LostOnlySo` | internal/util/dynamicmultiwriter.go:146-185 | A message leaves a line only as the oldest of its channel, taken out by a writer that has found the channel full and done nothing since, or when the channel of a subscriber that has left is drained |
| `ChunkPoolDelivery.CanLoseWithRoom` | internal/util/dynamicmultiwriter.go:153-171 | The channel need not be full any more when its oldest message is taken out: a failing input in which the worker has taken one in between |
| `ChunkPoolDelivery.NeverRefused` | internal/util/dynamicmultiwriter.go:153-171 | With one writer no message is ever refused |
| `ChunkPoolDelivery.WriteIsLast` | internal/util/dynamicmultiwriter.go:113-199 | With one writer, when a Write finishes, its message is the last in the line of every subscriber that was listed when it began |
| `ChunkPoolDelivery.NothingAfterFailure` | internal/util/dynamicmultiwriter.go:173-199 | After a failed delivery a subscriber is given nothing more |
| `TunerTheorems.RunsKeep` | internal/tuner/manager.go:188-300 | In every run a tuner is in use exactly if it has a device, which is unreleased, and every unreleased device is the one of its tuner |
| `TunerTheorems.AtMostOneDevice` | internal/tuner/manager.go:249-265 | A tuner has at most one unreleased device |
| `TunerTheorems.LateCallsDoNothing` | internal/tuner/manager.go:375-420 | Stop and mark calls of a device that was released change nothing |
| `TunerTheorems.ReservationStands` | internal/tuner/manager.go:188-300 | Over every run a reservation keeps its device, priority, channels and flags until its own device is called |
| `TunerTheorems.AcquiresExactly` | internal/tuner/manager.go:188-229 | An attempt gets a device exactly if some matching, usable tuner without fault is free and can make one, and takes the first such in the rotation |
| `TunerTheorems.FailureIsTrue` | internal/tuner/manager.go:188-247 | A failed attempt means that all such tuners are busy; its victim is held with the least priority, below the request |
| `TunerTheorems.DecidesExactly` | internal/tuner/manager.go:104-136 | Each answer of AcquireDevice is given exactly if it is true |
| `TunerTheorems.VictimIsUnreleased` | internal/tuner/manager.go:231-247 | The victim is an unreleased device held with less priority than the request |
| `TunerTheorems.NoLostWakeUp` | internal/tuner/manager.go:124-131 | Once the victim has been released, by whomever, the channel that the attempt captured is closed |
| `TunerTheorems.FreeingNotifies` | internal/tuner/manager.go:283-300 | Over every run in which a tuner becomes free, the channels of all who waited before are closed |
| `TunerTheorems.MissedExactly` | internal/tuner/manager.go:98-265 | For every step from a state in which a request waits: its channel stays open although it could be served now, exactly if the step takes away the last reference of the only user that held a fitting tuner with at least its priority, or lowers that user, or reserves for less priority a tuner for which this request could not make a device |
| `TunerTheorems.SleepersHaveToWait` | internal/tuner/manager.go:98-146 | After every run without such steps, a request whose channel is still open has to wait |
| `TunerTheorems.WaiterMissesLeavingUser` | internal/tuner/status.go:293-314 | A reachable failing input: a user leaves, the waiting request could grab the tuner, and its channel is still open |
| `TunerTheorems.HeldIsReached` | internal/tuner/manager.go:188-265 | The state of that example is reached by reserving and adding a user |
| `TunerOutcomes.ReservesExactly` | internal/tuner/manager.go:188-265 | An attempt gets a device exactly if some tuner is enabled, of the channel type, usable, without fault, not in use and can make one; it is given the first such of the rotation, with its own priority and channels and no flag set, the rotation goes on after it, and nothing else changes |
| `TunerOutcomes.GrabsExactly` | internal/tuner/manager.go:124-247 | A request is told to grab from a device exactly if no tuner can be taken and the device holds the tuner whose reservation and users have the least greatest priority below the request, the first such in the rotation |
| `TunerOutcomes.AnswersExactly` | internal/tuner/manager.go:104-146 | Not found, unsupported, unavailable and waiting are each answered exactly if true |
| `TunerOutcomes.MarksSinceReserved` | internal/tuner/manager.go:377-420 | Over every run from a reservation until its device is released, the tuner is at fault exactly if its own device has been marked so, running exactly if the last of its marks says so, and stopped exactly if it has been marked stopped and not running since |
| `TunerOutcomes.FlagsExactly` | internal/tuner/manager.go:377-420 | The same from any state: each flag is as its own device's marks since leave it |
| `TunerOutcomes.FaultIsPassedOver` | internal/tuner/manager.go:203-205 | Over every run from a fault of the tuner's own device until its release, whatever is asked for: the tuner is neither available nor grabbable, no attempt changes it, and nobody is told to grab it |
| `TunerOutcomes.ReleaseClears` | internal/tuner/manager.go:283-300 | Releasing an unreleased device clears its tuner of device, flags, fault, priority, channels and users and closes the channel; nothing else changes |
| `TunerOutcomes.ReleasedCanBeTaken` | internal/tuner/manager.go:188-300 | After the release the tuner is without fault, and a request that it suits is given a device |
| `TunerOutcomes.UsersAreCounted` | internal/tuner/status.go:242-314 | In every run from the start and until the release: a user has as many references as it was added more often than removed, is gone exactly when there is none, and has the priority that it was last added with |
| `TunerManager.Manager.FindEffectivePriority` | internal/tuner/status.go:126-134 | The greatest of the reservation and user priorities |
| `TunerManager.Manager.BetterGrabCandidate` | internal/tuner/manager.go:231-247 | betterGrabCandidate |
| `TunerManager.Manager.TryAcquireLocked` | internal/tuner/manager.go:188-229 | The scan over all tuners from the rotation on |
| `TunerManager.Manager.ReserveTuner` | internal/tuner/manager.go:249-265 | reserveLocked |
| `TunerManager.Manager.ReleaseDevice` | internal/tuner/manager.go:283-300 | release, at most once per device |
| `TunerManager.Manager.MarkLocked` | internal/tuner/manager.go:377-420 | markRunning, markStopped and markFault, for the tuner's own device only |
| `TunerManager.Manager.AddTunerUser` | internal/tuner/status.go:242-265 | addUser |
| `TunerManager.Manager.RemoveTunerUser` | internal/tuner/status.go:293-314 | removeUser |
| `FanOut.Dispatch` | internal/stream/demux/demuxer.go:401-438 | The scan that removes finished subscribers from its list under its feet visits every live subscriber exactly once |
| `FanOutRuns.LosslessOrClosed` | internal/stream/demux/demuxer.go:401-438 | In every run a channel subscriber has been queued every packet since it was attached, up to now or to its end, without a hole; its queue was closed once if it is finished and else not |
| `FanOutRuns.RunsKeep` | internal/stream/demux/subscription.go:108-182 | Map, list and finished flags always agree |
| `FanOutRuns.ClosedFinishesAll` | internal/stream/demux/subscription.go:164-182 | Once closed, every subscription is finished and its queue closed exactly once |
| `FanOutDelivery.GetsWhatIsShown` | internal/stream/demux/demuxer.go:401-438 | Over every run a subscriber is queued exactly what it is due, in order: every packet for a channel, and what its view shows for a service; all of it as long as its subscription has not ended, and what came before the end otherwise |
| `FanOutDelivery.EndedExactly` | internal/stream/demux/demuxer.go:401-438 | Over every run a subscription has ended exactly if its writer or caller ended it, all was closed, a ready PAT did not list its service, or a packet was due to it while its queue held 16384 |
| `FanOutDelivery.GetsWhatItAccepts` | internal/stream/demux/demuxer.go:439-464 | Over every run a section subscriber is queued exactly the sections that it accepts, in order, until its subscription ends, which is exactly if its observer or caller ended it, all was closed, or more were due than its queue of 512 takes |
| `FanOutDelivery.StopsExactly` | internal/stream/demux/subscription.go:150-182 | The demuxer stops for good exactly when the last subscription ends or all is closed, and attaching is refused from then on |
| `FanOutDelivery.AttachStarts` | internal/stream/demux/demuxer.go:240-271 | Whoever attaches gets a new number and starts with nothing |
| `PacketWriter.WritePackets` | internal/stream/demux/subscription.go:40-78 | The bytes written are those of the queued packets, in order, however they were batched; no batch is larger than 64 packets |
| `PacketWriter.FillBatch` | internal/stream/demux/subscription.go:43-66 | One batch |
| `Continuity.ReportsExactly` | internal/stream/demux/demuxer.go:345-382 | On the packets of one PID a drop is reported exactly where the counter does not follow and the packet is not a single repeat of the one before |
| `Continuity.ReportsAlways` | internal/stream/demux/demuxer.go:345-399 | For any packets of a PID, with or without payload and with signalled discontinuities: a drop is reported exactly for a packet with a payload that signals no discontinuity, after one with a payload since the last signalled one, if its counter does not follow and it is no single repeat |
| `Continuity.ObservesExactly` | internal/stream/demux/demuxer.go:345-350 | The monitor ignores packets without sync byte, with an error, on the null PID, or whose adaptation field runs over |
| `Continuity.NoDropOnServicePats` | internal/stream/demux/demuxer.go:345-382 | No drop is ever reported on the PAT packets of a service view |
| `Continuity.Monitor.Observe` | internal/stream/demux/demuxer.go:345-399 | observe on its arrays, for the packet's PID and no other |
| `PacketReader.ReadAll` | ts/packet.go:118-153 | Over any input cut into any non-empty reads, its end reported alone or with the last bytes, reading ends; the packets are windows of the input that start with the sync byte, in order and apart; a clean stream comes out packet for packet |
| `PacketReader.Reader.Next` | ts/packet.go:118-153 | One result: the next window behind the last, or the end of input; on a clean stream the next packet |
| `PacketReader.Reader.Fill` | ts/packet.go:157-178 | fill: only ever adds what was read, also if the end comes with it, until there is enough or the input ends |
| `PacketReader.Reader.PacketReadyAt` | ts/packet.go:192-216 | packetReadyAt, with at most three following sync bytes |
| `PacketReader.Reader.DetectPacket` | ts/packet.go:180-190 | detectPacket finds only places where a packet may start, and the very first place if a packet may start there |
| `PacketReader.Reader.ConsumePacket` | ts/packet.go:218-233 | The packet without timestamp or parity, for all three packet sizes |
| `ModuleCache.LastPutOrMiss` | internal/stream/databroadcast/module_cache.go:105-183 | In every run of Get, GetVersion and Put a hit is the last content that was put, and the bytes stay within the limit |
| `ModuleCache.LeastRecentlyUsedFirst` | internal/stream/databroadcast/module_cache.go:105-183 | In every run of Get, GetVersion and Put the list is in the order of last use, so eviction takes first what was not used for longest |
| `ModuleCache.PutStays` | internal/stream/databroadcast/module_cache.go:155-183 | The entry just put is never evicted by its own put |
| `ModuleCache.DropIsSuffix` | internal/stream/databroadcast/module_cache.go:167-181 | Eviction drops the oldest entries, and no more than needed |
| `ModuleCache.OneSizeIsOneEntry` | internal/stream/databroadcast/module_cache.go:121-142 | When keys have their modules' sizes, a URL is unambiguous exactly if it has at most one entry |
| `ModuleCache.TouchesExactly` | internal/stream/databroadcast/module_cache.go:127-151 | Whatever the orders of its two loops over the map, GetVersion marks the entry that it returns exactly if the URL has no other entry |
| `ModuleCache.CanTouchAnother` | internal/stream/databroadcast/module_cache.go:127-151 | A reachable failing input: of two entries of one URL with equal module sizes one is returned and the other marked |
| `ModuleCacheHits.HitsExactly` | internal/stream/databroadcast/module_cache.go:105-183 | In every run Get hits exactly if the key was put with content that fits and nothing has evicted it since, and then with the last content put |
| `ModuleCacheHits.StaysExactly` | internal/stream/databroadcast/module_cache.go:105-183 | What evicts an entry, exactly: content put under another key that does not fit beside the entry and all that was used after it |
| `ModuleCacheObject.Cache.Get` | internal/stream/databroadcast/module_cache.go:105-119 | Get: the entry becomes the last used |
| `ModuleCacheObject.Cache.Put` | internal/stream/databroadcast/module_cache.go:155-183 | Put, with byte counter and eviction loop |
| `ModuleCacheObject.Cache.FindOldest` | internal/stream/databroadcast/module_cache.go:168-178 | The least use mark belongs to the first of the list |
| `ModuleCacheObject.Cache.FindVersion` | internal/stream/databroadcast/module_cache.go:127-138 | The first loop is left with the last entry of the URL that it meets, unless two differ in size |
| `ModuleCacheObject.Cache.PickVersion` | internal/stream/databroadcast/module_cache.go:144-150 | The second loop picks the first entry of the URL that it meets |
| `ModuleCacheObject.Cache.GetVersion` | internal/stream/databroadcast/module_cache.go:121-153 | GetVersion misses exactly if there is no entry or more than one size; otherwise, for some orders of the map, it returns what its first loop is left with and marks what its second loop meets first, and these are one entry if keys have their modules' sizes |

## Left out

- HTTP API, web UI, remote client, event publishing, logging, metrics, SQLite stores and configuration: plumbing.
- Job timestamps, results, error texts, `Wait`, gocron schedules and handler contexts: not part of the bookkeeping; the verdict of RetryIf and the UUIDs are parameters.
- Job history is a sequence plus what its shorter slices leave behind in the backing array; other sharing of slices is not modelled.
- JobManager.Manager.Rerun: its two locked sections are one method here; what happens between them is not modelled, because the second section alone is an ordinary enqueue.
- JobManager.Manager.Dispatch: the object's methods run without the shutdown signal in between; the protocol has the signal at every point of the dispatch loop.
- Job schedules (`Add`, `RunSchedule`) and read-only queries: they only call Enqueue or copy the history.
- `SectionAssembler.Feed` and its pending list: it only hands out one by one what FeedAll returns.
- SectionAssembly.SectionAssembler.FeedAll: sections and payloads are sequences, so that sections do not share memory with buffers is not shown.
- PMT, SDT, NIT, EIT, TOT, BIT, CDT and SDTT parsing: fixed layouts; what a PMT or a CAT names is any function of its bytes.
- The demuxer keeps its assemblers and table sets as values, and `Demuxer.services`, the outputs behind `ServicePacket`, is not modelled: a `ServiceDemux` does the same with an output of its own.
- The demuxer's generation and the carousel's and cache's use marks are unbounded; in the source they wrap around after 2^64 changes.
- Carousel modules are values in the map, and their bytes sequences, where the source has pointers and slices; reports and sorted listings are not modelled.
- CarouselAcceptance.AcceptedRemainExactly, CarouselAcceptance.NothingLostExactly, CarouselAcceptance.DiiDecidesExactly and CarouselKeeping.DiiLeavesExactly: for DIIs that name no module twice; `ObserveDii` itself and the run theorems take any DII.
- TablesArrive.PatArrives: for a PAT of one section; `PatTables` says when a PAT of several is complete and what it lists.
- TablesArrive.AnnouncedIsShown: the packets of the two tables come one after the other, and no other program shares the PMT PID.
- Parsing of DII and DDB sections and of logo images: fixed layouts.
- Program merging other than peer groups, and everything of the snapshot but readiness; times before 1970 are not modelled.
- ChunkPool is a state machine without objects: channels are sequences with a capacity, and the order in which waiting goroutines get a lock is free.
- Tuner devices are numbers with a released flag; processes, descramblers, and status reports are not modelled, of a user only its priority and reference count, and the waiting loop of AcquireDevice is the caller's.
- Subscriptions of the fan-out are values; starting and stopping the source, hooks and error values are not modelled.
- PacketReader.Reader.Next: read errors other than the end of input, and readers that return nothing without an error, are not modelled.
- `ModuleCache` on a nil receiver, which always misses.
