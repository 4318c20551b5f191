# akgentic-infra, modelled and proved in Dafny

akgentic-infra hosts teams of AI agents: it creates, places and resumes them, streams their
events to clients, connects them to chat channels and serves their workspaces. This project
models the parts of it where correctness is hard to see from one function, and proves what the
code promises of them for every input, every run and every interleaving.

`dafny verify dfyconfig.toml` checks everything. Paths below are relative to the repository.

## What is modelled

**The in-memory event stream** (`StreamProtocol`, `StreamSafety`, `StreamDrains`, `StreamCalls`,
`StreamNumbers`, `StreamClosing`, `StreamTraces`, `LocalEventStream`). Any number of threads append,
subscribe, remove and close, and each reader is read by one thread. A step is one access that
another thread can observe: a critical section under `_lock` or a stream's lock, but the list append
and each `sig.set()` separately, and every lock-free read of `read_next` on its own. `StreamSafety`
proves one invariant of all steps and the theorems about whole runs; `StreamDrains` proves that a
read answers what is due when it begins, and `StreamCalls` what each call has done once it is over;
`StreamTraces` gives concrete runs where a comment promises more than the code does.
`LocalEventStream` is the same code as classes. There each access of `read_next` is a method proved
to be the protocol's step, and `Others` stands for the other threads between two accesses: streams
grow as `StreamSafety.RunGrows` proves, and entries leave the map for good as
`StreamNumbers.EntryAt` and `StreamNumbers.GoneStays` do.

**Placement claims** (`PlacementProtocol`, `PlacementSafety`, `PlacementOutcomes`,
`PlacementTraces`, `LocalPlacement`). Concurrent creates and resumes share one in-flight table:
claim under the lock, run the team manager, settle the future, pop under the lock.
`PlacementOutcomes` says what each call ends with.

**App assembly** (`Assembly`, `StateWriters`, `AppBuilder`, `AssemblySplice`, `AssemblyOrder`).
The builder's checks, the middleware sort and reverse insertion, the lifespan stack, and what a
client keeps of a stock tier app when it splices its own modules into the list. `StateWriters` and
`AssemblyOrder` state the rules and orders on the modules themselves.

**Channel registry and router** (`ChannelRegistry`, `ChannelRouter`, `ChannelTexts`,
`ChannelContext`). The file map and the index that must agree with it; and the router as the list of
effects one message causes, with the imperative router proved to cause exactly those and
`ChannelTexts` saying what each kind of message does.

**Device-code polling** (`DevicePolling`), section 3.5 of RFC 8628.

**Workspace paths and gates** (`WorkspacePaths`, `TeamAccess`), **metadata type tags**
(`MetadataTags`) and **generated descriptions** (`Description`, on `Text`).

`Wrappers` and `Sequences` hold what all of them share.

## Where the code and its own comments differ

The model follows the code.

- `LocalStreamReader.close` does not signal the reader, although the comment in
  `src/akgentic/infra/server/routes/ws.py:285-289` says it does: `StreamSafety.CloseSetsNothing`,
  `StreamClosing.CloseLeavesParked`, and a run in `StreamTraces.CloseDoesNotWake`.
- `append` is documented as monotonic per team
  (`src/akgentic/infra/adapters/community/local_event_stream.py:165-173`). It is so exactly until
  the team is removed, and then numbers afresh: `StreamNumbers.NumbersGrowUnlessRemoved`,
  `StreamNumbers.AppendsShareIff`, `StreamNumbers.NumbersRestartWhenRemoved`, and a run in
  `StreamTraces.NumbersRestart`.
- The comment at `src/akgentic/infra/adapters/community/local_placement.py:81-88` says that a
  create and a resume never contend for a key. The half it goes on to argue holds under its own
  assumption (`PlacementSafety.CreateNeverAwaitsResume`), and `PlacementSafety.CreateAwaitsResumeIff`
  says exactly when it fails without it. The other half does not hold: a resume parks on a create
  exactly when that create, for the same key and owner, holds its claim, and if the team exists the
  create has by then persisted it and has only its future to settle or its entry to pop
  (`PlacementSafety.ResumeAwaitsCreateIff`; a run in `PlacementTraces.ResumeMayAwaitCreate`).
- A resume's `TimeoutError` leaves unchanged for its own caller and becomes a 503 for the callers
  parked on it: `PlacementSafety.SharedOutcome`.
- "Every send goes to the bound team" needs a registry. With a disabled one nothing is ever bound
  and each text starts a team of its own: `ChannelRouter.DisabledNeverBound`.
- The description generator drops trailing periods and one layer of quotes once each, so its result
  may still end in a period or be quoted. `Description.PeriodSurvivesIff` and
  `Description.GeneratedTwiceIff` say exactly when, on the input;
  `Description.PeriodSurvivesGap`, `Description.PeriodSurvivesCap` and `Description.QuotesSurvive`
  give inputs.
- The collision check promises that neither an accidental collision nor an upgrade changes behaviour
  silently (`src/akgentic/infra/server/assembly.py:407-411`). It compares path templates as text, so
  two templates that match one path are not a collision to it (`AssemblySplice.TemplateTakesRequest`).
  `AssemblySplice.SpliceServesIff` says exactly which requests a client takes over.
- Which of two chats bound to one agent the registry answers with depends on the order of the file,
  which a write sorts: `ChannelRegistry.WinnerDeterminedIff`, `ChannelRegistry.LastWinsIs`.
- A stored metadata document that holds nothing but its tag is dumped as an empty one, which is
  taken back as no metadata at all: `MetadataTags.DumpIsAccepted`.

## What is assumed of the world outside

- The team manager: `get_team` reads the persisted teams; its create persists the team only once it
  can no longer fail; its resume persists no new team and succeeds only on a team that is stopped
  when it finishes; a generated identifier is that of no team, entry or call. Stopping, reviving and
  purging by anyone may happen at any moment.
- Locks are exclusive, and one access of a list, flag, set or signal is atomic. A timeout may happen
  at any moment; nothing is assumed about scheduling.
- One thread at a time calls `read_next` on one reader, though any thread may close it.
- The clock never goes back and a sleep lasts at least as long as asked.
- The access policy, the workspace resolver, the leaf guard, case folding, the identifier syntax, the
  metadata schema, what each module contributes, and what the regular expressions find are given as
  functions or values. A stored team does not change during one request, and for
  `TeamAccess.Serve` the leaf of a team's default tree is its identifier, as the table at
  `src/akgentic/infra/server/services/_workspace_paths.py:12-19` has it.
- Loading the registry file after writing it gives back the same map, and nobody else edits it.

## Model

| member | source | states |
|---|---|---|
| StreamSafety.InvStep | src/akgentic/infra/adapters/community/local_event_stream.py:70-264 | one step of any thread, between any two accesses another thread can see, keeps the whole invariant of streams, locks, map, numbering and readers |
| StreamSafety.RunInv | src/akgentic/infra/adapters/community/local_event_stream.py:70-264 | that invariant holds in every world of every run, from an empty system |
| StreamSafety.NoLostWakeup | src/akgentic/infra/adapters/community/local_event_stream.py:125-140 | in every run, a parked reader whose registered signal is unset has read everything on an open stream, or the call inside that stream's critical section still has that signal to set |
| StreamSafety.DrainBeforeClose | src/akgentic/infra/adapters/community/local_event_stream.py:92-102 | in every run, a reader that has not closed itself raises `StreamClosed` only on a closed stream with its cursor at the end, and nothing is added to that stream at any later moment |
| StreamDrains.DrainAnswers | src/akgentic/infra/adapters/community/local_event_stream.py:92-102 | in every run, a drain of any phase that begins when an event is ahead of the cursor, or the stream or the reader is closed, and is over, has returned one more event or raised; it has not gone on to clear, wait or answer nothing |
| StreamDrains.NothingMeansOpen | src/akgentic/infra/adapters/community/local_event_stream.py:104-140 | in every run, a drain that leads to the clear, to the wait or to the answer nothing began on an open stream, for an open reader that had read it all |
| StreamDrains.ClosedReaderRaises | src/akgentic/infra/adapters/community/local_event_stream.py:92-93 | a reader closed before a drain raises there and returns nothing more |
| StreamDrains.PhasesInTurn | src/akgentic/infra/adapters/community/local_event_stream.py:125-140 | the drains come in turn: clear between the first and the second, wait between the second and the third, and no other way round |
| StreamDrains.ReadMoves | src/akgentic/infra/adapters/community/local_event_stream.py:70-140 | no access of `read_next` leaves the reader where it was, nor does a wait that runs out |
| StreamSafety.DeliveredExactly | src/akgentic/infra/adapters/community/local_event_stream.py:70-76 | at every moment a reader has returned exactly `events[start..cursor]` of the one stream object it subscribed to; what it returned earlier stays a prefix |
| StreamSafety.ClosedNeverMapped | src/akgentic/infra/adapters/community/local_event_stream.py:256-264 | a stream in the map is open, and no two teams share one |
| StreamSafety.AppendedStays | src/akgentic/infra/adapters/community/local_event_stream.py:181-189 | the append that returned n wrote its own message at index n - 1, where it is at every later moment |
| StreamCalls.AppendDecides | src/akgentic/infra/adapters/community/local_event_stream.py:181-189 | an append is refused exactly by a closed stream, which stays as it is; on an open one its event goes last and every reader registered then is to be signalled |
| StreamCalls.AppendedAsAsked | src/akgentic/infra/adapters/community/local_event_stream.py:175-189 | in every run, a finished append has written its own message to the stream its lookup found, or was refused by that stream, closed by then |
| StreamCalls.RemovedIsClosed | src/akgentic/infra/adapters/community/local_event_stream.py:256-264 | in every run, a `remove` takes exactly the team's entry out, and once it is over the stream that the entry named is closed |
| StreamCalls.RemoveUnknown | src/akgentic/infra/adapters/community/local_event_stream.py:256-259 | a `remove` of a team without an entry is over at once and touches nothing |
| StreamCalls.JoinMakes | src/akgentic/infra/adapters/community/local_event_stream.py:234-239 | on an open stream a new reader starts and stands at the cursor asked for, with an unset signal of its own that is registered; a closed stream refuses it and nothing is made |
| StreamCalls.SubscribedAsAsked | src/akgentic/infra/adapters/community/local_event_stream.py:228-239 | in every run, a finished subscription is a reader of the stream its lookup found, started at the cursor asked for, or was refused by that stream, closed by then |
| StreamCalls.CloseOnce | src/akgentic/infra/adapters/community/local_event_stream.py:144-145 | a `close` of a closed reader is over at once and touches nothing |
| StreamCalls.ClosedByClose | src/akgentic/infra/adapters/community/local_event_stream.py:142-148 | in every run, a `close` past its mark has closed its reader, for good |
| StreamSafety.NumbersExact | src/akgentic/infra/adapters/community/local_event_stream.py:181-189 | each event of a stream was written by exactly one append call, and no other call got that number there |
| StreamSafety.LaterAppendLarger | src/akgentic/infra/adapters/community/local_event_stream.py:181-189 | on one stream object, an append that writes after another has returned n returns more than n |
| StreamNumbers.SameStreamIff | src/akgentic/infra/adapters/community/local_event_stream.py:175-179 | the map names one stream for a team at two moments of a run exactly when no `remove` of the team takes effect in between |
| StreamNumbers.AppendsShareIff | src/akgentic/infra/adapters/community/local_event_stream.py:175-189 | two appends to one team, the second called after the first looked the team up, work on one stream exactly when no `remove` of the team takes effect between their lookups |
| StreamNumbers.NumbersGrowUnlessRemoved | src/akgentic/infra/adapters/community/local_event_stream.py:162-189 | of two appends to one team, the second called after the first returned, the second returns a larger number when no `remove` of the team takes effect between their lookups |
| StreamNumbers.NumbersRestartWhenRemoved | src/akgentic/infra/adapters/community/local_event_stream.py:162-189 | after a `remove` of the team the numbers start again: a later append numbers only events written since |
| StreamSafety.FetchInBounds | src/akgentic/infra/adapters/community/local_event_stream.py:72-75 | the lock-free read of `events[cursor]` is never out of range, in any interleaving |
| StreamSafety.RunGrows | src/akgentic/infra/adapters/community/local_event_stream.py:248-251 | between any two moments of a run streams only grow, and not at all once closed; readers keep their stream and what they returned; finished calls stay finished |
| StreamSafety.CloseSetsNothing | src/akgentic/infra/adapters/community/local_event_stream.py:142-148 | no step of a reader's `close` sets a signal |
| StreamSafety.OnlyTimeoutWakes | src/akgentic/infra/adapters/community/local_event_stream.py:138-148 | a reader parked on an unset signal that is registered nowhere stays parked through every step but its own timeout |
| StreamClosing.ClosedIsDetached | src/akgentic/infra/adapters/community/local_event_stream.py:147-148 | once `close` has left the stream, the reader's signal is registered on no stream at any later moment of the run |
| StreamClosing.ParkedUntilTimeout | src/akgentic/infra/adapters/community/local_event_stream.py:138-148 | through any run, a reader parked on an unset signal that is registered nowhere and in no call's loop stays parked until its own timeout |
| StreamClosing.CloseLeavesParked | src/akgentic/infra/adapters/community/local_event_stream.py:142-148 | a reader parked when `close` leaves its stream, its signal unset and in no call's loop, stays parked through any run until its own timeout |
| StreamTraces.CloseDoesNotWake | src/akgentic/infra/adapters/community/local_event_stream.py:142-148 | there is a run in which `close` has finished while its reader is still parked on a signal nobody will set |
| StreamTraces.NumbersRestart | src/akgentic/infra/adapters/community/local_event_stream.py:162-189 | an instance: a run in which two appends to one team both return 1 |
| LocalEventStream.TeamEvents.SetAll | src/akgentic/infra/adapters/community/local_event_stream.py:187-188 | after the loop every registered signal is set |
| LocalEventStream.TeamEvents.Write | src/akgentic/infra/adapters/community/local_event_stream.py:181-189 | append's critical section: -1 and no change on a closed stream; else the event is last, its place is returned and every registered reader is signalled |
| LocalEventStream.TeamEvents.MarkClosed | src/akgentic/infra/adapters/community/local_event_stream.py:261-264 | remove's critical section: closed, events untouched, every registered reader signalled |
| LocalEventStream.TeamEvents.Join | src/akgentic/infra/adapters/community/local_event_stream.py:235-238 | subscribe's critical section: a closed stream refuses and registers nothing |
| LocalEventStream.LocalStreamReader.Advance | src/akgentic/infra/adapters/community/local_event_stream.py:70-76 | with writers at work throughout: an event is the one at the old cursor, and no event means the list was no longer than the cursor when it was read |
| LocalEventStream.LocalStreamReader.DrainOrRaise | src/akgentic/infra/adapters/community/local_event_stream.py:78-102 | takes the protocol's steps of one phase; it answers nothing only when, as it began, reader and stream were open and everything was read, so a drain of a closed stream gives the next event or raises; `StreamClosed` only for a reader closed by itself or a stream closed and drained |
| LocalEventStream.LocalStreamReader.ClearAndRecheck | src/akgentic/infra/adapters/community/local_event_stream.py:130-136 | the clear comes before the second drain, and only a drain with nothing to give, of an open stream that has been read to its end, leads to the wait |
| LocalEventStream.LocalStreamReader.ReadNext | src/akgentic/infra/adapters/community/local_event_stream.py:104-140 | with any other threads between any two accesses: each access is the protocol's next one; the answer is the event at the old cursor, a justified `StreamClosed`, or nothing, and nothing only if reader and stream were open and everything read when the call began; a closed reader always raises; the cursor moves for an event alone |
| LocalEventStream.LocalStreamReader.WaitAndDrain | src/akgentic/infra/adapters/community/local_event_stream.py:138-140 | the drain after the wait: nothing only when, as the wait began, reader and stream were open and everything was read |
| LocalEventStream.LocalStreamReader.Clear | src/akgentic/infra/adapters/community/local_event_stream.py:130-131 | the clear is the protocol's step between the first and the second drain |
| LocalEventStream.LocalStreamReader.Close | src/akgentic/infra/adapters/community/local_event_stream.py:142-148 | closes once, leaves the stream's signals, and leaves its own signal as it was |
| LocalEventStream.LocalEventStream.Enter | src/akgentic/infra/adapters/community/local_event_stream.py:175-179 | get-or-create: a mapped team keeps its stream, another gets a fresh open one; no other entry changes |
| LocalEventStream.LocalEventStream.Pop | src/akgentic/infra/adapters/community/local_event_stream.py:256-259 | exactly the team's entry leaves the map, and its stream with it |
| LocalEventStream.LocalEventStream.Append | src/akgentic/infra/adapters/community/local_event_stream.py:162-189 | with any other threads between its two critical sections, removals included: a positive answer is the place of the event, the last of the stream the lookup found and behind everything there before; -1 means that stream was removed meanwhile, took nothing and is in the map no more; closed streams are never mapped |
| LocalEventStream.LocalEventStream.ReadFrom | src/akgentic/infra/adapters/community/local_event_stream.py:191-212 | the events of the stream the lookup found from the cursor on, negative cursors counting from the end, as the list stands when it is read after the lock is released; nothing without an entry |
| LocalEventStream.LocalEventStream.Subscribe | src/akgentic/infra/adapters/community/local_event_stream.py:214-239 | a reader of the stream the lookup found, registered there with a signal of its own, or `StreamClosed` if that stream was removed meanwhile and is in the map no more |
| LocalEventStream.LocalEventStream.Remove | src/akgentic/infra/adapters/community/local_event_stream.py:241-264 | the entry goes before its stream is closed, so no closed stream is ever mapped; the events stay and every registered reader is signalled; other entries change by other threads alone |
| PlacementSafety.InvStep | src/akgentic/infra/adapters/community/local_placement.py:127-245 | one step of any call of create or resume, or of anyone using the team manager, keeps the invariant of entries, futures, holders and waiters |
| PlacementSafety.OneOperationPerKey | src/akgentic/infra/adapters/community/local_placement.py:127-163 | in every run at most one call, create or resume, is between claiming a key and releasing it, and so at most one is in the team manager for it |
| PlacementSafety.CreateOnlyUnknown | src/akgentic/infra/adapters/community/local_placement.py:127-138 | in every run the manager's create runs only for a key that names no team, from the claim to the moment it persists |
| PlacementSafety.SharedOutcome | src/akgentic/infra/adapters/community/local_placement.py:226-245 | an answered parked call ends exactly as its claimant did, on the same key and for the same user; the one exception is a resume's `TimeoutError`, which it sees as a 503 |
| PlacementOutcomes.ClaimDecides | src/akgentic/infra/adapters/community/local_placement.py:127-149 | the claim, case by case: a create of a known key and a call on another user's entry end in a conflict; its own user's entry parks the call on that future; without an entry it enters one for its user and goes to the manager |
| PlacementOutcomes.FailedCreateEnds | src/akgentic/infra/adapters/community/local_placement.py:281-300 | in every run, a create that failed, with a key or without, ends in that very failure exactly if it is a placement error or no `Exception`, and otherwise in a placement error that wraps it |
| PlacementOutcomes.FailedCreateShared | src/akgentic/infra/adapters/community/local_placement.py:155-163 | in every run, every call answered by a keyed create that failed ends in exactly that same failure, wrapped or not |
| PlacementOutcomes.FailedResumeEnds | src/akgentic/infra/adapters/community/local_placement.py:213-217 | in every run, a resume that failed ends in that very failure, never wrapped |
| PlacementOutcomes.ReturnedEnds | src/akgentic/infra/adapters/community/local_placement.py:158-160 | in every run, a call whose manager returned ends with a handle on its own key |
| PlacementOutcomes.LookFindsOwner | src/akgentic/infra/adapters/community/local_placement.py:190-197 | a resume takes the user of the team as persisted at its lookup, and the empty id for an unknown team |
| PlacementOutcomes.GivenUpEnds | src/akgentic/infra/adapters/community/local_placement.py:237-245 | a wait is given up only on a future still unsettled, and ends in a 503 |
| PlacementSafety.PoppedByItsClaimant | src/akgentic/infra/adapters/community/local_placement.py:155-163 | an entry leaves the table, or changes, only by its own claimant's pop and with its future settled |
| PlacementSafety.TableIsHolders | src/akgentic/infra/adapters/community/local_placement.py:161-163 | the table's keys are exactly those of the calls between claim and pop, so it is empty when no call is active |
| PlacementSafety.CreateNeverAwaitsResume | src/akgentic/infra/adapters/community/local_placement.py:79-93 | in every run whose resumes claim only teams that exist and stay persisted meanwhile, no create is parked on a resume's future |
| PlacementSafety.CreateAwaitsResumeIff | src/akgentic/infra/adapters/community/local_placement.py:79-93 | exactly when a create parks on a resume: the resumed team is gone, and its owner as the resume knew it is the creating user |
| PlacementSafety.ResumeAwaitsCreateIff | src/akgentic/infra/adapters/community/local_placement.py:79-93 | in every run a resume parks on a create exactly when a create of the same key, for the owner the resume found, is between its claim and its pop; if the team exists, that create has already succeeded and has only to settle its future or pop its entry |
| PlacementTraces.ResumeMayAwaitCreate | src/akgentic/infra/adapters/community/local_placement.py:81-88 | an instance, with well-behaved resumes: a resume of a stopped team parked on a create's future |
| PlacementTraces.CreateMayAwaitResume | src/akgentic/infra/adapters/community/local_placement.py:190-203 | there is a run in which a create parks on a resume's future, when the resumed team was purged meanwhile |
| LocalPlacement.LocalPlacement.CreateKeyed | src/akgentic/infra/adapters/community/local_placement.py:127-163 | conflict for a known key; a key in flight is shared with its own user alone and runs no manager; any other is claimed and the manager runs once; its handle is returned, its placement errors and non-`Exception` failures leave unchanged, every other failure leaves wrapped; the future gives what the call itself ends with |
| LocalPlacement.LocalPlacement.CreateTeam | src/akgentic/infra/adapters/community/local_placement.py:101-163 | without a key the manager runs once, at once, and the table is not met; with one, as the keyed creation; either way a failure leaves unchanged exactly when it is a placement error or no `Exception`, and otherwise wrapped in one |
| LocalPlacement.LocalPlacement.ResumeOwned | src/akgentic/infra/adapters/community/local_placement.py:199-224 | a key in flight is shared with the owner alone and runs no manager; any other is claimed, the manager runs once, and its failures leave unchanged |
| LocalPlacement.LocalPlacement.ResumeTeam | src/akgentic/infra/adapters/community/local_placement.py:165-224 | the owner is the persisted one or the empty id; meeting an entry, the call joins it or is refused it, runs no manager and never ends with a bare `TimeoutError`; meeting none, it runs the manager once and ends as that does |
| LocalPlacement.LocalPlacement.Park | src/akgentic/infra/adapters/community/local_placement.py:226-245 | another user's claim is refused without waiting; otherwise the future's outcome, with `TimeoutError` read as a 503, or a 503 for giving up |
| LocalPlacement.LocalPlacement.Settle | src/akgentic/infra/adapters/community/local_placement.py:155-163 | the future is settled first and the entry popped after |
| Assembly.ValidateComposition | src/akgentic/infra/server/assembly.py:478-515 | accepts exactly the compositions with distinct names and one writer per state key across both phases; the map it returns is exactly the declarations; names are checked first |
| Assembly.Declare | src/akgentic/infra/server/assembly.py:497-514 | one module's keys against those already declared: refused exactly when some key would have two writers |
| StateWriters.SingleWriterIff | src/akgentic/infra/server/assembly.py:497-514 | the declarations of both phases pass exactly when no two modules write one key and no module writes one twice, in one phase or in each |
| StateWriters.ProvidersAreWriters | src/akgentic/infra/server/assembly.py:488-490 | the providers map names for each key written, and for no other, the module that writes it |
| Assembly.MergeAllowlists | src/akgentic/infra/server/assembly.py:518-526 | the union of exact paths, and every prefix once in first-seen order, duplicates inside one module included |
| AssemblyOrder.PrefixesInOrder | src/akgentic/infra/server/assembly.py:518-526 | allowlist prefixes are met module by module in list order, in the same way |
| Sequences.DedupFirstSeen | src/akgentic/infra/server/assembly.py:525 | a list without its duplicates is in the order in which each element is first met |
| Assembly.ValidateRequiredState | src/akgentic/infra/server/assembly.py:546-570 | accepts exactly when every required key has a declared producer; the requirements are exactly the required keys with that producer |
| Assembly.CheckEntry | src/akgentic/infra/server/assembly.py:667-677 | one spec against the winners so far: refused exactly on a key whose earliest spec does not list it |
| Assembly.ValidateRouteCollisions | src/akgentic/infra/server/assembly.py:645-677 | accepts exactly when, for every key two or more specs mount, the earliest lists it in its overrides; an error names a real first offender and the spec it loses to |
| AssemblyOrder.RouteKeyIff | src/akgentic/infra/server/assembly.py:637-642 | a key is mounted exactly when a route with a path has it as one of its methods, a space, the spec's prefix and the path, a route without methods counting as `WS` |
| AssemblyOrder.RouteKeysInOrder | src/akgentic/infra/server/assembly.py:637-642 | a spec's keys are listed in route order: those of its first routes stand before those of the rest |
| AssemblyOrder.RoutesInOrder | src/akgentic/infra/server/assembly.py:617-621 | routes are collected module by module in list order: those of a composition are those of its front followed by those of its rest, wherever it is parted |
| AssemblyOrder.RoutesOfModule | src/akgentic/infra/server/assembly.py:617-621 | a module's routes are its own specs, in its own order, under its name |
| AppBuilder.App.AddMiddleware | src/akgentic/infra/server/assembly.py:708-719 | reverse insertion at index 0 leaves the sorted list outermost first |
| AppBuilder.App.RunLifespan | src/akgentic/infra/server/assembly.py:582-603 | it serves exactly when every module started and every required slot is set; wherever startup ends, and whatever the exits raise or swallow, the exits are exactly the modules entered, in reverse; the state is exactly what the started modules set; with clean exits the failed startup or check is raised, and otherwise the exit that runs last of those not clean decides; a startup that does not serve always raises |
| AppBuilder.LastWord | src/akgentic/infra/server/assembly.py:582-589 | of the exits that raise or swallow, the one of the earliest module decides which exception is left, whatever came before it |
| AppBuilder.LastRegistrationWins | src/akgentic/infra/server/assembly.py:686-698 | an exception class is handled exactly by the last registration made for it |
| AppBuilder.App.RegisterHandlers | src/akgentic/infra/server/assembly.py:686-698 | handlers are registered in module order and then contribution order, a registrar in its place |
| AssemblyOrder.RegistrationsInOrder | src/akgentic/infra/server/assembly.py:693-698 | handlers are registered module by module in list order: those of a composition are those of its front followed by those of its rest, wherever it is parted |
| AssemblyOrder.OneMoreModule | src/akgentic/infra/server/assembly.py:693-698 | the last module's handlers and prefixes stand behind those of the modules before it, in its own order |
| AppBuilder.BuildApp | src/akgentic/infra/server/assembly.py:395-475 | builds exactly the compositions that pass every check, the single-writer rule stated on the modules' own keys; the first failing check names the error; routes, handlers, state and middleware of the app are the composed ones, and each requirement names a module that writes its key |
| AppBuilder.Boot | src/akgentic/infra/server/assembly.py:491-603 | an app that boots either serves, with every state slot its middleware requires set and each with exactly one declared writer, or raises |
| AssemblySplice.StackIsLayerSort | src/akgentic/infra/server/assembly.py:529-543 | the triple sort equals a stable sort by layer alone of the contributions in module order |
| AssemblyOrder.StackOrdered | src/akgentic/infra/server/assembly.py:532-543 | the stack holds each entry exactly once, ordered by layer, then module, then place in the module |
| AssemblyOrder.EntriesExact | src/akgentic/infra/server/assembly.py:533-542 | an entry of the stack is exactly a spec that its module contributed in the merged context, with its places and the module's name |
| AssemblySplice.SpliceKeepsStack | src/akgentic/infra/server/assembly.py:529-543 | for any client modules spliced anywhere, with other class names: the composed stack restricted to the tier's classes is the tier's stack, in class, layer and whatever part of the options does not depend on the merged context |
| AssemblySplice.SpliceDelta | src/akgentic/infra/server/assembly.py:778-834 | the delta of a splice reports no removal and no reorder, of manifest route entries or of middleware, and its additions are the client's own |
| AssemblySplice.DeltaExact | src/akgentic/infra/server/assembly.py:820-834 | of any two manifests, a route line or middleware name is reported added exactly when it is in composed and not in stock, and removed exactly the other way round |
| AssemblySplice.DeltaInOrder | src/akgentic/infra/server/assembly.py:831-832 | middleware added stands in composed order, middleware removed in stock order, each as often as it stands there |
| AssemblySplice.DeltaReorderExact | src/akgentic/infra/server/assembly.py:820-833 | of any two manifests, no reorder is reported exactly when one list is what both stacks hold of the names they share, duplicates included |
| AssemblySplice.DeltaReorderIff | src/akgentic/infra/server/assembly.py:820-833 | of stacks without duplicates, a reorder is reported exactly when two names stand one way in stock and the other way in composed |
| AssemblyOrder.ListedIff | src/akgentic/infra/server/assembly.py:780-787 | a spec's lines of the manifest are exactly one for each route with a path, its methods together in front of the mounted path |
| AssemblySplice.SpliceKeepsDispatch | src/akgentic/infra/server/assembly.py:606-683 | if the collision check passes and no client spec overrides a tier's key, a request that matches that key alone is served by the same spec wherever the client modules stand |
| AssemblySplice.SpliceServesIff | src/akgentic/infra/server/assembly.py:606-683 | for any request, as the set of keys it matches: it is served by another spec than in the tier's own app exactly when a client spec that matches it stands ahead of the tier's spec for it |
| AssemblySplice.TemplateTakesRequest | src/akgentic/infra/server/assembly.py:637-677 | two specs with different keys pass the collision check, and the first of them takes a request that matches both |
| AssemblySplice.DispatchFinds | src/akgentic/infra/server/assembly.py:680-683 | first match finds a spec exactly when some spec serves the request, and then the first that does |
| ChannelRegistry.RegisteredFinds | src/akgentic/infra/adapters/community/yaml_channel_registry.py:153-187 | registering sets its own conversation and leaves every other record, readable or not, and every other section as it was |
| ChannelRegistry.DeregisteredFinds | src/akgentic/infra/adapters/community/yaml_channel_registry.py:234-258 | releasing clears its own record and keeps every other one; a section goes exactly when it loses its last record, and malformed and other sections stay as they are |
| ChannelRegistry.PrunedFinds | src/akgentic/infra/adapters/community/yaml_channel_registry.py:272-297 | tearing a team down clears exactly its readable records; unreadable records and malformed sections stay; a section goes exactly when it had records and all were the team's |
| ChannelRegistry.ReleaseOneOfTwo | src/akgentic/infra/adapters/community/yaml_channel_registry.py:102-109 | after one of two chats bound to one agent is released, the index still answers for that agent |
| ChannelRegistry.PrunedIndexForgets | src/akgentic/infra/adapters/community/yaml_channel_registry.py:261-269 | after a team is torn down no entry of an index that agrees with the file names it |
| ChannelRegistry.WinnerDeterminedIff | src/akgentic/infra/adapters/community/yaml_channel_registry.py:134-149 | the file determines the index exactly when no two chats on it share an agent |
| ChannelRegistry.WinnerNotDetermined | src/akgentic/infra/adapters/community/yaml_channel_registry.py:134-149 | an instance: two different indexes agree with one file |
| ChannelRegistry.LastWinsIs | src/akgentic/infra/adapters/community/yaml_channel_registry.py:138-149 | an index left by a walk over the records answers for an agent with the last record of it in the walk |
| ChannelRegistry.YamlChannelRegistry.constructor | src/akgentic/infra/adapters/community/yaml_channel_registry.py:64-68 | a registry starts with its index agreeing with the file, whatever the file holds, and empty when there is no mapping on file |
| ChannelRegistry.YamlChannelRegistry.IndexFromData | src/akgentic/infra/adapters/community/yaml_channel_registry.py:134-149 | the index is the one left by a walk over exactly the readable records, the last of each agent winning, and so agrees with the file; malformed sections are skipped |
| ChannelRegistry.YamlChannelRegistry.Register | src/akgentic/infra/adapters/community/yaml_channel_registry.py:153-187 | file and index move together to the registered data; disabled, nothing moves |
| ChannelRegistry.YamlChannelRegistry.FindBinding | src/akgentic/infra/adapters/community/yaml_channel_registry.py:196-232 | exactly the readable binding on file, none for every malformed shape |
| ChannelRegistry.YamlChannelRegistry.Deregister | src/akgentic/infra/adapters/community/yaml_channel_registry.py:234-258 | file and index move together to the released data; a section left empty goes |
| ChannelRegistry.YamlChannelRegistry.DeregisterTeam | src/akgentic/infra/adapters/community/yaml_channel_registry.py:261-269 | file and index move together to the pruned data; nothing is written when the team has no record |
| ChannelRegistry.YamlChannelRegistry.PruneTeam | src/akgentic/infra/adapters/community/yaml_channel_registry.py:272-297 | the nested deletion loops produce the pruned data, and report exactly whether it changed |
| ChannelRegistry.YamlChannelRegistry.FindBindingSync | src/akgentic/infra/adapters/community/yaml_channel_registry.py:301-307 | answers exactly when some readable stored record has that team and agent, with one of those records |
| ChannelRouter.RouteShape | src/akgentic/infra/adapters/shared/channel_router.py:463-569 | every effect of a message is on its own conversation; it makes at most one send, never of blank text, and that is a first message right after the binding, or a continuation from the bound agent |
| ChannelRouter.OthersUntouched | src/akgentic/infra/adapters/shared/channel_router.py:463-477 | routing a message never changes another conversation's binding |
| ChannelRouter.DefaultIsNotSender | src/akgentic/infra/adapters/shared/channel_router.py:325-358 | a default recipient is never the sender, is a supervisor or the entry point, and is a supervisor whenever another one exists |
| ChannelRouter.SendsToBound | src/akgentic/infra/adapters/shared/channel_router.py:211-241 | with a registry, a send goes to the team its conversation is bound to at that moment, so the binding precedes the first message |
| ChannelRouter.DisabledNeverBound | src/akgentic/infra/adapters/shared/channel_router.py:225-241 | with a disabled registry every send is to a new team that no conversation is bound to |
| ChannelRouter.BoundStays | src/akgentic/infra/adapters/shared/channel_router.py:505-593 | plain text to a bound team, gone or not, leaves every binding as it was |
| ChannelRouter.SessionBinds | src/akgentic/infra/adapters/shared/channel_router.py:645-695 | plain text to an unbound chat, and `new` to any chat, leaves it bound to exactly the team created, its entry point and the message's metadata, and to no earlier one, even when the text is blank or its send raises |
| ChannelRouter.CommandAnswered | src/akgentic/infra/adapters/shared/channel_router.py:479-503 | a command is answered exactly once, as its last effect, in every state of the conversation; only a `new` whose creation or send raised is not |
| ChannelTexts.UnregisterReleases | src/akgentic/infra/adapters/shared/channel_router.py:697-707 | in every state of the chat, after `unregister` it has no binding, and the notice names the team released exactly when there was one |
| ChannelTexts.NewReleases | src/akgentic/infra/adapters/shared/channel_router.py:658-659 | a `new` whose creation raised has released the chat all the same |
| ChannelTexts.SessionDone | src/akgentic/infra/adapters/shared/channel_router.py:645-695 | whatever begins a session creates one team with the message's entry, if it has one, or the channel's, its key and its metadata, sends it that very text unless it is blank, and announces it unless the send raised |
| ChannelTexts.NoSession | src/akgentic/infra/adapters/shared/channel_router.py:645-695 | when the creation raises, nothing is created, bound, sent or announced |
| ChannelTexts.TextNotSent | src/akgentic/infra/adapters/shared/channel_router.py:505-614 | blank text to a bound chat does nothing; text to a team that is gone is reported and not sent |
| ChannelTexts.TextToNamed | src/akgentic/infra/adapters/shared/channel_router.py:635-639 | other text to a bound chat is sent once, as it is, by the bound agent to the bound team: to the name typed in front, else to the name quoted |
| ChannelTexts.TextToDefault | src/akgentic/infra/adapters/shared/channel_router.py:325-358 | without a name it goes to the first of the supervisors and then the entry point that is not the sender; with nobody else the chat is told so |
| ChannelTexts.StatusTells | src/akgentic/infra/adapters/shared/channel_router.py:754-772 | `status` changes nothing and says that there is no session, that its team is no longer known, or the bound team, agent and state |
| ChannelTexts.RegisterBinds | src/akgentic/infra/adapters/shared/channel_router.py:740-752 | `register`, where allowed, binds the chat to the team and agent named, each by the command's own words or else by the quoted message, and says so |
| ChannelTexts.RegisterRefused | src/akgentic/infra/adapters/shared/channel_router.py:732-748 | `register` changes nothing and says why where it is not allowed or one of the names is in neither text |
| ChannelRouter.RunSendsToBound | src/akgentic/infra/adapters/shared/channel_router.py:463-477 | over any run of messages, every send goes to the team its conversation is bound to just then |
| ChannelRouter.RunKeepsSilent | src/akgentic/infra/adapters/shared/channel_router.py:463-477 | over any run, a conversation that sent nothing keeps its binding |
| ChannelRouter.RunSendsAtMost | src/akgentic/infra/adapters/shared/channel_router.py:463-477 | over any run, no more sends than messages |
| ChannelContext.ChannelRouteContext.ReleaseBinding | src/akgentic/infra/adapters/shared/channel_router.py:160-169 | returns what it released, leaves the conversation unbound, and causes a release exactly when it was bound |
| ChannelContext.ChannelRouteContext.InitiateTeam | src/akgentic/infra/adapters/shared/channel_router.py:171-241 | create, with the message's entry or else the channel's and the message's key and metadata, then bind, then send; bound even when the text is blank or the send raises; nothing at all when the creation raises |
| ChannelContext.ChannelRouteContext.SendTo | src/akgentic/infra/adapters/shared/channel_router.py:286-323 | blank or unbound: nothing; else one send as the agent bound now |
| ChannelContext.ChannelRouteContext.Send | src/akgentic/infra/adapters/shared/channel_router.py:243-284 | the same to the default recipient; a missing team and a team with nobody else raise and send nothing |
| ChannelContext.DefaultChannelRouter.OnCommand | src/akgentic/infra/adapters/shared/channel_router.py:479-503 | causes the effects of its command: `new` releases before it starts, `unregister` releases, `unregister` and `status` answer either way, `register` only when allowed |
| ChannelContext.DefaultChannelRouter.OnRegister | src/akgentic/infra/adapters/shared/channel_router.py:709-752 | each name falls back on its own to the quoted message; nothing is looked up |
| ChannelContext.DefaultChannelRouter.OnBound | src/akgentic/infra/adapters/shared/channel_router.py:505-569 | blank text is dropped before the team is looked at; a gone team is reported and keeps its binding; a typed name wins over a quoted one |
| ChannelContext.DefaultChannelRouter.RouteMessage | src/akgentic/infra/adapters/shared/channel_router.py:463-477 | the router causes exactly the effects of `ChannelRouter.Route`, in order, and leaves the registry as they do |
| DevicePolling.Session.PollForToken | src/akgentic/infra/cli/auth/oidc.py:298-318 | ends for every clock and server when the interval is positive or some response has told it to wait; each wait is the interval plus 5 for every earlier `slow_down`; n requests with m `slow_down` among the first n - 1 satisfy (n-1)*i + 5*m*(m-1)/2 < expires_in; a token exactly when the last response carried one |
| DevicePolling.WaitsIff | src/akgentic/infra/cli/auth/oidc.py:298-318 | the waits are as prescribed exactly when the first is the interval and each later one exceeds the one before by five seconds after a `slow_down` and by nothing after any other answer |
| DevicePolling.WaitedAtLeast | src/akgentic/infra/cli/auth/oidc.py:317-318 | k responses with m `slow_down` among them take at least k*i + 5*m*(m-1)/2 seconds of waiting |
| DevicePolling.EndedAs | src/akgentic/infra/cli/auth/oidc.py:298-318 | how a poll ended is read off its last response: with its token, with the refusal or expiry it names, with the expiry of the budget when every response said to ask again, and otherwise with a protocol error |
| DevicePolling.RequestIff | src/akgentic/infra/cli/auth/oidc.py:217-257 | which response means what: four error codes have errors of their own, a token is the token, and everything else is a protocol error |
| DevicePolling.ZeroIntervalUnbounded | src/akgentic/infra/cli/auth/oidc.py:305-318 | with interval 0 any number of requests fits into no time, so only a `slow_down` bounds the poll |
| WorkspacePaths.TeamLayouts | src/akgentic/infra/server/services/_workspace_paths.py:106-125 | the nested loop collects every declared layout in card order, then tool order; bare cards declare none |
| WorkspacePaths.LayoutListed | src/akgentic/infra/server/services/_workspace_paths.py:106-125 | a layout is listed exactly when some card's tools declare it |
| WorkspacePaths.LayoutsInOrder | src/akgentic/infra/server/services/_workspace_paths.py:106-125 | layouts are listed card by card in card order: those of a team are those of its first cards followed by those of the rest, wherever the list is parted |
| WorkspacePaths.ToolsInOrder | src/akgentic/infra/server/services/_workspace_paths.py:121-124 | and each card's tools in tool order, in the same way |
| WorkspacePaths.OneMoreCard | src/akgentic/infra/server/services/_workspace_paths.py:113-125 | the last card's layouts stand behind those of the cards before it, a bare card has none, and of its tools each workspace tool has its layout and no other tool any |
| WorkspacePaths.ResolvedAt | src/akgentic/infra/server/services/_workspace_paths.py:154 | each declared layout's path stands where the layout does |
| WorkspacePaths.DeclaredExact | src/akgentic/infra/server/services/_workspace_paths.py:141-154 | the declared paths are exactly what the declared layouts resolve to, and are refused exactly when one of them cannot be |
| WorkspacePaths.DeclaredInOrder | src/akgentic/infra/server/services/_workspace_paths.py:150-154 | they stand in the order in which each path is first declared |
| WorkspacePaths.DefaultPathIs | src/akgentic/infra/server/services/_workspace_paths.py:352-358 | the default route is refused for disagreement exactly when both default layouts are declared; otherwise it has the resolver's answer, for the shared one exactly when that is declared, a team without a default card included |
| WorkspacePaths.DisagreementIff | src/akgentic/infra/server/services/_workspace_paths.py:352-357 | with a resolver that never answers so itself, `DefaultsDisagree` exactly when both default layouts are declared |
| WorkspacePaths.SelectIff | src/akgentic/infra/server/services/_workspace_paths.py:230-237 | selects a path exactly when it is the only distinct declared one with that leaf, refuses exactly when two distinct ones share it, answers none exactly when none has it |
| WorkspacePaths.DeclaredDistinct | src/akgentic/infra/server/services/_workspace_paths.py:141-154 | declared paths have no duplicate, so one tree declared twice is never ambiguous |
| WorkspacePaths.DeletionCandidates | src/akgentic/infra/server/services/_workspace_paths.py:414-428 | the list built by appending and de-duplicating is `Candidates`: declaration order, the team's own tree last unless declared |
| WorkspacePaths.CandidatesExact | src/akgentic/infra/server/services/_workspace_paths.py:361-428 | no duplicates, and as a set exactly the trees of the declared layouts plus the team's default tree |
| WorkspacePaths.CandidatesInOrder | src/akgentic/infra/server/services/_workspace_paths.py:414-428 | candidates stand in declaration order, with at most the unshared default tree behind them |
| WorkspacePaths.CandidatesRefusedIff | src/akgentic/infra/server/services/_workspace_paths.py:414-428 | refused exactly when the cards cannot be read or some tree of the team cannot be resolved; otherwise never empty |
| WorkspacePaths.DefaultIsCandidate | src/akgentic/infra/server/services/_workspace_paths.py:352-358 | when a team's trees can all be resolved, a route has a default to serve exactly when the cards do not declare both default layouts, and it is a deletion candidate |
| WorkspacePaths.DisagreementKeepsBoth | src/akgentic/infra/server/services/_workspace_paths.py:414-424 | default cards that disagree refuse the route and keep both default trees as candidates |
| TeamAccess.RequireTeamAccess | src/akgentic/infra/server/routes/_team_access.py:128-143 | one 404 for a missing team and a denied caller; exactly an authorised team is kept on the request |
| TeamAccess.RequireWorkspaceAccess | src/akgentic/infra/server/routes/_team_access.py:407-432 | the request keeps exactly the path the gate authorises; a refusal leaves its slot as it was |
| TeamAccess.GetWorkspace | src/akgentic/infra/server/routes/workspace.py:124-131 | opens the authorised path or nothing, and only for the selector that names it |
| TeamAccess.Serve | src/akgentic/infra/server/routes/workspace.py:93-160 | a whole request answers exactly what its gates decide: once they pass, the opener never refuses, given that a team's default leaf is its identifier |
| TeamAccess.ServedIff | src/akgentic/infra/server/routes/_team_access.py:304-432 | a path is served exactly when the team admits the caller by its stored owner and indexes, the selector is a leaf naming no team denied to them, the team's own cards select the path, its scope is no spelling of `_shared`, and the policy admits the caller to that scope with the team's indexes; without a selector the cards select the default tree they agree on |
| TeamAccess.BadRequestIff | src/akgentic/infra/server/routes/_team_access.py:407-408 | a 400 exactly for a malformed selector of a caller who may use the team |
| TeamAccess.NotFoundIff | src/akgentic/infra/server/routes/_team_access.py:407-432 | a 404 exactly when the policy denies the team, the team the selector names, or the scope of the selected path, or no declared path has the leaf |
| TeamAccess.GateAlone | src/akgentic/infra/server/routes/_team_access.py:407-432 | the workspace gate without the team gate before it reads the team itself, to the same answer, and a missing team never gets a path |
| TeamAccess.SharedRefusedForAll | src/akgentic/infra/server/routes/_team_access.py:211-217 | a shared tree is never opened, for any caller and policy, and when it is answered 403 |
| TeamAccess.UndeclaredNameHidden | src/akgentic/infra/server/routes/_team_access.py:229-272 | a leaf that none of the team's resolvable layouts has is a 404 for a caller who may use the team, whether or not it is some team's identifier |
| TeamAccess.ServerErrorIff | src/akgentic/infra/server/routes/_team_access.py:304-321 | to who may ask, a 500 exactly when the cards cannot be read; or, without a selector, both default layouts are declared or the default one cannot be resolved; or, with one, a declared layout cannot be resolved or two different paths share the leaf |
| MetadataTags.ScanFindsTag | src/akgentic/infra/server/services/_metadata_payload.py:48-58 | whenever the scan answers yes there is a place in the document that is a tag |
| MetadataTags.TagIsScanned | src/akgentic/infra/server/services/_metadata_payload.py:48-58 | a tag at any place of the document makes the scan answer yes |
| MetadataTags.StripKeepsPlaces | src/akgentic/infra/server/services/_metadata_payload.py:123-129 | place by place: stripping removes what lies at or under a tag and keeps every other place with its value stripped |
| MetadataTags.StripLeavesNoTag | src/akgentic/infra/server/services/_metadata_payload.py:123-129 | no tag is left at any depth |
| MetadataTags.StripIdentityIff | src/akgentic/infra/server/services/_metadata_payload.py:123-129 | stripping changes a document exactly when the scan would refuse it, and twice is once |
| MetadataTags.TagRefusedIff | src/akgentic/infra/server/services/_metadata_payload.py:104-109 | a body is refused for a tag exactly when some place of it is one, whatever the team declares |
| MetadataTags.ValidateExact | src/akgentic/infra/server/services/_metadata_payload.py:104-120 | each answer and exactly when: a tag anywhere is refused first; an absent or empty body is no metadata, contract or not; any other body needs a contract, which alone decides what it is or why it is refused |
| MetadataTags.DumpIsAccepted | src/akgentic/infra/server/services/_metadata_payload.py:132-156 | a dumped document is never refused for a tag: it is taken as empty exactly when nothing but a tag was stored, and otherwise the schema is asked about exactly it |
| Description.FirstUsableLine | src/akgentic/infra/server/description.py:74 | the search for the first usable line finds the first line that is not blank, stripped |
| Description.FirstLineAt | src/akgentic/infra/server/description.py:74 | the first line that is not blank is taken, without the white space around it |
| Description.UnquoteOnce | src/akgentic/infra/server/description.py:75-78 | the loop over quote pairs removes one enclosing layer, of the first pair that encloses the line |
| Description.NormaliseDescription | src/akgentic/infra/server/description.py:61-81 | the imperative steps compute `Generated`, which the lemmas below are about |
| Description.GeneratedFits | src/akgentic/infra/server/description.py:74-81 | for every input the result is nothing or a non-empty trimmed contiguous piece of one input line, at most 500 characters |
| Description.GeneratedIsFixed | src/akgentic/infra/server/models.py:156-175 | the endpoint's own normalisation accepts every generated description and leaves it as it is |
| Description.NormalisedAs | src/akgentic/infra/server/models.py:164-175 | the endpoint strips white space at both ends and then keeps the text, refuses it exactly when it is longer than 500 characters, and takes blank text for none |
| Description.DecorationDropped | src/akgentic/infra/server/description.py:74-81 | a usable line comes back exactly from any of the three quote pairs and any number of trailing periods put around it |
| Description.GeneratedTwiceIff | src/akgentic/infra/server/description.py:74-81 | generating again changes nothing exactly when the usable line of the first answer neither has a period at its last kept place nor is in quotes up to it |
| Description.GeneratedKeeps | src/akgentic/infra/server/description.py:79-81 | what is stored is the usable line up to its last kept place, which is read off the line: before trailing periods and the white space they uncover, or before the cap |
| Description.PeriodSurvivesIff | src/akgentic/infra/server/description.py:79-80 | for every input the description ends in a period exactly when the last kept place of the usable line is one |
| Description.PeriodSurvivesGap | src/akgentic/infra/server/description.py:79 | any line with a period, a gap and a period behind it keeps the first period, though a period that ends the line outright is dropped |
| Description.PeriodSurvivesCap | src/akgentic/infra/server/description.py:80 | an instance: 499 letters, a period and a letter more are stored with the period at the end |
| Description.QuotesSurvive | src/akgentic/infra/server/description.py:75-78 | any line in two layers of quotes is stored in one, and stored without them when generated again |
| Text.StripTrims | src/akgentic/infra/server/description.py:74-80 | `strip` leaves a trimmed piece, empty only of blank text, and keeps trimmed text as it is |
| Text.StripIs | src/akgentic/infra/server/description.py:74-80 | what lies between white space at both ends is what `strip` leaves |
| Text.SplitJoins | src/akgentic/infra/server/description.py:74 | `splitlines` loses nothing: a text is its lines with their endings, a line feed never parted from its carriage return |
| Text.SplitUnique | src/akgentic/infra/server/description.py:74 | the lines are the only ones of which that is so |

## Left out

- LocalEventStream.LocalStreamReader.Wait: may return at any moment; that a set signal wakes its reader promptly is scheduling, and liveness is not modelled.
- LocalEventStream.LocalEventStream.Subscribe: readers start at a non-negative cursor; a negative one, which would index the list from its end, is not modelled for readers.
- DevicePolling.Session.PollForToken: an interval of zero is watched for a number of requests given by the caller until a response tells the poll to wait; a negative interval, which the sleep itself refuses, is not modelled.
- AssemblySplice.SpliceDelta: routes are compared as sets of manifest entries; that the delta lists them in sorted order is not modelled.
- ChannelRegistry.YamlChannelRegistry.IndexFromData: the walk takes sections and records in an arbitrary order and says which record of an agent wins in that order; that the order is the file's, and is sorted by a write, is not modelled.
- MetadataTags.StripKeepsPlaces: documents are JSON objects with unordered fields; the order of the fields is not modelled.
- MetadataTags.DumpIsAccepted: whether the declared schema rebuilds the very same model from the untagged fields is Pydantic's to answer.
- Text.StripTrims: characters are Unicode scalar values; lone surrogates are not modelled.
- The WebSocket connection manager and its idle and streaming loops: one of their writers runs on another thread without the atomicity their bookkeeping would need.
- The team manager, the team service, the event store, the catalog and the workspace resolver: other packages, or not shown; the facts used of them are listed above.
- YAML text, file access, HTTP, FastAPI and Starlette internals: only insertion at index 0, first full match and stack unwinding are taken from them; which keys a request matches is given.
- Settings, logging and telemetry: no behaviour that the modelled parts depend on.
- The command line client, the terminal interface, the Telegram adapter, the token provider, profile resolution, and the owner-or-admin and deletion policies: input and output around the modelled parts, or one decision each that the modelled parts take as given.
- Collecting card tools from the card store: its one batch read, or its failure, is given as a value.
