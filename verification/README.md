# Verified model of Operon's agent runtime

A Dafny model of the parts of Operon that keep state across interleavings or that carry a promise worth
proving: pausing and replaying Code Mode programs, the pool of workspace MCP connections, the run
accounting and reshape barrier of the harness, the rendering of tool schemas, catalogs and captured
output, the durable state of the peer network, and two algorithms of the terminal interface. Verify it
with `dafny verify dfyconfig.toml`.

| file | what it models |
|---|---|
| `Replay.dfy` | a program of nested tool calls, paused at approvals and run again against its journal |
| `ReplayRepeats.dfy`, `ReplayOutcomes.dfy` | which calls a replayed program dispatches again; what it is told of each |
| `Gate.dfy` | the gate that bounds parallel calls |
| `McpPool.dfy`, `McpSharing.dfy` | reference-counted generations of MCP connections per directory; who shares one, and until when |
| `SessionRuns.dfy`, `SessionCallers.dfy`, `Barrier.dfy` | runs, wakes and gates of one session; what becomes of its callers; the barrier over all sessions |
| `BarrierSteps.dfy`, `BarrierGap.dfy`, `Harness.dfy` | what each of its steps does, in full; when the barrier keeps its promise; the harness object that makes its steps |
| `SchemaTypes.dfy`, `SchemaGaps.dfy`, `SchemaExact.dfy` | JSON schemas rendered as types, against a validator for JSON Schema 2020-12; where the types shut values out; where they say all that the schema does |
| `Catalog.dfy`, `ToolCatalog.dfy`, `ToolNames.dfy` | the budgeted choice of tools to declare, and their names |
| `OutputLedger.dfy` | captured lines and the returned value under one byte cap |
| `Mailbox.dfy`, `JsonBook.dfy` | the mailbox in memory and on a crash-safe JSON file |
| `PeerLedger.dfy` | messages between the write-ahead ledger and the recipient's conversation |
| `Directory.dfy`, `Labels.dfy`, `Usage.dfy` | the roster and its cards, team labels, and what the fleet spends |
| `Search.dfy`, `SearchText.dfy`, `Fuzzy.dfy`, `FuzzyScore.dfy` | transcript search, its text against the query's, fuzzy matching and what its scores are worth |
| `Basics.dfy` | optional values, JSON documents, white space and trimming |

How it is modelled. A class whose methods change fields is a class here, proved against functions on
values; code that others can interleave with is also a machine whose steps are the stretches between
awaits, and its results hold over every sequence of steps. What the code takes from outside is a
parameter: the engine behind a nested call is any function of the history of calls, a program any
function of the outcomes it received, a timer may fire whenever it is armed, and a crash, a failed write
or an unreachable session may happen at any step. Token counts and the tenths of a fuzzy score are
integers, and cost is an exact real. The harness object is tied to the fleet of the barrier's machine by
`ReshapeHarness.Harness.Now`: each of its methods takes the fleet to what the machine's step gives. That
rendering a type ends on every schema, cyclic references and nested lists of types included, is the
`decreases` clause of `SchemaTypes.RenderType`: depth left, then the size of the `type` keyword.

## Where a promise does not hold

Each of these was found while proving; the code is modelled as it is, and the exact condition is proved.

- A replayed program can tell it was paused exactly when an approval is answered after some call failed
  with an empty error text: live, the program is given a default text, and from the journal the empty
  one (`Replay.TransparentReplay`, `Replay.ReplayMatchesLive`).
- A completed call is dispatched again exactly when some execution departs from its journal, which takes
  an approval answered after such a silent failure (`ReplayRepeats.RepeatsExactlyWhenDeparting`,
  `ReplayRepeats.DepartsOnlyAfterSilence`). The comment at `run-code-tool.ts:328` has every departure
  announced in the result; one in an execution that pauses again is not, and a concrete program shows it
  (`ReplayRepeats.DepartureGoesUnsaid`).
- The call gate comes to hold more callers than its size exactly when, at some point of a run, a fresh
  caller enters between a wake-up and the woken caller's own step (`Gate.CuttingInOverfills`,
  `Gate.OverfullGate`).
- The barrier excludes runs, whatever happens while it stands, exactly when no caller of a session
  concerned stands between the gate and the start of its run when the barrier begins; such callers there
  are (`BarrierGap.ExclusionExactly`, `BarrierGap.GapIsReached`).
- The type rendered for a schema shuts values out where the schema leaves the fragment of
  `SchemaTypes.Covers`, in four ways. Without a `type` it does so exactly when there is one of `properties`,
  `items` and `prefixItems` (`SchemaGaps.TypelessExactly`). Under `prefixItems` it admits a valid array
  exactly when that is as long as the prefix: not a shorter one, nor a longer one
  (`SchemaGaps.PrefixItemsExactly`, `SchemaGaps.PrefixItemsShutOut`). Where a record is rendered beside
  `patternProperties` it admits a valid object exactly when what the patterns claim is of the type of the
  additional properties (`SchemaGaps.RecordExactly`, `SchemaGaps.PatternShutsOut`). And a reference is
  followed rightly in every document exactly when the keys of its percent-decoded pointer are those the
  renderer follows, which neither decodes percent signs, nor keeps empty keys, nor knows anchors
  (`SchemaTypes.FollowsExactly`, `SchemaGaps.WrongKeysShutOut`, `SchemaGaps.EmptyKeyShutsOut`).
- Captured output can pass its cap by up to two bytes, exactly when the line that overflowed was cut after
  one or two bytes of a character: those decode to a replacement of three. After three bytes of four it
  does not. When the lines held leave just one byte, the line cut to nothing is counted, and one line too
  many may be dropped. A value too large for the cap is shortened to two to four bytes more than the cap
  (`OutputLedger.CountIsOffExactly`, `OutputLedger.WithinCapExactly`, `OutputLedger.LongestExactly`,
  `OutputLedger.PassesTheCap`, `OutputLedger.ShortenedIsOverCap`).
- A JSON book whose first load fails is taken for empty: file and book agree, for a read and for every
  mutation, exactly when the file held nothing, and the next mutation overwrites what was there
  (`JsonBook.UnreadableLosesExactly`, `JsonBook.UnreadableIsOverwritten`). A mutation whose write fails has
  still taken effect in memory and reaches the file with the next one (`JsonBook.JsonBook.MutateWith`).
- Reconciling counts as dropped also what it leaves in the ledger: what it counts so is gone exactly when
  the network is attached and reaches the session of every recipient on the roster
  (`PeerLedger.DroppedIsGoneExactly`, `PeerLedger.DroppedYetKept`).
- A card stops mirroring its row exactly when a session is registered again as a subagent
  (`Directory.MirrorStep`).
- A comment in `network.ts` calls a creator id with a colon safe. It is for the creator read back from a
  label, which gives every creator just the members it spawned. The prefix test gives a creator others
  exactly when somebody else on the roster wears a label whose creator's id extends its own past a colon,
  as `a:b` does `a` (`Labels.NamedAreItsOwn`, `Labels.CreatorReachesItsOwnExactly`, `Labels.ReachesAnother`).
- The search corpus is the rows' text normalised as a query is exactly when white space in a grapheme that
  is not blank is single spaces, each between two other characters of graphemes side by side: a space with
  a combining mark at the start of a row stays in the corpus, and goes from a query
  (`SearchText.CorpusIsNormalizedExactly`, `SearchText.CombiningMarkStays`).
- The tokens stored of an agent are too few exactly where a run starts to report no lower than the
  one before it ended, if that cost anything; an increment of input or output tokens can be negative
  (`Usage.ExactlyCounted`, `Usage.IncrementSigns`).

## Model

| member | source | states |
|---|---|---|
| Replay.ApprovalOf | packages/code-mode/src/run-code-tool.ts:513-522 | An answer approves exactly when it says so |
| Replay.AnswerSaysNoMore | packages/code-mode/src/run-code-tool.ts:513-522 | It cancels exactly when it says so; scope and feedback are exactly what a response says, and what is no response is a rejection that says so |
| Replay.ReplayMatchesLive | packages/code-mode/src/run-code-tool.ts:330-375 | A journaled call replays as it ran, if and only if it was not an error with an empty text |
| Replay.ReplaysPrefix | packages/code-mode/src/run-code-tool.ts:325-341 | A re-run works through a faithful journal without dispatching, without diverging, and with the same outcomes |
| Replay.StepTracks | packages/code-mode/src/run-code-tool.ts:315-379 | A call that does not stop the program keeps the journal faithful, or spoiled at a silent failure |
| Replay.SpoiledShows | packages/code-mode/src/run-code-tool.ts:325-341 | Once a silent failure is replayed, the wrong outcome stays visible in every result that follows |
| Replay.Simulates | packages/code-mode/src/run-code-tool.ts:299-415 | From any point of a run, the paused series and the uninterrupted run agree if and only if no approval is answered after a silent failure |
| Replay.TransparentReplay | packages/code-mode/src/run-code-tool.ts:299-415 | However often a program is paused and answered, value, outcomes, dispatches in order and divergence are those of one uninterrupted run, if and only if no approval is answered after a silent failure |
| Replay.TransparentWhenErrorsHaveText | packages/code-mode/src/run-code-tool.ts:299-415 | With tools whose errors have a text, every program is replayed transparently |
| Replay.UninterruptedIsOrderly | packages/code-mode/src/run-code-tool.ts:343-375 | In the uninterrupted run no sequence number completes twice, and an approval goes exactly to the call that has just asked |
| Replay.AtMostOnce | packages/code-mode/src/run-code-tool.ts:299-415 | Across all executions of a paused program no sequence number completes twice, and each approval reaches exactly the call that asked for it |
| ReplayRepeats.BindAccounts | packages/code-mode/src/run-code-tool.ts:315-379 | Every binding call keeps the journal exactly what has completed, and repeats a completed call exactly when it departs |
| ReplayRepeats.RepeatedMeans | packages/code-mode/src/run-code-tool.ts:299-415 | What a repeated call is, in terms of the places of a log |
| ReplayRepeats.RepeatsExactlyWhenDeparting | packages/code-mode/src/run-code-tool.ts:299-415 | For every program and engine, across all executions a completed call is dispatched again if and only if some execution departed from its journal |
| ReplayRepeats.DepartsOnlyAfterSilence | packages/code-mode/src/run-code-tool.ts:325-341 | No execution departs unless, in the uninterrupted run, an approval is answered after a call failed with an empty error text |
| ReplayRepeats.DepartureGoesUnsaid | packages/code-mode/src/run-code-tool.ts:325-341 | A program of which a call ran twice and whose result shows no departure |
| ReplayOutcomes.OutcomesAreReplies | packages/code-mode/src/run-code-tool.ts:299-415 | For every program and engine, however often paused: each call is told what a completed dispatch of just that call came to, or that the limit was reached, and the value returned is the program's own |
| ReplayOutcomes.BindTells | packages/code-mode/src/run-code-tool.ts:315-379 | One call, live or replayed: refused while pausing and past the limit, and otherwise told the error's text or the default one, the structured result of a tool with an output schema, or else its text as JSON if that begins and parses as such, or the text |
| ReplayOutcomes.ReplyIsTold | packages/code-mode/src/run-code-tool.ts:366-375 | Live and from the journal a reply is told so, but for the default text of an error |
| ReplayOutcomes.BindDispatches | packages/code-mode/src/run-code-tool.ts:328-352 | A call the journal has is not dispatched; any other is, once, with the answer if it is the one that asked, and an entry of another call is departed from at that call |
| Basics.TrimsWhite | packages/code-mode/src/run-code-tool.ts:583-594 | Trimming takes white space only, and all of it, off both ends |
| Replay.ProgramRun.Call | packages/code-mode/src/run-code-tool.ts:315-379 | One binding call: refusals, the call limit, replay or divergence, then the live call; the whole new bookkeeping |
| Replay.ProgramRun.CallLive | packages/code-mode/src/run-code-tool.ts:343-378 | A live call hands the answer to the pending call only, pauses on an interrupt and journals every other completion |
| Replay.RunCodeTool.RunProgram | packages/code-mode/src/run-code-tool.ts:291-415 | One execution: loads the journal, runs the program, and saves the journal on a pause or deletes it at the end |
| Replay.RunCodeTool.RunWithAnswers | packages/code-mode/src/run-code-tool.ts:291-415 | The whole series of executions comes to the result of the specification, through the stored journal |
| Gate.NeverLosesWakeup | packages/code-mode/src/run-code-tool.ts:550-569 | While a caller waits, callers inside and callers woken are at least the size |
| Gate.WakesInOrder | packages/code-mode/src/run-code-tool.ts:557-568 | Callers are woken in the order they queued, none skipped or repeated |
| Gate.Bounded | packages/code-mode/src/run-code-tool.ts:550-569 | No more than the size are inside or promised a place, in every run where nobody cuts in |
| Gate.CuttingInOverfills | packages/code-mode/src/run-code-tool.ts:550-569 | Over every run: there is a point from which the woken callers, by resuming, come to be more inside than the size, if and only if somebody cut in past a woken caller |
| Gate.ResumedHoldsAll | packages/code-mode/src/run-code-tool.ts:562-563 | When everyone woken resumes, every place promised is taken |
| Gate.OverfullGate | packages/code-mode/src/run-code-tool.ts:550-569 | A run of a gate of one that ends with two inside |
| Gate.CallGate.EnterOrWait | packages/code-mode/src/run-code-tool.ts:557-562 | `enter` up to its wait |
| Gate.CallGate.ResumeWoken | packages/code-mode/src/run-code-tool.ts:562-563 | `enter` after its wait: the first woken caller takes its place |
| Gate.CallGate.LeaveGate | packages/code-mode/src/run-code-tool.ts:565-568 | `leave` frees a place and wakes the caller that waited longest |
| McpPool.RetiredSafe | packages/agents/src/workspace-mcp.ts:99-103 | Retiring a generation of other settings keeps the pool's invariant: shut down now without leases, or kept alive on loan |
| McpPool.AcquireSafe | packages/agents/src/workspace-mcp.ts:94-134 | Every acquire keeps the invariant, building or reusing a generation and disarming its timer |
| McpPool.ReleaseSafe | packages/agents/src/workspace-mcp.ts:121-126 | Every release, a second one included, keeps the invariant |
| McpPool.FireTimerSafe | packages/agents/src/workspace-mcp.ts:153-158 | A timer that fires finds its generation current and without leases, so its re-check never returns early, and shuts it down |
| McpPool.ClosedSafe | packages/agents/src/workspace-mcp.ts:137-143 | Closing shuts every live generation down and leaves nothing current |
| McpPool.StepSafe | packages/agents/src/workspace-mcp.ts:94-171 | Every step of the pool keeps the invariant |
| McpPool.PoolSafety | packages/agents/src/workspace-mcp.ts:94-171 | Over every interleaving: leases equal the borrows not given back; a live generation is current or on loan; an idle one is current with its timer armed, and an armed timer implies both; before closing none on loan is shut down; each is shut down at most once |
| McpSharing.SameGeneration | packages/agents/src/workspace-mcp.ts:94-134 | Two borrowers of one directory with the same configuration hold the same connections, whatever others do, as long as no step in between ends them |
| McpSharing.EndsExactly | packages/agents/src/workspace-mcp.ts:94-171 | A generation ceases to be the one lent exactly at an acquire with another configuration, its timer, its last lease without a grace, and the pool's end |
| McpSharing.AcquireShares | packages/agents/src/workspace-mcp.ts:97-119 | A directory's generation of this configuration is lent; nothing is built, retired or shut down |
| McpSharing.AcquireBuilds | packages/agents/src/workspace-mcp.ts:106-119 | A directory without one gets a new one |
| McpSharing.AcquireReplaces | packages/agents/src/workspace-mcp.ts:97-119 | One of another configuration gives way: shut down at once if nobody holds it, and otherwise up for those who do |
| McpSharing.RefusalBuildsNothing | packages/agents/src/workspace-mcp.ts:97-109 | A configuration the host does not run builds and lends nothing |
| McpSharing.GiveBackIdles | packages/agents/src/workspace-mcp.ts:121-161 | The last lease of a current generation with a grace leaves it current and live, with its timer armed |
| McpSharing.GiveBackShuts | packages/agents/src/workspace-mcp.ts:121-161 | The last lease of any other shuts it down |
| McpSharing.GiveBackOneOfMany | packages/agents/src/workspace-mcp.ts:121-126 | While others hold it, a generation only has a lease less |
| McpPool.WorkspaceMcpPool.Acquire | packages/agents/src/workspace-mcp.ts:94-134 | The class method takes the pool to the state the machine gives, refuses when closed, and keeps the object invariant |
| McpPool.WorkspaceMcpPool.Release | packages/agents/src/workspace-mcp.ts:121-126 | Gives back once; the last lease idles or shuts the generation down |
| McpPool.WorkspaceMcpPool.GoIdle | packages/agents/src/workspace-mcp.ts:145-161 | A retired generation, or one without a grace, is shut down; a current one has its timer armed |
| McpPool.WorkspaceMcpPool.TimerFires | packages/agents/src/workspace-mcp.ts:153-158 | The timer's callback, re-check included |
| McpPool.WorkspaceMcpPool.Close | packages/agents/src/workspace-mcp.ts:137-143 | Shuts every live generation down, once |
| McpPool.WorkspaceMcpPool.Shutdown | packages/agents/src/workspace-mcp.ts:163-171 | Disarms the timer, leaves the live set, and shuts down at most once |
| SessionRuns.NoStrandedInput | packages/agents/src/harness.ts:744-775 | In every reachable state of an open, uninterrupted, ungated session with no run and with queued input, a wake is scheduled |
| SessionRuns.WakeTakesInput | packages/agents/src/harness.ts:755-775 | In every run of a session, a wake that comes starts just one run when there is input the session could take, and changes no run otherwise; after it none is left that could |
| SessionRuns.WakeStaysDue | packages/agents/src/harness.ts:744-775 | Once the session could take input, the wake stays due through any further steps until it fires |
| SessionRuns.GatedOnlyLosesRuns | packages/agents/src/harness.ts:859-884 | Behind its gate a session only loses runs, and nothing of its own opens the gate |
| SessionCallers.NoCallerIsLost | packages/agents/src/harness.ts:783-900 | A prompt or stream that an open session takes is parked, past the gate or running ever after, until its run ends or it fails because the session closes |
| SessionCallers.CallerIsNotLost | packages/agents/src/harness.ts:783-1044 | So is any caller from any point on; only a resume can also be refused, when another run is there |
| SessionCallers.EnteringExactly | packages/agents/src/harness.ts:891-898 | On an open, ungated session a caller runs at once, a resume only if nothing runs; on a gated one it is parked as what it is; a closed one takes nobody |
| SessionCallers.PassingExactly | packages/agents/src/harness.ts:787-792 | A parked caller passes the open gate, and fails when the session closes |
| SessionCallers.BeginningExactly | packages/agents/src/harness.ts:894-898 | Past the gate it runs, unless it is a resume and something runs |
| SessionCallers.GateExactly | packages/agents/src/harness.ts:867-882 | A hold has its gate stand; a release opens that gate and no other, and has a wake due |
| SessionCallers.QueueingExactly | packages/agents/src/harness.ts:744-847 | A message more has a wake due unless a turn will drain it; a run that ends is gone and has a wake due |
| SessionCallers.EveryRunCameIn | packages/agents/src/harness.ts:758-898 | Nobody runs who did not come in or was started by a wake |
| SessionRuns.HarnessSession.IdleWake | packages/agents/src/harness.ts:758-774 | The microtask: every reason to stand down, then the run |
| SessionRuns.HarnessSession.EnterRun | packages/agents/src/harness.ts:891-898 | A run entry point refuses when closed, parks at the gate, or registers the run at once: a prompt or stream whatever else runs, a resume only when nothing does |
| SessionRuns.HarnessSession.LeaveGate | packages/agents/src/harness.ts:787-792 | A parked caller passes the gate or fails because the session closes |
| SessionRuns.HarnessSession.BeginAfterGate | packages/agents/src/harness.ts:894-898 | A caller that passed the gate begins its run in a step of its own, whatever the gate is by then |
| SessionRuns.HarnessSession.RunEnded | packages/agents/src/harness.ts:841-847 | Ending a run removes it and rechecks for queued input |
| SessionRuns.HarnessSession.HoldAtBoundary | packages/agents/src/harness.ts:867-875 | Installs the gate and remembers the runs in flight, touching none |
| SessionRuns.HarnessSession.ReleaseHold | packages/agents/src/harness.ts:877-882 | Opens its own gate and no other, and schedules the wake |
| SessionRuns.HarnessSession.BeginClose | packages/agents/src/harness.ts:1309-1315 | From the start of its close a session takes no more runs |
| Barrier.StepSafe | packages/agents/src/harness.ts:1916-1941 | Every step of the fleet keeps the barrier's invariant |
| Barrier.BarrierExclusion | packages/agents/src/harness.ts:1916-1941 | While the barrier's function runs no held session has a run; outside a barrier no open session is gated |
| Barrier.BornHeld | packages/agents/src/harness.ts:2115-2119 | A session that appears while a barrier stands is gated and held by it |
| Barrier.TimeoutChangesNothing | packages/agents/src/harness.ts:1929-1940 | On timeout the function has not run, no run was touched, and every open session is free |
| BarrierSteps.StartingExactly | packages/agents/src/harness.ts:1922-1928 | A barrier gates the registered sessions it concerns and no other, holds each under its id with a gate nobody had, and waits for exactly the runs they have |
| BarrierSteps.SettlingExactly | packages/agents/src/harness.ts:1929-1935 | Its function may start exactly when the runs found in flight are over, and starts once |
| BarrierSteps.DeadlineExactly | packages/agents/src/harness.ts:2243-2259 | At the deadline it goes on where nobody is stuck, and otherwise is over |
| BarrierSteps.ReleasingExactly | packages/agents/src/harness.ts:1936-1940 | Over, it has freed and woken those it held, touched no other session, and changed nothing but gates and wakes |
| BarrierSteps.OpeningExactly | packages/agents/src/harness.ts:2115-2120 | A session opens without runs, input or callers, registered under its id; no other session is touched |
| BarrierSteps.OpeningUnderBarrier | packages/agents/src/harness.ts:2115-2119 | Under a barrier it is gated and held from the start, and the barrier waits for no more than before |
| BarrierSteps.LeavingExactly | packages/agents/src/harness.ts:2109-2113 | A closed session that leaves takes its own registration along and no other |
| BarrierGap.ExclusionExactly | packages/agents/src/harness.ts:1916-1941 | From any state of the invariant: a barrier excludes runs in all that may follow, if and only if no concerned session has a caller between the gate and its run when it starts |
| BarrierGap.GapBreaksExclusion | packages/agents/src/harness.ts:894-898 | Whatever else runs, with such a caller there are steps after which it has its run while the function runs |
| BarrierGap.GapIsReached | packages/agents/src/harness.ts:787-792 | A run of the fleet, free of gaps at its own barrier, that ends with such a caller |
| ReshapeHarness.Harness.GateConcerned | packages/agents/src/harness.ts:1921-1928 | The whole new state is the fleet's: exactly the sessions concerned are gated, each under a hold of its runs in flight |
| ReshapeHarness.Harness.StillRunning | packages/agents/src/harness.ts:2243-2259 | Exactly the awaited sessions that still have a run found at the hold are reported, and none exactly when the fleet is settled |
| ReshapeHarness.Harness.Expire | packages/agents/src/harness.ts:1929-1940 | At the deadline the barrier gives up when somebody is stuck and goes on otherwise, as the fleet does |
| ReshapeHarness.Harness.ReleaseHolds | packages/agents/src/harness.ts:1936-1940 | Every hold is released, whichever way the barrier ends: the fleet's release |
| ReshapeHarness.Harness.Register | packages/agents/src/harness.ts:2115-2120 | A new session is registered, and gated if a barrier stands: the fleet's birth of a session |
| ReshapeHarness.Harness.Unregister | packages/agents/src/harness.ts:2109-2113 | A closed session leaves unless a later one has its id |
| ReshapeHarness.SessionStepIsFleets | packages/agents/src/harness.ts:744-898 | A step of one session object is that session's step in the fleet, so that what holds of the fleet's runs holds of the objects |
| SchemaTypes.ResolveRefIsSound | packages/code-mode/src/declarations.ts:239-249 | What the renderer follows a local reference to is what RFC 6901 says it denotes |
| SchemaTypes.UnescapeIsDecode | packages/code-mode/src/declarations.ts:251-253 | Two replacements in the code's order decode a reference token as RFC 6901 does |
| SchemaTypes.NarrowingKeepsValid | packages/code-mode/src/declarations.ts:174-177 | A value valid under a list of types is valid under its own type alone |
| SchemaTypes.CoversRef | packages/code-mode/src/declarations.ts:163-167 | References, cyclic ones included: the followed schema covers the value |
| SchemaTypes.CoversSome | packages/code-mode/src/declarations.ts:200-204 | Under `anyOf` or `oneOf` the union admits the value |
| SchemaTypes.CoversEach | packages/code-mode/src/declarations.ts:205-209 | Under `allOf` the intersection admits the value |
| SchemaTypes.CoversArray | packages/code-mode/src/declarations.ts:213-220 | Arrays with `items` |
| SchemaTypes.CoversObject | packages/code-mode/src/declarations.ts:222-237 | Objects: required and optional properties, and additional ones |
| SchemaTypes.Covers | packages/code-mode/src/declarations.ts:157-197 | Every value valid under a schema of the plain fragment is a member of the type rendered for it, at every depth and through every cycle |
| SchemaTypes.DeclaredTypeAdmits | packages/code-mode/src/declarations.ts:144-155 | What a tool's root schema accepts, its declared type admits |
| SchemaExact.MembersAreValid | packages/code-mode/src/declarations.ts:157-237 | The converse on schemas with just the keywords rendered, in ways a type can tell: a member of the type is valid, in no more steps than levels are left |
| SchemaExact.RenderedExactly | packages/code-mode/src/declarations.ts:157-237 | There, and in the fragment covered, the type admits exactly the valid values |
| SchemaExact.RequiredText | packages/code-mode/src/declarations.ts:222-237 | A schema that names a text and requires it is rendered as just that |
| SchemaExact.IntegersAreNumbers | packages/code-mode/src/declarations.ts:181-182 | Integers are rendered as numbers |
| SchemaExact.OneOfIsSome | packages/code-mode/src/declarations.ts:200-204 | `oneOf` as `anyOf`: a member is valid under one of the schemas |
| SchemaExact.ClosedIsOpen | packages/code-mode/src/declarations.ts:222-237 | An object that names its properties is rendered open, whatever is said of others |
| SchemaTypes.CheckSettles | packages/code-mode/src/declarations.ts:157-253 | A validator's verdict, once reached, does not change with more steps, so validity does not depend on the bound |
| SchemaGaps.TypelessAcceptsNull | packages/code-mode/src/declarations.ts:192-195 | A schema without a type accepts `null` unless a keyword outside the model objects |
| SchemaGaps.TypelessExactly | packages/code-mode/src/declarations.ts:192-195 | The type rendered for a schema without a type admits everything if and only if it has no `properties`, `items` or `prefixItems` |
| SchemaGaps.PrefixItemsExactly | packages/code-mode/src/declarations.ts:213-217 | For every valid array under `prefixItems`: the tuple admits it if and only if it is as long as the prefix |
| SchemaGaps.ClosedTupleCovers | packages/code-mode/src/declarations.ts:213-217 | Nothing is shut out where `items` is `false` and the array has all of the prefix |
| SchemaGaps.PrefixItemsShutOut | packages/code-mode/src/declarations.ts:213-217 | A valid array shorter than the prefix, and one longer, that the types of their schemas shut out |
| SchemaGaps.RecordExactly | packages/code-mode/src/declarations.ts:222-229 | For every valid object where a record is rendered: the record admits it if and only if the properties a pattern claims are members of the additional type |
| SchemaGaps.PatternShutsOut | packages/code-mode/src/declarations.ts:222-229 | Valid objects with a text that a pattern claims, where additional properties are numbers, that the type shuts out |
| SchemaGaps.PercentEncodingIsNotDecoded | packages/code-mode/src/declarations.ts:239-249 | A percent-encoded reference is followed to the key as written, where it denotes the decoded one |
| SchemaGaps.PercentEncodingShutsOut | packages/code-mode/src/declarations.ts:239-249 | A schema with such a reference, a value valid under it, and a rendered type that shuts the value out |
| SchemaTypes.FollowsExactly | packages/code-mode/src/declarations.ts:239-249 | The renderer follows a reference in every document to what it denotes, if and only if it is plain: elsewhere, the whole document, or a pointer whose decoded keys are those followed |
| SchemaTypes.PlainWithoutPercent | packages/code-mode/src/declarations.ts:239-249 | A reference without a percent sign is plain if and only if it names no empty key |
| SchemaGaps.WrongKeysShutOut | packages/code-mode/src/declarations.ts:239-249 | For every pointer whose keys part from those followed: a document in which a valid value is shut out |
| SchemaGaps.EmptyKeyShutsOut | packages/code-mode/src/declarations.ts:239-249 | That document for `#/a//b` |
| OutputLedger.Ledger.Log | packages/code-mode/src/runtime-quickjs.ts:510-523 | After any lines: those that fit whole, then the cut of the first that did not; truncated exactly when they are over the cap |
| OutputLedger.Ledger.Finish | packages/code-mode/src/runtime-quickjs.ts:524-549 | A value whose JSON fits comes back whole beside a prefix of whole logged lines; truncated exactly when lines and value together are over the cap; a larger one is shortened and the lines dropped; data that is none is an error |
| OutputLedger.Ledger.MakeRoom | packages/code-mode/src/runtime-quickjs.ts:543-547 | The drop loop leaves exactly the prefix the running count allows |
| OutputLedger.CutBytes | packages/code-mode/src/runtime-quickjs.ts:515-516 | A cut line takes the bytes it was given room for and at most two more |
| OutputLedger.WidthIsLeast | packages/code-mode/src/runtime-quickjs.ts:512 | A code point takes as many bytes of UTF-8 as it needs, and no more |
| OutputLedger.CutIsPrefix | packages/code-mode/src/runtime-quickjs.ts:515-516 | A cut line is a prefix of the line, its last character possibly a replacement |
| OutputLedger.CutExactly | packages/code-mode/src/runtime-quickjs.ts:515-516 | A cut is the characters that fit whole, as they are, and a replacement for one that fits in part |
| OutputLedger.ShortenedIsOverCap | packages/code-mode/src/runtime-quickjs.ts:539-542 | A shortened value takes two to four bytes more than the cap |
| OutputLedger.CutOverrunsExactly | packages/code-mode/src/runtime-quickjs.ts:515-516 | A cut takes more bytes than it had room for if and only if the room ends after one or two bytes of a character |
| OutputLedger.CountIsOffExactly | packages/code-mode/src/runtime-quickjs.ts:510-523 | The running count falls short if and only if the overflowing line was cut so, and is over if and only if the lines held left just one byte |
| OutputLedger.HeldNearlyWithinCap | packages/code-mode/src/runtime-quickjs.ts:510-523 | Lines alone pass the cap by at most two bytes, and keep to it if and only if no line was cut after one or two bytes of a character |
| OutputLedger.NearlyWithinCap | packages/code-mode/src/runtime-quickjs.ts:524-549 | Lines and value pass the cap by no more than the split character adds |
| OutputLedger.WithinCapExactly | packages/code-mode/src/runtime-quickjs.ts:524-549 | They keep to the cap for every value that fits if and only if no line was cut after one or two bytes of a character, or none was held before the cut |
| OutputLedger.LongestExactly | packages/code-mode/src/runtime-quickjs.ts:543-547 | The lines kept are the longest prefix that fits, for every value, if and only if no line was cut so and the lines held did not leave just one byte, or none was held |
| OutputLedger.PassesTheCap | packages/code-mode/src/runtime-quickjs.ts:510-549 | Two lines and a value that take five bytes under a cap of four |
| Catalog.SortSorts | packages/code-mode/src/declarations.ts:80-82 | The sorting of queues yields a sorted list |
| Catalog.NameLeExactly | packages/code-mode/src/declarations.ts:81-82 | Names are ordered by the first character in which they differ, a beginning before what goes on |
| Catalog.Pick | packages/code-mode/src/declarations.ts:83-96 | The round-robin loop over shrinking queues picks, in order, what taking turns one by one gives |
| Catalog.WithinBudget | packages/code-mode/src/declarations.ts:85-96 | At every turn what is spent is within the budget |
| Catalog.PicksCost | packages/code-mode/src/declarations.ts:83-96 | The picks cost what was spent |
| Catalog.PicksAreTaken | packages/code-mode/src/declarations.ts:83-96 | The picks of a group are the first, and so the cheapest, of its queue |
| Catalog.RoundsInStep | packages/code-mode/src/declarations.ts:85-96 | After any number of rounds every group not out has contributed exactly that many, and one that is out has no tool that fits |
| Catalog.NothingLeftFits | packages/code-mode/src/declarations.ts:85-96 | In the end no tool left in any queue fits in what is left of the budget |
| ToolCatalog.MakeGroups | packages/code-mode/src/declarations.ts:73-79 | Tools are grouped by server in order, servers in order of appearance |
| ToolCatalog.MakeQueues | packages/code-mode/src/declarations.ts:80-82 | One queue a server, in order of server, cheapest first |
| ToolCatalog.QueuesAreGrouped | packages/code-mode/src/declarations.ts:73-82 | Every tool is in exactly the queue of its server, as often as it was given |
| ToolCatalog.NamespaceExactly | packages/code-mode/src/declarations.ts:128-131 | A tool's server is what stands between `mcp__` and the next two underscores, or all the rest; other tools have none |
| ToolCatalog.RenderToolCatalog | packages/code-mode/src/declarations.ts:70-98 | The catalog is the text of what is shown in order of name, and both counts |
| ToolCatalog.CatalogText | packages/code-mode/src/declarations.ts:30-41 | The declarations are the texts of the tools shown, each as often as shown and whole, in order of name, with line breaks between |
| ToolCatalog.CatalogFits | packages/code-mode/src/declarations.ts:70-98 | What is shown costs at most the budget, and its text takes at most four characters a token and the line breaks |
| ToolCatalog.CatalogIsBest | packages/code-mode/src/declarations.ts:63-98 | Nothing is invented or shown twice; a tool left out does not fit, and is no cheaper than any tool of its server shown |
| ToolNames.ToIdentifier | packages/code-mode/src/declarations.ts:122-125 | An identifier, and the name itself if and only if that is one |
| ToolNames.IdentifierExactly | packages/code-mode/src/declarations.ts:122-125 | Every character stays in its place if identifiers may have it, and is an underscore if not |
| ToolNames.IdentifierLength | packages/code-mode/src/declarations.ts:122-125 | One underscore goes before exactly an empty name or one that begins with a digit |
| ToolNames.ScriptNames | packages/code-mode/src/declarations.ts:108-120 | Exactly the tools whose script name is neither taken nor shared are renamed, each to its script name |
| ToolNames.ScriptNamesDiffer | packages/code-mode/src/declarations.ts:100-120 | Script names are identifiers, no tool's real name, and pairwise distinct |
| ToolNames.UnrenamedExactly | packages/code-mode/src/declarations.ts:100-120 | A tool that is no identifier goes unrenamed if and only if its script name is taken or wanted by another |
| ToolNames.InstallBindings | packages/code-mode/src/runtime-quickjs.ts:300-314 | The properties of `tools`: own names, listed unless aliased, and the aliases that hide nothing |
| ToolNames.BindingsReach | packages/code-mode/src/runtime-quickjs.ts:300-314 | Own names and aliases reach their tools and nothing else is reached; a tool is listed by its own name exactly when no alias of it is given |
| ToolNames.ToolsOfRun | packages/code-mode/src/run-code-tool.ts:384-388 | From the names of a run's tools, the program sees each under exactly one listed name that reaches it, and no name reaches anything else |
| ToolNames.SeesEachOnce | packages/code-mode/src/runtime-quickjs.ts:300-314 | The same for any bindings and the inverse of any renaming |
| Mailbox.SettleTakesOne | packages/agents-peers/src/mailbox.ts:57-63 | Settling removes exactly the messages of that id from one queue, in order, and leaves no empty queue |
| Mailbox.EnqueueAddsLast | packages/agents-peers/src/mailbox.ts:45-51 | Enqueuing adds last, or nothing when full, and touches no other queue |
| Mailbox.EnqueueExactly | packages/agents-peers/src/mailbox.ts:45-51 | A message is accepted if and only if its recipient has fewer pending than the capacity; it is then the last of them, and otherwise nothing changes |
| Mailbox.AlwaysTidy | packages/agents-peers/src/mailbox.ts:42-68 | In every mailbox that started empty no queue is empty and every message waits in its recipient's |
| Mailbox.NeverOverCapacity | packages/agents-peers/src/mailbox.ts:45-51 | No queue ever exceeds the capacity messages are enqueued under |
| Mailbox.MemoryPeerMailbox.Enqueue | packages/agents-peers/src/mailbox.ts:45-51 | Accepted exactly while fewer are pending than the capacity; last in its recipient's queue then, and no change otherwise |
| Mailbox.MemoryPeerMailbox.Settle | packages/agents-peers/src/mailbox.ts:57-63 | Refines the specification |
| Mailbox.MemoryPeerMailbox.PendingOf | packages/agents-peers/src/mailbox.ts:53-55 | A recipient's messages in order |
| Mailbox.MemoryPeerMailbox.PendingRecipients | packages/agents-peers/src/mailbox.ts:65-67 | Exactly the recipients with messages pending |
| JsonBook.DurableStep | packages/agents-peers/src/file-repo.ts:31-64 | A load, write, rename, failure or crash at any point keeps the file a prefix of the mutations |
| JsonBook.FileOnlyGrows | packages/agents-peers/src/file-repo.ts:47-57 | The prefix in the file never shrinks or changes |
| JsonBook.InCallOrderStep | packages/agents-peers/src/file-repo.ts:59-64 | Operations run one at a time in the order of the calls |
| JsonBook.AlwaysDurable | packages/agents-peers/src/file-repo.ts:22-65 | At every instant of every run, crashes included, the file holds the book after a prefix of the mutations, which covers every one whose caller was told, and mutations were applied in call order |
| JsonBook.ReadsInCallOrder | packages/agents-peers/src/file-repo.ts:43-45 | A read is given the book after exactly the mutations called before it |
| JsonBook.CalledAreAsked | packages/agents-peers/src/file-repo.ts:43-64 | No call is forgotten but by a crash |
| JsonBook.MutationIsSaved | packages/agents-peers/src/file-repo.ts:47-57 | A mutation that goes through is in the file on top of all before it, and its caller is told |
| JsonBook.FailedMutationStays | packages/agents-peers/src/file-repo.ts:47-57 | One whose write or rename fails leaves the file as it was and stays in memory for the next to save |
| JsonBook.FileIsMailbox | packages/agents-peers/src/file-repo.ts:22-100 | In every run of mailbox operations, crashes included, book and file are mailboxes: after the same operations, and after a prefix of them with every one whose caller was told |
| JsonBook.FileWithinCapacity | packages/agents-peers/src/file-repo.ts:74-82 | No queue of book or file passes the capacity that messages are enqueued under |
| JsonBook.UnreadableLosesExactly | packages/agents-peers/src/file-repo.ts:31-40 | A first load that fails keeps file and book in agreement, for a read and for every mutation, if and only if the file held nothing |
| JsonBook.UnreadableIsOverwritten | packages/agents-peers/src/file-repo.ts:31-57 | A mutation after it leaves in the file what it makes of the empty book, whatever the file held |
| JsonBook.JsonBook.MutateWith | packages/agents-peers/src/file-repo.ts:47-57 | In memory whatever happens, over the empty book where the first load fails; in the file exactly when the caller is told |
| JsonBook.JsonBook.ReadWith | packages/agents-peers/src/file-repo.ts:43-45 | Reads the current book, or the empty one where the first load fails |
| JsonBook.SeesWhatIsLoaded | packages/agents-peers/src/file-repo.ts:31-57 | What the class sees is what the machine's load gives a read or has a mutation change |
| JsonBook.FilePeerMailbox.Enqueue | packages/agents-peers/src/file-repo.ts:74-82 | Likewise on a file: accepted exactly while fewer are pending than the capacity, last in its queue then, and durable when it answers |
| JsonBook.FilePeerMailbox.Settle | packages/agents-peers/src/file-repo.ts:88-96 | Likewise for settling |
| JsonBook.FilePeerMailbox.PendingOf | packages/agents-peers/src/file-repo.ts:84-86 | A recipient's messages in order |
| JsonBook.FilePeerMailbox.PendingRecipients | packages/agents-peers/src/file-repo.ts:98-100 | Exactly the recipients with messages pending |
| PeerLedger.NextIsSafe | packages/agents-peers/src/network.ts:586-691 | Every step, a crash included, keeps every accepted message accounted for |
| PeerLedger.SettlingIsSafe | packages/agents-peers/src/network.ts:327-330 | Settling under whatever key an event gives loses nothing but the message that entered |
| PeerLedger.NothingLost | packages/agents-peers/src/network.ts:586-691 | Over every run, an accepted message is in the ledger, or entered a conversation, or left drained, disbanded, off the roster or unreachable |
| PeerLedger.ExitsHaveReasons | packages/agents-peers/src/network.ts:605-691 | Over every run, each message that left was in its recipient's queue when that was drained or the recipient disbanded, or was looked up while the recipient was off the roster, or steered at a session without a frame |
| PeerLedger.CrashLeavesTheRest | packages/agents-peers/src/network.ts:651-664 | After a crash the ledger holds every accepted message that neither entered nor left; what was queued or being settled in memory is gone |
| PeerLedger.MayBeDeliveredTwice | packages/agents-peers/src/network.ts:319-332 | A crash before settlement leaves an entered message in the ledger |
| PeerLedger.EntriesExactly | packages/agents-peers/src/network.ts:664-682 | The entries found hold of each recipient listed its whole queue, in order, and nothing of any other |
| PeerLedger.EachEntryOnce | packages/agents-peers/src/network.ts:664-682 | Each entry reconciled is queued and kept, or gone by a named exit, or kept where its recipient was not reached |
| PeerLedger.DroppedIsGoneExactly | packages/agents-peers/src/network.ts:664-682 | What reconciling counts as dropped is gone from the ledger if and only if the network is attached and reaches every recipient on the roster |
| PeerLedger.DroppedYetKept | packages/agents-peers/src/network.ts:664-682 | An entry counted as dropped that stays |
| PeerLedger.PeerNetwork.Dispatch | packages/agents-peers/src/network.ts:586-599 | A message is refused exactly when over budget or when its recipient has as many pending as the capacity, and leaves no trace then; accepted, it is last in its queue unless no frame runs there, and the receipt says whether it reached a queue |
| PeerLedger.PeerNetwork.Deliver | packages/agents-peers/src/network.ts:605-649 | Only a recipient without a running frame is settled; a failure keeps the entry |
| PeerLedger.PeerNetwork.Observe | packages/agents-peers/src/network.ts:319-332 | Any message entering a conversation, one a session put back itself included, is settled then, and counts as a wake exactly when its delivery woke the recipient |
| PeerLedger.PeerNetwork.Reconcile | packages/agents-peers/src/network.ts:664-682 | Every entry found pending is counted exactly once, as redelivered if and only if it reached a queue |
| PeerLedger.PeerNetwork.TakeAll | packages/agents-peers/src/network.ts:686-691 | Draining returns what was pending, empties that queue and touches no other |
| PeerLedger.PeerNetwork.DisbandMember | packages/agents-peers/src/network.ts:478-481 | A disbanded member's pending mail leaves by that exit, and the member leaves the roster |
| Directory.MirrorStep | packages/agents-peers/src/directory.ts:148-204 | An operation keeps the cards the durable slice of the session rows if and only if it turns no session into a subagent |
| Directory.AlwaysMirrors | packages/agents-peers/src/directory.ts:125-204 | From any cards, after any run of operations that turns none, the cards mirror the rows |
| Directory.FreshSeed | packages/agents-peers/src/directory.ts:198-203 | A fresh directory seeded from cards mirrors them with every row parked |
| Directory.RestartKeepsSlice | packages/agents-peers/src/directory.ts:125-137 | The rows the next process starts with are, in their durable part, those this one ended with |
| Directory.LabelsSurvive | packages/agents-peers/src/directory.ts:233-238 | Registering again without labels keeps them in row and card |
| Directory.RegisterExactly | packages/agents-peers/src/directory.ts:157-238 | A row says what was stated, and of name, description, parent and labels what was there where nothing was; a session's card says the same, and nothing else changes |
| Directory.SetStatusExactly | packages/agents-peers/src/directory.ts:240-244 | A status set is the status read, and nothing else of row or card changes |
| Directory.RowStays | packages/agents-peers/src/directory.ts:148-204 | No other operation, and none on another agent, touches a row or its card |
| Directory.UnregisteredIsGone | packages/agents-peers/src/directory.ts:175-178 | Who is unregistered has neither row nor card, and is not found again |
| Directory.GetRecovers | packages/agents-peers/src/directory.ts:180-190 | A card another process added becomes a row when looked up, and the mirror is whole |
| Directory.UnseededLosesLabels | packages/agents-peers/src/directory.ts:157-169 | Registering before seeding loses a card's labels, after seeding it does not |
| Directory.MemoryAgentDirectory.Register | packages/agents-peers/src/directory.ts:233-238 | Merges with the row there was: what is stated replaces, the rest stays |
| Directory.CardSyncedDirectory.Register | packages/agents-peers/src/directory.ts:157-169 | The card written is that of the merged row, for sessions only |
| Directory.CardSyncedDirectory.Get | packages/agents-peers/src/directory.ts:180-190 | A miss falls through to the card store |
| Directory.CardSyncedDirectory.Seed | packages/agents-peers/src/directory.ts:198-203 | Every card without a row gets a parked one, live rows are kept |
| Labels.CreatorRoundTrip | packages/agents-peers/src/network.ts:139-173 | The creator read back from a label is the one it was made for, colons and all, if it has an id |
| Labels.CreatorExactly | packages/agents-peers/src/network.ts:166-173 | A creator is read back from exactly the labels of its teams; any other label is nobody's |
| Labels.OwnsExactly | packages/agents-peers/src/network.ts:139-152 | A label passes an id's prefix test if and only if the id is its creator's or is extended by it past a colon |
| Labels.TestsAgreeExactly | packages/agents-peers/src/network.ts:139-173 | Prefix test and creator read back agree if and only if the creator's id does not extend the other past a colon |
| Labels.MemberIdInjective | packages/agents-peers/src/network.ts:159-164 | A member's id determines its team and its name |
| Labels.AlwaysWellLabelled | packages/agents-peers/src/network.ts:374-489 | In every roster reached, every label is a team of its wearer's own or the one it was spawned into, whatever ids the creators have |
| Labels.NamedAreItsOwn | packages/agents-peers/src/network.ts:166-173 | In every roster reached, those whose label names a creator are exactly the members it spawned into teams not disbanded since |
| Labels.CreatorReachesItsOwnExactly | packages/agents-peers/src/network.ts:357-362 | In every roster reached, the prefix test gives a creator exactly the members it spawned, if and only if nobody else wears a label whose creator's id extends its own past a colon |
| Labels.CreatorReachesItsOwn | packages/agents-peers/src/network.ts:357-362 | Where nobody forms a team under an id that extends the creator's past a colon, it reaches exactly its own |
| Labels.ReachesAnother | packages/agents-peers/src/network.ts:357-362 | A roster on which a creator reaches another that it did not spawn |
| Labels.CreateExactly | packages/agents-peers/src/network.ts:374-398 | Forming a team has its creator wear the label once, after those it had, if the name is good |
| Labels.SpawnExactly | packages/agents-peers/src/network.ts:406-467 | A spawn makes a member exactly when the host lets it, the name is good and free, and the creator wears the team named or just one of its own |
| Labels.SpawnNeedsTeam | packages/agents-peers/src/network.ts:420-434 | Without such a team nothing is spawned |
| Labels.DisbandExactly | packages/agents-peers/src/network.ts:474-489 | Who does not wear the label is untouched; of those who do, only its creator stays, if it wears another, with the others in order |
| Labels.DisbandTakesItsTeam | packages/agents-peers/src/network.ts:474-489 | Disbanding takes the members spawned into that team and no other, also where members made teams themselves |
| Labels.PeerNetwork.CreateTeam | packages/agents-peers/src/network.ts:374-398 | Adds the label once, and only for a valid name |
| Labels.PeerNetwork.SpawnTeammate | packages/agents-peers/src/network.ts:406-467 | Spawns exactly when every check passes, into a team the creator owns |
| Labels.PeerNetwork.DisbandTeam | packages/agents-peers/src/network.ts:474-489 | Members leave; the creator sheds the label, and leaves when it owns no other |
| Usage.SpendTelescopes | packages/agents-peers/src/stats.ts:107-127 | The increments of an agent sum, in every component, to the last reports of its maximal non-decreasing segments |
| Usage.IncrementSigns | packages/agents-peers/src/stats.ts:107-127 | No total increment is negative; an input or output increment is if and only if it went down while the total held |
| Usage.StoredIsCostLessMissed | packages/agents-peers/src/stats.ts:63-127 | However agents interleave, the tokens stored of one are its counts and what its runs cost, less the ends of runs another seems to continue |
| Usage.StoredIsLastReport | packages/agents-peers/src/stats.ts:63-127 | While an agent's totals do not go down, what is stored of it is what its last report says: input, output, cost, and the total given or else input and output together |
| Usage.ExactlyCounted | packages/agents-peers/src/stats.ts:63-127 | The tokens stored are exact if and only if every run starts below the end of the one before, or after one that cost nothing |
| Usage.StoredOfEach | packages/agents-peers/src/stats.ts:63-127 | However agents interleave, what is stored of one is its own segments and counts |
| Usage.FleetIsEverything | packages/agents-peers/src/stats.ts:89-93 | The fleet's totals are every increment ever added, once |
| Usage.UsageDiff.Increment | packages/agents-peers/src/stats.ts:104-127 | The increment over the agent's last report, which it replaces |
| Usage.MemoryPeerStatsStore.Add | packages/agents-peers/src/stats.ts:85-87 | Accumulates for one agent and keeps the others |
| Usage.MemoryPeerStatsStore.Snapshot | packages/agents-peers/src/stats.ts:89-93 | Every agent's counters, and their sum |
| Search.BuildSearchCorpus | packages/pi-tui/src/alt-screen-search.ts:32-61 | The loops over rows and graphemes build the corpus the specification gives |
| Search.CorpusIsMapped | packages/pi-tui/src/alt-screen-search.ts:32-61 | Text and source map are as long as each other, separators are single and inner, and the map runs along the screen |
| Search.OneOnEachColumn | packages/pi-tui/src/alt-screen-search.ts:42-57 | The graphemes stand side by side from the left edge: each column within the row's width is taken up by exactly one |
| Search.GraphemeIsMapped | packages/pi-tui/src/alt-screen-search.ts:32-61 | Every grapheme that is not blank is in the corpus, whole, and its characters come from its own columns |
| SearchText.CorpusIsNormalizedExactly | packages/pi-tui/src/alt-screen-search.ts:32-65 | For all rows: the text of the corpus is their text normalised as a query is, if and only if white space in graphemes that are not blank stands alone between other characters |
| SearchText.CorpusIsNormalized | packages/pi-tui/src/alt-screen-search.ts:32-65 | So it is when no grapheme that is not blank has white space in it |
| SearchText.NormalizedAlike | packages/pi-tui/src/alt-screen-search.ts:32-65 | Whatever the graphemes, corpus and rows normalise to the same text |
| SearchText.NormalExactly | packages/pi-tui/src/alt-screen-search.ts:63-65 | A text is normal already if and only if its white space is single spaces, none at either end |
| SearchText.CombiningMarkStays | packages/pi-tui/src/alt-screen-search.ts:45-65 | A row that begins with a space under a combining mark: the corpus keeps the space, a query loses it |
| Search.SegmentsCover | packages/pi-tui/src/alt-screen-search.ts:79-94 | For any range the segments cover exactly the columns of its graphemes, in row order and strictly apart within a row |
| Search.MatchesCover | packages/pi-tui/src/alt-screen-search.ts:71-97 | So they do in the corpus of any rows of the screen |
| Search.SegmentsOf | packages/pi-tui/src/alt-screen-search.ts:82-92 | The loop that extends the last segment in place gives these segments |
| Search.FindMatches | packages/pi-tui/src/alt-screen-search.ts:71-97 | From rows and matched ranges to segments; a range that covers nothing is no match |
| Fuzzy.GreedyIsLeftmost | packages/pi-tui/src/fuzzy.ts:23-57 | The greedy scan places every letter no later than any other embedding |
| Fuzzy.MatchesExactly | packages/pi-tui/src/fuzzy.ts:16-68 | A query matches if and only if it is a subsequence of the text, and its places are the leftmost of all embeddings |
| Fuzzy.MatchQuery | packages/pi-tui/src/fuzzy.ts:16-68 | The scan with its running counters gives that match and the score of those places |
| Fuzzy.SwapExactly | packages/pi-tui/src/fuzzy.ts:75-81 | Letters and digits are exchanged if and only if the query is a run of each |
| Fuzzy.PartsOnce | packages/pi-tui/src/fuzzy.ts:75-81 | A query is parted into letters and digits in at most one way |
| Fuzzy.FuzzyExactly | packages/pi-tui/src/fuzzy.ts:70-92 | A query matches if and only if it or its exchange is a subsequence of the text |
| Fuzzy.FuzzyMatch | packages/pi-tui/src/fuzzy.ts:12-93 | Tries the query and then its exchange, which scores five more |
| FuzzyScore.ExactIsBest | packages/pi-tui/src/fuzzy.ts:23-65 | Of all texts a query is in, none scores better than the query itself, and any other at least a hundred points worse |
| FuzzyScore.QueryIsBest | packages/pi-tui/src/fuzzy.ts:12-93 | So it is of all texts it matches with letters and digits exchanged |
| FuzzyScore.ExchangeScores | packages/pi-tui/src/fuzzy.ts:70-93 | A text that is the query with letters and digits exchanged is found, and scores five worse than the query itself |
| FuzzyScore.ExactScore | packages/pi-tui/src/fuzzy.ts:33-65 | What letters and digits score in themselves, in full |
| FuzzyScore.NothingScoresNothing | packages/pi-tui/src/fuzzy.ts:16-68 | An empty query is found everywhere and what is not found scores nothing |
| FuzzyScore.NearerIsBetter | packages/pi-tui/src/fuzzy.ts:34-52 | A letter nearer to the one before scores better than one farther off, unless only that starts a word |
| FuzzyScore.StartIsBetter | packages/pi-tui/src/fuzzy.ts:33-49 | The same place scores ten points better at the start of a word |
| FuzzyScore.LastGap | packages/pi-tui/src/fuzzy.ts:35-45 | What the distance of a letter from the one before adds |
| FuzzyScore.TotalIsSum | packages/pi-tui/src/fuzzy.ts:121-129 | What an item scores is the sum of what the tokens score in it |
| FuzzyScore.PassingExactly | packages/pi-tui/src/fuzzy.ts:117-134 | An item passes, as often as it is there, exactly when every token is found in it |
| FuzzyScore.GatheredAppend | packages/pi-tui/src/fuzzy.ts:117-134 | The items are gone through in order: what passes of two lists one behind the other is what passes of the first and then of the second |
| FuzzyScore.FilterExactly | packages/pi-tui/src/fuzzy.ts:99-137 | The results are the hits among the items, each as often as its item is there and with the sum of its tokens' scores, best first |
| Fuzzy.SortIsStable | packages/pi-tui/src/fuzzy.ts:135-136 | The sort keeps the items of one score, all of them and in order |
| Fuzzy.FuzzyFilter | packages/pi-tui/src/fuzzy.ts:99-137 | Keeps exactly the items in which every token is found, with the sum of their scores, sorted by it, and those of one score in the order they came |

## Left out

- Replay.AtMostOnce: stated for runs that replay transparently; for the others `ReplayRepeats.RepeatsExactlyWhenDeparting` says exactly when a completed call is dispatched again.
- Programs with several calls in flight: the engine is modelled for one call at a time, so calls still waiting at the gate when a pause hits are not covered.
- Images attached to a tool's result are not journaled, and not modelled.
- Running in the background, detaching, and the wall clock and memory limits of the script engine.
- The journal store is a map that keeps what is written to it; a value survives it unchanged.
- The MCP connections themselves, and an acquire refused by their construction, which has by then retired the old generation; the refusal is modelled, the reasons are not.
- Barrier.BarrierExclusion: assumes that no caller stands between the gate and its run when a barrier starts (`BarrierGap.ExclusionExactly` has the exact condition), and one open session per id; which sessions end up on a new extension is not modelled.
- SchemaTypes.Covers: for schemas that keep `properties` and `items` beside a `type`, without `prefixItems`, without `patternProperties` where a record is rendered, and whose references the renderer follows, if at all, to what they denote; the four ways out of the fragment are those of `SchemaGaps.TypelessExactly`, `SchemaGaps.PrefixItemsExactly`, `SchemaGaps.RecordExactly` and `SchemaTypes.FollowsExactly`. Keywords such as `minimum` are one given test on the value.
- SchemaTypes.DeclaredTypeAdmits: for the same schemas.
- Labels.PeerNetwork.SpawnTeammate: the initial prompt and its receipt are not in it; they are one dispatch, which `PeerLedger.PeerNetwork.Dispatch` models.
- Labels.PeerNetwork.DisbandTeam: the members' pending mail is not in it; `PeerLedger.PeerNetwork.DisbandMember` has it.
- Search.FindMatches: the ranges a query matches are given.
- PeerLedger.PeerNetwork.Reconcile: nothing else happens between its entries; `PeerLedger.NothingLost` is about every interleaving of the steps it takes.
- An `$id` below the root of a schema: pointers are resolved against the whole document, also inside it.
- A reference resolved through the prototype of an object, such as `#/__proto__`, and a tool or recipient named like a member of a plain object.
- The text of a type: parentheses, documentation comments, quoted keys.
- Lower-casing a query and its text, and splitting a query into tokens.
- Tools of one server with the same cost and name: their order in a queue is left to the input order.
- A line's lone surrogates are replaced when it is cut; otherwise text is a sequence of code points.
- PeerLedger.NothingLost: message ids are taken to be new for every message; delivery exactly once does not hold and is not claimed.
- Interleavings inside one operation of the card-synced directory, and two spawns at once.
- Sorting and filtering of roster listings, address resolution and visibility policies.
- Segmentation into graphemes, their widths, and the regular expression that finds a query in the corpus.
- Sessions, the runner, the message bus and the scheduler: only the contracts their callers rely on.
