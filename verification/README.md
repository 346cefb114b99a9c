# zen-mcp: verified models

Dafny models of the concurrent and stateful parts of zen-mcp, with proofs of what they promise and, where a promise
does not hold, the exact condition under which it does.

| files | what they model |
|---|---|
| Gate, GateProtocol, GateProgress, GateLimits | the bridge admission gate: a FIFO counting semaphore made of tickets; its safety in every interleaving, who is served, and what its limit means |
| TabGates, Turns, TurnOwners, LockOrder | one-turn gates per tab, created and dropped by reference count; which turns a bridge call takes and who has them; which asking policies deadlock |
| Recency, ServerCache, RefreshRaces, RefreshLosses | two least-recently-used caches that must stay in step, and what overlapping requests do to them |
| ShortestPath, Reindex, NodeIndex, Decimal | the code graph: bounded breadth-first search, incremental re-indexing with cascades, the name index and the capped edge product |
| ConfigMerge, TierCache | the deep merge of configuration layers and the per-workspace cache of its results |
| Journal | the upload ledger and its daily cap |
| PoolRegistry, PoolChosenIds, PoolReports, PoolWrap | the registry of long-running calls, what it reports and for how long, and the wrapper that hands a slow call over to it |
| Aliases, Placeholders, Text | short flag names and the prompt placeholder substituter |
| FiniteSets, Options | shared definitions |

Objects that the program updates in place are classes here (`Gate`, `Registry`, `ServerCache`, `Storage`, `Cache`,
`Journal`, ...), their loops are loops, and every method is proved against a function on values. The functions are
the steps of machines whose runs are sequences of steps in any order: one step is one mutex-protected section, one
channel operation or one read, and a step whose guard does not hold changes nothing. Clocks, timeouts, cancellation
and what others do are inputs of the steps.

## What the proofs found

- Gate: `abandon` moves the line on only when the head leaves (internal/bridge/gate.go:300-302). A waiter that leaves
  from the middle leaves a ticket the line never steps over: everyone behind it, and every later caller, is shut out
  for good, even on an idle gate (`GateProgress.ShutOut`, `IdleGateFreezes`). This is the only way
  (`HoleFreeIffHeadOnly`, `CanBeServedIffNoHoleBefore`).
- Gate: raising the limit wakes nobody until someone returns a turn or leaves the queue
  (`GateProgress.RaisedLimitWaitsForDeparture`).
- Tab turns: the closure `WithTabTurn` returns is not guarded against a second call, unlike the gate's own. A second
  call is harmless exactly when the tab has no queue at that moment; otherwise two callers can come to reserve one tab
  (`TabTurns.SecondCallDoublesIff`).
- Turns: a focus-bound call made while its context holds the tab asks for the global turn after the tab, and two such
  callers can wait for each other (`TurnNet.ScreenshotWhileHoldingTabDeadlocks`). In general a policy of asking while
  holding deadlocks exactly when it has a circle (`LockOrder.DeadlocksIffCyclic`).
- Caches: a hit stamps the server cache, unlocks, and only then refreshes the registry. With at most p refreshes in
  flight the registries must hold p + 1 times as many as the cache, and that is enough
  (`RefreshLosses.LosesIffFewerThanNeeded`). The program's 64 for 32 is exactly enough for one; with two in flight a
  cached server can lose its registry, and edits then no longer reach it. If every hit were refreshed before anything
  else happens, as many registries as servers would do (`ServerCaches.InclusionIffRegistriesHoldAsMany`).
- Re-indexing replaces a file's rows exactly when its *stored* keys are distinct. A file whose nodes repeat keys grows
  every time it is re-indexed with them, as when other bytes of it change (`Reindexing.UnchangedFileGrows`); a Go
  struct is such a case (`GoStructGrows`).
- Name index: it differs from the query only for the empty name, and only if a named node lacks a qualified name. Nodes
  stored by indexing never do, so for them the two agree on every name.
- Merge: the comment at internal/mcpcfg/config.go:536-540 says an explicit null keeps the lower value; the code does
  that at the top level only (`ConfigMerge.NullKeepsIff`). Layers associate exactly under `NoShowThrough`.
- Ledger: completing or abandoning a slot that was released puts it back on the books and can exceed the cap
  (`Ledger.RevivedUploadBreaksTheCap`), exactly when its day is full (`AlwaysWithinIff`). With a clock that never goes
  back the cached counter is off exactly after such a revival on the ledger's own day, until the next roll, claim or
  release (`CounterExactIff`, `CounterRestored`).
- Pool: a minted id replaces a job that a caller registered under the same id (`PoolChosenIds.MintReplacesIff`). A full
  registry, or an eviction before the outcome is stored, loses the outcome of a call; an eviction between the store and
  the handler's fetch makes the handler read a missing job (`PoolWrap.ReceivedIff`).
- Aliases: the comment says "h" is never used; a parameter called h gets it (`Aliases.HelpFlagIff`).

## Model

| member | source | states |
|---|---|---|
| BridgeGate.Gate.constructor | internal/bridge/gate.go:115-120 | A new gate is empty, has the limit it was made with or else one turn, and satisfies the gate invariant. |
| BridgeGate.Gate.SettingsLocked | internal/bridge/gate.go:156-167 | What the policy answers becomes the limit, an answer below one a limit of one; without a policy the limit stays; nothing else changes. What that means for callers is `GateLimits.PolicyDecides`. |
| BridgeGate.Gate.Draw | internal/bridge/gate.go:182-193 | The first locked section of Acquire: the caller gets the next ticket; it is admitted at once exactly when nobody waits, it is next in line and a turn is free; otherwise a fresh waiter is queued under its ticket. |
| BridgeGate.Gate.AdmitPendingLocked | internal/bridge/gate.go:275-286 | The loop fills turns as the specification does, and every waiter of the old queue has its ready channel closed exactly if it was admitted. |
| BridgeGate.Gate.AbandonLocked | internal/bridge/gate.go:290-305 | A waiter leaves exactly when it is still queued; if the turn was already handed over nothing changes and the caller keeps it. |
| BridgeGate.Gate.ReleaseLocked | internal/bridge/gate.go:315-325 | One holder with the ticket is removed, if any, and free turns are refilled. |
| BridgeGate.ReleaseFunc.End | internal/bridge/gate.go:308-313 | The release closure acts on its first call only. |
| BridgeGate.Gate.QueuedLocked | internal/bridge/gate.go:255-266 | Returns all waiters, each once, in ticket order, by in-place insertion sort. |
| BridgeGate.Sink | internal/bridge/gate.go:260-264 | One round of the insertion sort extends the sorted prefix by one and keeps the same waiters. |
| BridgeGate.AdmitPendingExact | internal/bridge/gate.go:275-286 | Refilling admits exactly a run of consecutive tickets from the head, in order, stops only at a missing ticket or a full gate, and never exceeds the limit. |
| BridgeGate.GiveBackFrees | internal/bridge/gate.go:317-322 | Releasing a ticket frees that ticket and no other. |
| GateProtocol.StepsAreGateSections | internal/bridge/gate.go:173-325 | Every step of the concurrent machine changes the gate by one of its locked sections and nothing else, so what the methods do is what the runs are made of. |
| GateProtocol.AlwaysSafe | internal/bridge/gate.go:173-305 | In every state of every interleaving: holder tickets < eligible <= pending tickets < next, holders strictly increasing, admissions in strictly increasing ticket order, holders at most the largest limit ever in force, and each ticket in exactly the place its call says. |
| GateProtocol.StepOutcome | internal/bridge/gate.go:195-229 | A step never revises an outcome: gave-up and released are final, owning only becomes released. |
| GateProtocol.OneOutcome | internal/bridge/gate.go:195-229 | Over any continuation a call that gave up is never admitted and holds nothing, and one that returned its turn never holds again, including when timeout or cancellation meets admission. |
| GateProtocol.TicketsBalance | internal/bridge/gate.go:182-193 | Tickets drawn = admitted so far + given up + still waiting. |
| GateProgress.HolesExactly | internal/bridge/gate.go:300-302 | A ticket nobody waits with stands in the line exactly if it did before, or its waiter just left from behind the head. |
| GateProgress.HoleFreeIffHeadOnly | internal/bridge/gate.go:290-305 | A run leaves no hole if and only if every waiter that gave up was at the head. |
| GateProgress.ShutOut | internal/bridge/gate.go:275-302 | Once there is a hole, no call with a later ticket is admitted in any continuation, whatever the limit becomes. |
| GateProgress.RunSettles | internal/bridge/gate.go:275-286 | With a fixed limit, after every step a free turn means the next ticket is not waiting. |
| GateProgress.FreeTurnWastedIffStuck | internal/bridge/gate.go:186-192 | With a fixed limit: a free turn is refused to a newcomer if and only if the line is stuck at a hole; with no hole there, a free turn means nobody waits. |
| GateProgress.Served | internal/bridge/gate.go:275-286 | Arrival order in every continuation: a waiter with no hole at or before it is admitted, unless it gives up, by the time the returns that free a turn outnumber the calls ahead of it, whoever else comes or goes and however the limit changes. |
| GateProgress.StepAdvances | internal/bridge/gate.go:275-286 | The line never moves back, and a return that frees a turn moves it on while its head waits. |
| GateProgress.FreedIsReturned | internal/bridge/gate.go:308-325 | With a fixed limit the turns freed in a run are exactly the calls that gave theirs back in it. |
| GateProgress.ReturnsFree | internal/bridge/gate.go:315-325 | With a fixed limit every return that takes effect frees a turn. |
| GateProgress.CanBeServedIffNoHoleBefore | internal/bridge/gate.go:290-305 | In every state of every run, limit changes included, a waiter can still be admitted by some continuation if and only if no hole lies before it, and then by one in which holders only wake and return their turns. |
| GateProgress.ReturnsServe | internal/bridge/gate.go:315-325 | With no hole at or before it, a waiter is admitted by wake-ups and returns alone, whatever the limit is. |
| GateProgress.IdleGateFreezes | internal/bridge/gate.go:300-302 | Counterexample to progress: three callers, the last gives up mid-queue; the gate ends idle and empty and admits nobody in any continuation. |
| GateProgress.BystandersAdmitNobody | internal/bridge/gate.go:150-167 | While the head of the line waits, no number of limit changes, arrivals and wake-ups admits anybody. |
| GateProgress.RaisedLimitWaitsForDeparture | internal/bridge/gate.go:297-305 | After any such steps the next step admits somebody if and only if it is a return or a departure from the queue that takes effect and leaves a free turn and a waiting head; so a raised limit is used only from then on. |
| GateProtocol.WaiterDecides | internal/bridge/gate.go:208-229 | A waiter that gives up has the turn exactly if it was handed over before, and has left exactly if it was still queued. |
| GateLimits.FreeTurnsFill | internal/bridge/gate.go:182-193 | From every state in which nobody waits and every ticket was passed, m callers take the free turns in the order they come, under their own labels, and the rest queue in that order. |
| GateLimits.FreshGateAdmits | internal/bridge/gate.go:115-120 | Of m callers on a gate made with limit k and no policy, exactly min(m, max(1, k)) hold a turn and the others wait. |
| GateLimits.PolicyDecides | internal/bridge/gate.go:156-167 | Once the policy answers n, m callers that find nobody waiting bring the holders to max(1, n) at most: min(m, max(0, max(1, n) - holders)) more hold a turn and the others wait, so a higher answer admits more and a lower one fewer. |
| GateLimits.FreshGateObeysPolicy | internal/bridge/gate.go:156-167 | On a gate made with any limit, once the policy answered n exactly min(m, max(1, n)) of m callers hold a turn and the others wait. |
| GateLimits.PolicyBindsFromThenOn | internal/bridge/gate.go:156-193 | Over any continuation in which the policy keeps its answer n, nobody is admitted beyond max(1, n) holders, however many held a turn when it changed. |
| TabRegistry.Registry.TabGateFor | internal/bridge/address.go:149-163 | Takes one reference on the queue of a tab, making a fresh one-turn gate exactly when there was none. |
| TabRegistry.Registry.UntabGate | internal/bridge/address.go:165-176 | Gives one reference back and drops the queue exactly when none is left. |
| TabTurns.StepSound | internal/bridge/address.go:223-240 | Every step of the per-tab callers, second calls of a closure included, keeps each queue a safe one-turn gate and each of its tickets with one caller. |
| TabTurns.EnterJoins | internal/bridge/address.go:149-163 | A caller joins the queue its tab has, or the first of a fresh one-turn queue exactly when it has none; the references go up by one. |
| TabTurns.CallerDecides | internal/bridge/gate.go:195-229 | A caller that wakes or gives up has the tab exactly if it was handed over; one that unlocks has given it back. |
| TabTurns.StepOk | internal/bridge/address.go:223-240 | Every step but a second call while the tab has a queue keeps the books: references count the users of a queue, live queues are distinct and listed while in use. |
| TabTurns.OneReservationPerTab | internal/bridge/address.go:223-240 | In every run whose second calls of a closure, if any, come while the tab has no queue, no two callers ever hold the reservation of one tab id, however often its queue is dropped and made again. |
| TabTurns.RefsCountUsers | internal/bridge/address.go:149-176 | In the same runs the reference count equals the callers between taking and giving back, and a queue exists exactly while there is one. |
| TabTurns.DroppedQueueIsIdle | internal/bridge/address.go:165-176 | In the same runs a queue that leaves the map has no holder and no waiter. |
| TabTurns.SecondCallOkIff | internal/bridge/address.go:165-176 | The closure is not guarded: a second call keeps the books if and only if the tab has no queue at that moment. |
| TabTurns.SecondCallDoublesIff | internal/bridge/address.go:236-239 | From every state of such a run, one more second call can lead to two reservations of the tab, with no further second call, if and only if the tab has a queue at that moment. |
| TabTurns.ReleasingTwiceBreaksIt | internal/bridge/address.go:236-239 | For every tab some run does end with two callers that hold its reservation. |
| CallRouting.GlobalBeforeTab | internal/bridge/bridge.go:44-73 | A call asks for at most one global and one tab turn, the global one first, never the global turn it holds, and only the tab it addresses. Which of them it asks for is `AddressedAsks` and `UnaddressedAsks`. |
| CallRouting.AddressedAsks | internal/bridge/bridge.go:51-64 | A call addressed to a tab asks for the global turn exactly if its action is focus-bound and its context does not hold it, for that tab exactly unless its context reserved it last, and for nothing else. |
| CallRouting.UnaddressedAsks | internal/bridge/bridge.go:48-72 | Every other call asks for the global turn, or for nothing: exactly if it opens a tab of its own while per-tab queues are on, its context holds the browser, or it is an unqueued chat action. |
| CallRouting.RegistryIDIff | internal/bridge/address.go:46-56 | A value addresses a tab exactly if it is a string that starts with t_ and goes on, with nothing but white space around it, and then it addresses that id. |
| CallRouting.AddressedIff | internal/bridge/address.go:64-69 | A call is addressed to a tab exactly if its index parameter is such a string; nothing else addresses one. |
| CallRouting.FocusBoundIff | internal/bridge/address.go:98-124 | The focus-bound actions: the native and trusted ones, the human click, and those that need the tab to be selected. |
| CallRouting.ReservationAsks | internal/bridge/address.go:223-240 | A reservation asks for its turn exactly if the context does not have it, and for no tab by the empty id. |
| CallRouting.IdsStayApart | internal/bridge/address.go:46-56 | Two such ids are read as the same tab exactly if they are equal, whatever white space they come with. |
| CallRouting.OpensOwnTabIff | internal/bridge/address.go:74-86 | Only navigate and new_tab open a tab of their own, when any of four parameters says so. |
| LockOrder.TabsRunIndependently | internal/bridge/address.go:21-25 | In every run in which each call opens a tab of its own or is addressed to one and needs no focus, and no tool reserves the browser: nobody ever holds, wants or goes on to ask for the global turn, and one process waits for another only on a tab that both use. |
| LockOrder.SwitchedOffIsSerial | internal/bridge/address.go:128-133 | In every run with per-tab queues off and no tool reserving a tab, no queue but the global one is ever asked, and the wait-for graph is acyclic. |
| TurnNet.StepRouted | internal/bridge/bridge.go:44-73 | Every step keeps all gates safe and every process asking in the global-then-tab order. |
| TurnNet.AskEnds | internal/bridge/bridge.go:51-64 | A caller that gives up while it still queues fails, asks for nothing more and keeps what it held; one that was handed the turn has it, whether it woke or gave up. |
| TurnOwners.StepTicketed | internal/bridge/bridge.go:44-73 | Every step keeps: each reservation is a ticket its gate counts as taken, each request one that was not given up, and no ticket is in two places. |
| TurnOwners.OneReservationAtATime | internal/bridge/address.go:12-18 | In every interleaving no two processes reserve one tab at the same time, nor the browser unless the policy asked for more than one turn, and no process reserves the same turn twice. |
| TurnNet.WaitingDescends | internal/bridge/address.go:223-240 | Unless the one waited for is itself blocked while holding a tab, waiting leads to a strictly lower (level, ticket) rank. |
| TurnNet.DeadlockNeedsBlockedTabHolder | internal/bridge/bridge.go:44-73 | In every run, any cycle of waiting over the global and all tab gates contains a process that is blocked while it holds a tab. |
| LockOrder.DeadlocksIffCyclic | internal/bridge/address.go:223-240 | For every policy (which turn may be asked for while which is held): some run that obeys it deadlocks if and only if the policy lets different turns be asked for in a circle. |
| LockOrder.DeadlockShowsCycle | internal/bridge/address.go:223-240 | A cycle of waiting processes, in any reachable state of an obedient run, is a circle of asks of the policy. |
| LockOrder.CycleDeadlocks | internal/bridge/address.go:223-240 | For a circle of any length, a run in which each process holds one turn and waits for the next. |
| LockOrder.RankedNeverDeadlocks | internal/bridge/address.go:223-240 | Callers that ask for turns in one fixed order, whatever it is, never deadlock. |
| LockOrder.InvertedPairDeadlocks | internal/bridge/address.go:223-240 | A policy that lets two turns be asked for in either order has a run that deadlocks. |
| LockOrder.DisciplineAvoidsDeadlock | internal/bridge/bridge.go:44-73 | The order of the code, global turn then one tab: if contexts that hold a tab reserve nothing further and call only actions on that tab that need no focus, actions that open a tab of their own, or the active tab while they hold the browser, no run deadlocks. |
| TurnNet.ScreenshotWhileHoldingTabDeadlocks | internal/bridge/bridge.go:51-64 | The rule is needed: a focus-bound call from a context that holds its tab, against another such call, deadlocks. |
| Recency.Oldest | internal/server/routes.go:132-138 | The scan returns a key with the smallest last-use time, and "" only for an empty map. |
| ServerCaches.WorkspaceRegistries.Put | main.go:108-125 | The new registry is remembered as the newest; exactly the oldest are dropped down to the limit; the others keep their entries. |
| ServerCaches.WorkspaceRegistries.Refresh | main.go:131-142 | Succeeds exactly when the registry is still remembered, and restamps only that one. |
| ServerCaches.ServerCache.EvictLocked | internal/server/routes.go:127-145 | The three maps keep the same keys; exactly the least recently used servers go, down to the bound; no bound means no eviction. |
| ServerCaches.ServerCache.ReapIdle | internal/server/routes.go:149-162 | Exactly the entries idle longer than the limit go; a non-positive limit switches it off. |
| ServerCaches.ServerCache.LookUpOrBuild | internal/server/routes.go:78-94 | The half of a request under the lock: a hit stamps the cache and touches no registry, a miss builds, registers and caches a server and evicts from both. |
| ServerCaches.ServerCache.GetOrCreate | internal/server/routes.go:78-102 | With nothing between its halves: a hit answers the cached server and refreshes its registry, a miss a newly built one; both caches move by exactly the transition the run lemmas use. |
| ServerCaches.HitKeeps | internal/server/routes.go:82-99 | A hit keeps the stack property. |
| ServerCaches.MissKeeps | internal/server/routes.go:84-94 | A miss, with both evictions, keeps the stack property when the registries hold as many as the cache. |
| ServerCaches.ReapKeeps | internal/server/routes.go:149-162 | Reaping the smaller cache alone keeps the stack property. |
| ServerCaches.RunsKeepTheStack | internal/server/routes.go:78-162 | In every run in which each hit is refreshed before anything else happens: every cached id is remembered, both caches order ids alike, an id used more recently than a cached one is cached, and both bounds hold. |
| ServerCaches.RefreshNeverMisses | main.go:224-252 | In the same runs, with the bounds 32 and 64 and any idle time, refresh always finds the registry of a cached server. |
| ServerCaches.InclusionIffRegistriesHoldAsMany | main.go:108-142 | Over those runs, a cached server can lose its registry if and only if the cache is unbounded or the registries hold fewer than it. |
| RefreshRaces.MoveKeepsUp | internal/server/routes.go:95-102 | With hits whose refresh comes later: every event keeps each cached id remembered and bounds how many ids are ahead of it in the registries but not in the cache, when the registries hold p + 1 times the cache. |
| RefreshRaces.RunsKeepUp | internal/server/routes.go:78-102 | The same over every run with at most p refreshes in flight. |
| RefreshLosses.TooFewLose | internal/server/routes.go:95-102 | For every smaller number of registries (and a cache of two or more), a run with at most p refreshes in flight that leaves a cached server without its registry. |
| RefreshLosses.LosesIffFewerThanNeeded | main.go:108-142 | With at most p refreshes in flight, some run loses the registry of a cached server if and only if the cache is unbounded or the registries hold fewer than p + 1 times the cache (than one, for a cache of one). |
| RefreshLosses.OneRefreshInFlightIsSafe | main.go:224-252 | With the bounds 32 and 64 a cached server can lose its registry if and only if two or more refreshes may be in flight. |
| ShortestPaths.FindShortestPath | internal/codegraph/storage.go:1034-1141 | Found exactly when some walk from the first source to the first target has at most the limit (6 if not positive) edges; the answer shows a walk of real edges, node by node, and no walk is shorter. Terminates by (unvisited nodes, queue length). |
| ShortestPaths.OutgoingExact | internal/codegraph/storage.go:1083-1112 | The outgoing rows are exactly the edges whose target still has a row. |
| ShortestPaths.Expand | internal/codegraph/storage.go:1119-1137 | Expanding a node visits every unvisited target at one level more with a path that describes a real walk, and changes nothing found before. |
| ShortestPaths.WalkIsCovered | internal/codegraph/storage.go:1058-1140 | Any walk within the limit ends at a node visited no later than its length, unless something shallower is still queued. |
| Reindexing.NodeKeyExact | internal/codegraph/storage.go:518-520 | Two nodes share a key exactly when name and start line agree; the kind does not count. |
| Reindexing.Storage.BuildIndex | internal/codegraph/storage.go:462-478 | The index names, for every stored key of the file, one row that has it. |
| Reindexing.Storage.Upsert | internal/codegraph/storage.go:480-498 | Each new node goes to the row its key had, used once, or to a fresh row, in order; nothing else changes; the index keeps exactly the keys no new node has. |
| Reindexing.Storage.DeleteStale | internal/codegraph/storage.go:500-505 | Exactly the rows still in the index go, with every edge at either end. |
| Reindexing.Storage.ReindexFileData | internal/codegraph/storage.go:460-516 | The whole effect: rows, other files, imports, and edges (those into surviving rows from other files stay, none leaves the file, none dangles). |
| Reindexing.ReplacesIffStoredKeysDistinct | internal/codegraph/storage.go:460-516 | Afterwards the file has exactly the new nodes if and only if its stored rows had distinct keys; the new nodes may repeat keys. |
| Reindexing.SurvivesIff | internal/codegraph/storage.go:480-505 | A stored row survives if and only if some new node has its key, or another stored row hides it from the index. |
| Reindexing.SurvivorKeepsIdAndEdges | internal/codegraph/storage.go:485-505 | A key that is still there keeps the ids of its rows and every edge other files have into them, repeated keys included. |
| Reindexing.RowCountAfter | internal/codegraph/storage.go:460-516 | The exact number of rows afterwards: the new nodes plus one for every stored row beyond the first of its key. |
| Reindexing.UnchangedFileGrows | internal/codegraph/storage.go:460-516 | A file whose nodes repeat keys gains rows every time it is re-indexed with these nodes, by an exact formula. |
| Reindexing.GoStructGrows | internal/codegraph/languages_go.go:52-54 | A Go file with one struct, which yields two nodes on one key, has n + 1 rows after it was indexed n times with these nodes, as happens when other bytes of it change. |
| NodeIndex.FilterExact | internal/codegraph/storage.go:618-644 | A query over rows in id order returns exactly the matching rows, each once, in id order. |
| NodeIndex.IndexAnswersQueryIff | internal/codegraph/engine.go:333-340 | For every non-empty name the index answers exactly what the query would; for the empty name if and only if no named node lacks a qualified name. |
| NodeIndex.FoundByItsNames | internal/codegraph/storage.go:618-644 | The query finds a node by its name and by its qualified name and by nothing else; so does the index for every non-empty name. |
| NodeIndex.StoredNodesAnswerAlike | internal/codegraph/engine.go:140-145 | For nodes as indexing stores them, which fills in missing qualified names, the two agree for every name. |
| NodeIndex.QualifiedNameFilled | internal/codegraph/engine.go:140-145 | A node parsed without a qualified name of its own is stored under its file and name, any other under its own. |
| NodeIndex.BuildIndex | internal/codegraph/engine.go:333-341 | The index lists each node under its names, in id order. |
| NodeIndex.NodeResolver.Find | internal/codegraph/engine.go:348-360 | In any sequence of lookups the answer is the uncached one: from the index, or from the query if the load failed. |
| NodeIndex.NodeResolver.ResolveForScope | internal/codegraph/engine.go:366-393 | Same file first, then same directory, then everywhere with INFERRED; sources never leave their file. |
| NodeIndex.ScopedPrefersNear | internal/codegraph/engine.go:366-393 | The answer is exactly the nearest matches: those in the file, or if there are none those in its directory, or if there are none all of them; in id order, and INFERRED means exactly the last case. |
| NodeIndex.ProductIsRowMajor | internal/codegraph/engine.go:243-261 | Pair i*|T|+j of the product joins source i with target j. |
| NodeIndex.EmitUpTo | internal/codegraph/engine.go:243-261 | For every cap, the capped loops emit exactly the first min(cap, |S|*|T|) pairs of that product. |
| NodeIndex.EmitEdges | internal/codegraph/engine.go:297-299 | One relation yields exactly the first min(64, |S|*|T|) pairs. |
| ConfigMerge.MergeNestedInto | internal/mcpcfg/config.go:577-592 | The map-writing merge, in any key order, is the recursive overlay of objects. |
| ConfigMerge.ApplyLayer | internal/mcpcfg/config.go:550-567 | Applying a layer is that merge with the layer's top-level nulls dropped: every other key of the layer is merged onto the one below or taken as it is, and every other key below stays. |
| ConfigMerge.EmptyLayerChangesNothing | internal/mcpcfg/config.go:550-567 | An empty layer is the identity. |
| ConfigMerge.Idempotent | internal/mcpcfg/config.go:577-592 | Laying the same layer again changes nothing, at every depth. |
| ConfigMerge.PathAfterMerge | internal/mcpcfg/config.go:577-592 | What every path holds afterwards: kept where the layer is silent, merged where both have objects, the layer's own value otherwise. |
| ConfigMerge.AbsorbedIff | internal/mcpcfg/config.go:577-592 | A layer covers another completely if and only if it names all its keys at every object depth. |
| ConfigMerge.AssociatesIff | internal/mcpcfg/config.go:541-592 | Three layers merge alike in both orders if and only if nothing of the lowest shows through a non-object between two objects. |
| ConfigMerge.ReopenedBlockShowsThrough | internal/mcpcfg/config.go:541-592 | Three concrete layers for which the order of merging matters. |
| ConfigMerge.NullKeepsIff | internal/mcpcfg/config.go:550-592 | A null the layer has at a path keeps the value below if and only if it is at the top level or a null is there already; deeper it replaces the value (the comment at lines 536-540 says otherwise). |
| TierCache.StampDecides | internal/mcpcfg/workspace.go:59-72 | Two project files with equal stamps resolve alike; missing and unreadable share one and both mean the base. |
| TierCache.StampTells | internal/mcpcfg/workspace.go:215-250 | Stamps agree exactly for equal contents, and for two tiers neither of which could be read. |
| TierCache.ConcludeOk | internal/mcpcfg/workspace.go:97-141 | A lookup's answer, from a hit or computed, is what uncached resolution of what it read gives, and so is what it stores. |
| TierCache.StepCoherent | internal/mcpcfg/workspace.go:97-191 | Every step of lookups, edits, reloads and invalidations, in any order, keeps all entries and answers coherent. |
| TierCache.AnswersMatchUncached | internal/mcpcfg/workspace.go:97-141 | However lookups interleave with edits and reloads, each answers what resolving the base and file it read, uncached, would give. What that is, is `AnswersMerged` and `AnswersBase`. |
| TierCache.AnswersMerged | internal/mcpcfg/workspace.go:132-140 | In every such run, a lookup that read a file which decodes to a non-empty tier t, on a base b with merge(b, t) = c, answers c. |
| TierCache.AnswersBase | internal/mcpcfg/workspace.go:117-139 | In every other case, no file, an unreadable or undecodable one, an empty tier or a refused merge, it answers the base it read. |
| TierCache.UndisturbedLookup | internal/mcpcfg/workspace.go:97-141 | A lookup with nothing in between answers for the live base and the file as it is now, whatever is cached and whatever else is under way. |
| TierCache.EditsShow | internal/mcpcfg/workspace.go:91-96 | An edit of a workspace file and a reload are what the next lookup reads, for that workspace and no other. |
| TierCache.HitLeavesAll | internal/mcpcfg/workspace.go:110-113 | In every state a lookup that saw a fresh entry answers it and leaves the cache as it was. |
| TierCache.MissStores | internal/mcpcfg/workspace.go:121-167 | One that did not, and has a tier, stores its answer under everything it read; all other entries stay while there is room, and never more than 64 are left. |
| TierCache.MissDrops | internal/mcpcfg/workspace.go:123-131 | One that saw an outdated entry and has no tier any more removes what is cached under its key. |
| TierCache.FreshUntilChanged | internal/mcpcfg/workspace.go:91-96 | An entry that would answer the next lookup goes on to until exactly these: its workspace file or the machine-wide one has other contents, or the configuration is reloaded or reset. |
| TierCache.NeverOlderThanAsked | internal/mcpcfg/config.go:484-503 | A lookup asked after a reload never answers from an older base, even if a stale entry is stored late. |
| TierCache.Cache.For | internal/mcpcfg/workspace.go:97-141 | One undisturbed lookup answers the merge of the tier onto the base if the tier decodes, is not empty and merges, and the base otherwise; a current entry is reused and restamped, a workspace that lost its tier is forgotten, any other outcome is stored under what was read; entries stay coherent and at most 64. |
| TierCache.Cache.PruneTiersLocked | internal/mcpcfg/workspace.go:171-191 | Exactly the idle entries go, then exactly the least recently used, down to 64. |
| TierCache.PrunedTo | internal/mcpcfg/workspace.go:146-191 | What that leaves: at most 64 entries, none unused for more than 30 minutes; one used since is dropped only if 64 used no earlier are left. |
| TierCache.Cache.RememberTier | internal/mcpcfg/workspace.go:159-167 | After an insert the cache holds at most 64 entries, all of them old ones or the new one, and nothing is pruned while they fit. |
| TierCache.NeverOverBound | internal/mcpcfg/workspace.go:97-191 | However lookups, edits and reloads interleave, the cache never holds more than 64 entries, each store pruning as `Cache.RememberTier` is proved to. |
| TierCache.Cache.OldestKey | internal/mcpcfg/workspace.go:179-185 | The scan finds a least recently used key. |
| Ledger.Journal.constructor | internal/youtube/journal.go:63-82 | Opening keeps the stored slots, takes the configured cap and rolls the day. |
| Ledger.Journal.RollDate | internal/youtube/journal.go:86-101 | A new day abandons every claimed slot with one event each and zeroes the counter; the same day recounts. |
| Ledger.Journal.CountOpenUploads | internal/youtube/journal.go:103-111 | Counts exactly today's unreleased uploads. |
| Ledger.Journal.Claim | internal/youtube/journal.go:114-129 | Refused exactly when an upload is asked for, there is a cap and today has that many charged uploads; otherwise a claimed slot of the kind asked for, dated today, is added at the end and the counter is exact. |
| Ledger.ClaimRefusedIff | internal/youtube/journal.go:114-118 | On the ledger before the roll: a claim is refused if and only if it is for an upload, there is a cap, and as many uploads are charged to today. |
| Ledger.ClaimedSlot | internal/youtube/journal.go:119-128 | The slot handed out is last in the ledger, claimed, of the kind asked for, dated today, bound to nothing, and named by the clock and its place. |
| Ledger.FirstUploadsGranted | internal/youtube/journal.go:114-129 | In every run without releases from a new ledger each day gets exactly the first uploads asked for, up to the cap: the next is granted if and only if fewer than the cap were asked for. |
| Ledger.NewDayCloses | internal/youtube/journal.go:92-100 | A new day closes exactly the slots still claimed, with the reason, and zeroes the counter. |
| Ledger.NewDayRecords | internal/youtube/journal.go:92-98 | It appends one event for each slot it closes, in slot order, with its video and id. |
| Ledger.SameDayOnlyRecounts | internal/youtube/journal.go:88-91 | On the same day a roll changes the counter only. |
| Ledger.CompleteEffect | internal/youtube/journal.go:134-159 | The first slot with the id is completed and the page id goes to the field its kind owns, an empty one nowhere; nothing else changes. |
| Ledger.AbandonEffect | internal/youtube/journal.go:134-176 | The same, with the reason noted and one event that carries the slot's video. |
| Ledger.ReleaseEffect | internal/youtube/journal.go:181-193 | The first slot with the id is released, with the reason noted, one event and a recount. |
| Ledger.UnknownIdChangesNothing | internal/youtube/journal.go:149-193 | An id no slot has finishes nothing. |
| Ledger.CountOpenExact | internal/youtube/journal.go:103-111 | The count is the number of uploads dated that day that are not released. |
| Ledger.Journal.Complete | internal/youtube/journal.go:149-159 | Exactly the first slot with the id is completed and bound; an error exactly when there is none. |
| Ledger.Journal.Abandon | internal/youtube/journal.go:164-176 | Exactly the first slot with the id is abandoned, bound and recorded; an error exactly when there is none. |
| Ledger.Journal.Release | internal/youtube/journal.go:181-193 | Exactly the first slot with the id is released and the counter recounted; an error exactly when there is none. |
| Ledger.Journal.SlotForVideo | internal/youtube/journal.go:229-236 | The newest slot bound to that video; none exactly when there is none; never a comment's slot. |
| Ledger.SlotsPersist | internal/youtube/journal.go:86-193 | No step removes a slot or changes its id, kind or day; only a claim adds one. |
| Ledger.StepKeeps | internal/youtube/journal.go:114-147 | Slot ids carry their position, and page identifiers sit in the field their kind owns, after every step. |
| Ledger.SlotIdsNeverRepeat | internal/youtube/journal.go:119-125 | In every run no two slots share an id, whatever the clock reads. |
| Ledger.FinishesExactlyOne | internal/youtube/journal.go:149-193 | Complete, Abandon and Release change the slot with that id and no other. |
| Ledger.StepWithinCapIff | internal/youtube/journal.go:114-193 | A step breaks some day's cap if and only if it completes or abandons a released upload of a day that is full. |
| Ledger.AlwaysWithinIff | internal/youtube/journal.go:114-193 | The cap holds throughout a run, with any clock, if and only if the run never completes or abandons a released upload of a day that is full. |
| Ledger.DailyCapHolds | internal/youtube/journal.go:114-129 | In every such run from a new ledger no day has more charged uploads than the cap. |
| Ledger.ChargedUntilReleased | internal/youtube/journal.go:161-193 | A charged upload stays charged through every step except the release of its own slot. |
| Ledger.RollExactIff | internal/youtube/journal.go:86-101 | A roll leaves the counter right if and only if the day is the same or the new day has no charged upload yet. |
| Ledger.RecountsOnClaimAndRelease | internal/youtube/journal.go:114-193 | Every claim that succeeds and every release that finds its slot leave the counter right, even if the clock went back. |
| Ledger.CounterRestored | internal/youtube/journal.go:86-129 | With a clock that never goes back the counter is today's charged uploads after every roll, every claim and every release that finds its slot, whatever was completed, abandoned or revived before. |
| Ledger.FinishExactIff | internal/youtube/journal.go:149-176 | Completing or abandoning a slot makes a right counter wrong if and only if it revives a released upload of the ledger's own day. |
| Ledger.CounterExactIff | internal/youtube/journal.go:86-193 | With a clock that never goes back the counter is right after every step of a run if and only if the run never revives an upload of the ledger's own day. |
| Ledger.RevivedUploadBreaksTheCap | internal/youtube/journal.go:149-159 | Counterexample: claim, release, claim again, complete the released slot; a cap of one is exceeded. |
| PoolRegistry.Registry.constructor | internal/pooling/registry.go:70-81 | Non-positive settings fall back to the defaults; the registry starts empty. |
| PoolRegistry.Registry.Register | internal/pooling/registry.go:88-106 | Full even after eviction, or id taken: refused and the record untouched; otherwise the record is stored under its own or a minted id. |
| PoolRegistry.Registry.Complete | internal/pooling/registry.go:111-127 | Succeeds exactly when the job is held and not done; stores the result in that job and no other. |
| PoolRegistry.Registry.Cancel | internal/pooling/registry.go:131-140 | Answers whether a job is held under the id, and marks that job and no other as cancelled. What shows afterwards is `PoolReports.CancelledForGood` and `PollsAfterCancel`. |
| PoolRegistry.Registry.StateOf | internal/pooling/registry.go:182-190 | Unknown exactly when not held; cancelled before done before running. |
| PoolRegistry.Registry.EvictLocked | internal/pooling/registry.go:215-235 | Exactly the expired jobs go, running ones by age and done ones by grace, and the count is returned. |
| PoolRegistry.Registry.NewPoolID | internal/pooling/registry.go:259-262 | The id is the name and one more than its counter, which is advanced. |
| PoolRegistry.NextIdIsNew | internal/pooling/registry.go:259-262 | The next id was never minted before, for any name, even if its job is long evicted ("a_1" with counter 2 and "a" with "1_2" do not clash). |
| PoolRegistry.StepOk | internal/pooling/registry.go:88-140 | Every step keeps: jobs within the maximum, every held or finished id minted, done exactly if a result was recorded, and that result. |
| PoolRegistry.IdsAreNeverReissued | internal/pooling/registry.go:88-106 | In every run with minted ids the maximum holds and each registration gets an id no job ever had. |
| PoolRegistry.StepForward | internal/pooling/registry.go:111-140 | A step never brings an id back, never makes it running again, and never changes its result. |
| PoolRegistry.NeverRunsAgain | internal/pooling/registry.go:111-235 | Over any continuation the same, a job is completed at most once, and while held it shows its one result. |
| PoolRegistry.PollsAgree | internal/pooling/registry.go:155-178 | Polls that found the job, whether or not it is evicted before they end: one that sees the done channel closed reports the one result recorded, unless the job was cancelled when the poll arrived, and every poll that ends later reports the same. |
| PoolChosenIds.StepBase | internal/pooling/registry.go:88-140 | With ids chosen by callers as well, every step keeps: jobs within the maximum, and each held job done exactly if a result was recorded for it, and that result. |
| PoolChosenIds.RunsAgainIff | internal/pooling/registry.go:97-104 | An id that does not run starts to run again if and only if a registration with room mints it or finds it free and takes it, with a record that is not cancelled. |
| PoolChosenIds.NeverRunsAgainUnlessReissued | internal/pooling/registry.go:97-104 | Over any continuation an id that is not registered anew goes only forward and keeps its one result. |
| PoolChosenIds.MintReplacesIff | internal/pooling/registry.go:97-104 | A job still held after making room loses its record and result to a minting registration if and only if there is room and its id is the one minted next. |
| PoolChosenIds.CollisionIsReachable | internal/pooling/registry.go:97-104 | On a fresh registry, a job registered as name_1 is replaced by the first job registered for that name. |
| PoolReports.StatusIff | internal/pooling/registry.go:182-252 | Unknown exactly when no job is held under the id, cancelled exactly when the job held was, finished exactly when it is done and was not cancelled, running otherwise. |
| PoolReports.CancelShows | internal/pooling/registry.go:131-140 | A cancel shows at once on the id if a job is held, leaves its result, and changes no other job. |
| PoolReports.CancelledForGood | internal/pooling/registry.go:131-140 | Over any continuation the id is reported cancelled while its job is held, and unknown from then on. |
| PoolReports.CancelledUntilReissued | internal/pooling/registry.go:97-140 | With ids chosen by callers as well, the same over any continuation that places no job under the id anew. |
| PoolReports.PollReports | internal/pooling/registry.go:155-178 | What a poll reports in each case, by whether it found the job, whether that was cancelled, and what ended its wait. |
| PoolReports.PollsAfterCancel | internal/pooling/registry.go:155-178 | After a cancel, a poll that arrives reports cancelled while the job is held, and one that arrived before and times out reports cancelled too, evicted or not. |
| PoolReports.CompleteShows | internal/pooling/registry.go:111-127 | A completed job shows its result and its time, finished unless it was cancelled; the others stay as they are. |
| PoolReports.ResultKeptForGrace | internal/pooling/registry.go:215-235 | A result can be fetched after a sweep if and only if no more than the grace has passed since the job completed, however old it is. |
| PoolReports.RunningKeptForTtl | internal/pooling/registry.go:215-235 | A job that does not complete is still running after a sweep if and only if no more than its time to live has passed since it was registered. |
| PoolReports.RefusedIffFull | internal/pooling/registry.go:88-96 | A registration is refused if and only if the registry is full of jobs none of which has expired. |
| PoolReports.NewcomerSpares | internal/pooling/registry.go:88-96 | Nobody is dropped for a newcomer while the registry is not full, and only expired jobs when it is. |
| PoolReports.Defaults | internal/pooling/registry.go:70-81 | Settings that are not positive become an hour, an hour and 256 jobs; others are taken as they are. |
| PoolWrap.MoveSound | internal/pooling/wrap.go:48-96 | Every move of the inner call, the handler, the drainer or any other user of the registry keeps: the outcome in exactly one place, one id throughout, a stored result equal to the inner one, and no job treated as finished that is neither done nor evicted. |
| PoolWrap.RegisteredRuns | internal/pooling/wrap.go:72-88 | A call that exceeds its window and is not refused goes on as one running job under a new id of its tool. |
| PoolWrap.DeliversOnceUnchanged | internal/pooling/wrap.go:48-96 | In every interleaving: at most one id, a direct answer is the inner outcome, a job of this call that is done holds it unchanged. |
| PoolWrap.KeptIffNeverLost | internal/pooling/wrap.go:72-88 | A finished call kept its outcome (returned or stored) if and only if, during its run, it did not convert while the registry was full with nothing to evict, and its job was not gone when the drainer came to store. |
| PoolWrap.ReceivedIff | internal/pooling/wrap.go:72-116 | The client of a finished call has the outcome, or the id it was stored under, if and only if neither of those happened and the handler did not find its job gone when it fetched what it took for finished. |
| PoolWrap.CrashesIffMisses | internal/pooling/wrap.go:91-96 | The handler ends up reading a missing job if and only if, during the run, the job was gone when it fetched what it took for finished. |
| PoolWrap.MovesAdvance | internal/pooling/wrap.go:48-96 | Each move of the call itself brings it closer to its end, so it makes boundedly many. |
| PoolWrap.NeverStuck | internal/pooling/wrap.go:48-96 | A call that is not finished can always move. |
| PoolWrap.FullRegistryLosesTheOutcome | internal/pooling/wrap.go:74-77 | With a full registry a call that exceeds its window ends refused, with its outcome delivered nowhere. |
| PoolWrap.EvictionCrashesTheHandlerIff | internal/pooling/wrap.go:91-96 | If the registry is swept between registration and look-up, the handler that then runs undisturbed reads a missing job if and only if its own had expired. |
| Aliases.ShortestAlias | internal/terminal/exportcli.go:295-316 | The shortest non-empty prefix that is not "h" and starts no other key, or the whole key when there is none. |
| Aliases.ShortAliasMap | internal/terminal/exportcli.go:274-290 | Exactly the non-empty keys get an alias, each its shortest. |
| Aliases.ShortestIsUnique | internal/terminal/exportcli.go:292-316 | That description determines the alias. |
| Aliases.NoAmbiguity | internal/terminal/exportcli.go:270-290 | No two keys share an alias, and no alias is another key's name. |
| Aliases.PrefixOfAnotherIsFull | internal/terminal/exportcli.go:270-273 | An alias that starts another key is its own full key. |
| Aliases.FullNameIff | internal/terminal/exportcli.go:292-316 | A key keeps its full name if and only if each proper prefix starts another key or is "h". |
| Aliases.PrefixKeysKeepTheirName | internal/terminal/exportcli.go:270-273 | A key that is a prefix of another keeps its full name. |
| Aliases.HelpFlagIff | internal/terminal/exportcli.go:298-300 | "h" is given away if and only if some key is itself "h" (the comment at lines 272-273 says never). |
| Placeholders.IsPlaceholderName | internal/prompts/parser.go:12-28 | True exactly for non-empty names over letters, digits, "-" and "_". |
| Placeholders.Substitute | internal/prompts/parser.go:38-64 | The loop equals rendering the template's segments left to right, each character read once. |
| Placeholders.UnparseParse | internal/prompts/parser.go:38-64 | Nothing of a template is lost or reordered: its segments spell it out again. |
| Placeholders.ShownIff | internal/prompts/parser.go:56-61 | A closed placeholder is replaced exactly if, white space around it aside, it is a known name, by the value given for it or by nothing; every other one stays as written. |
| Placeholders.InnerSplits | internal/prompts/parser.go:55 | Whatever is inside a placeholder is some name, possibly empty, with white space around it, so the two cases are all there are. |
| Placeholders.ParseUnparse | internal/prompts/parser.go:38-64 | Well-formed segments are read back as they were written, so templates and segments correspond one to one. |
| Placeholders.NothingKnownIsIdentity | internal/prompts/parser.go:35-37 | A template with no known placeholder comes out unchanged. |
| Placeholders.RenderIsSplice | internal/prompts/parser.go:57-61 | The result is the template's own segments with values in place of known placeholders; values are never read. |
| Placeholders.StagesCompose | internal/prompts/parser.go:35-37 | Placeholders left by one stage are resolved by a later one as if both had been known at once, for every template in which inserting the values hides no opening and no closing. |
| Placeholders.ValuesWithoutBracesCompose | internal/prompts/parser.go:35-37 | That holds for every template when no inserted value contains "{". |
| Placeholders.LaterStageSeesIff | internal/prompts/parser.go:35-37 | A later stage sees the original segments with values as plain text if and only if inserting them hides no opening or closing. |
| Placeholders.InsertedPlaceholderIsReread | internal/prompts/parser.go:57-58 | A value that is itself a placeholder is taken for one by the next stage. |

## Left out

- BridgeGate.Gate.Draw: tickets are unbounded; the wrap-around of the 64-bit counter is not modelled, nor are the trimming of labels, the `since` times and the Status snapshot built from them.
- GateProtocol.AlwaysSafe: the ceiling and the caller's context are steps that may happen at any time; durations and log calls are left out, and a call's re-reading of the settings is a step of its own.
- LockOrder.DeadlocksIffCyclic: each tab id has one gate for the whole run; that gates come and go is modelled in TabTurns, where `OneReservationPerTab` justifies it. Posting to the bridge, response cleaning and what tools do with a turn are left out.
- TabTurns.OneReservationPerTab: a second call of a closure that still has a queue is excluded, exactly as `SecondCallDoublesIff` says it must be; taking a reference and asking the queue are separate steps, as in the code; that a context stays marked after its release is not part of the statement, which is about reservations.
- ServerCaches.ServerCache.GetOrCreate: one request with nothing between its halves and strictly increasing clock readings; requests that come between a hit's stamp and its refresh are in RefreshRaces. The second lock of getOrCreateHandler and lazily made maps are left out.
- RefreshRaces.MoveKeepsUp: a miss is one event, as it holds the cache's lock throughout; a refresh that lands between its two halves touches only the registries, so it is the same as one that lands right after. An edit re-applied by refresh is only the fact that the registry was found.
- ServerCaches.WorkspaceRegistries.Put: logical ids are taken to be non-empty, as the eviction scan uses the empty one for "none yet".
- ShortestPaths.FindShortestPath: the two name look-ups are inputs, queries succeed, and paths of rows are nodes with name, path and line.
- Reindexing.Storage.ReindexFileData: statements succeed, so rollback is left out; cascade on delete is taken from the schema (internal/codegraph/storage.go:219-239); columns that no statement here reads are folded into the content, and the search index is left out.
- NodeIndex.NodeResolver.ResolveForScope: the directory of a path is a function given as input; a failing per-name query is left out.
- NodeIndex.EmitEdges: an edge is its two ends; relation, metadata and confidence are copied along in the code.
- ConfigMerge.ApplyLayer: numbers, strings, booleans and arrays are one kind of value, since the merge treats them alike; decoding into the configuration struct and port coercion are left out.
- TierCache.AnswersMatchUncached: which entries pruning keeps is left open within the bound, since a hit does not restamp its entry in the machine; stamps are the bytes they are computed from, so collisions do not exist; a published base is never written; decoding and merging are parameters that may refuse.
- Ledger.Journal.Claim: saving succeeds and only one process writes; dates and stamps are inputs, dates ordered as numbers; NoteUnrecorded, the listing of today's slots and the file itself are left out.
- Ledger.DailyCapHolds: the run must not complete or abandon a released upload of a full day; by `AlwaysWithinIff` nothing weaker keeps the cap throughout.
- PoolRegistry.Registry.Register: a section reads the clock once; the code reads it again for the creation time. List and the timer of a long poll are left out.
- PoolRegistry.IdsAreNeverReissued: runs register with minted ids only; what runs with ids chosen by callers keep is in PoolChosenIds.
- PoolWrap.MoveSound: other users of the registry register with minted ids too, as every caller in the program does, and only drainers complete jobs.
- PoolWrap.DeliversOnceUnchanged: an outcome is what the client gets, with an inner error or panic already wrapped; the switch that leaves a tool unpooled and the running payload's text are left out.
- Aliases.ShortestAlias: a character stands for a byte, and so do the lengths.
- Placeholders.Substitute: texts are sequences of characters rather than bytes; both agree on valid UTF-8, since every delimiter is ASCII.
- HTTP, the browser, page automation, SQLite itself, parsers of source languages, shell and file policy, and rendering are external effects or tables with nothing to prove about runs.
- CollaborationRegistry, ToolRegistry, the shared store and the diagnostics ring are simple registries that would only add easy members.
