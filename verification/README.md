# Verification of the platform's ledgers, canonical form and workflow graphs

A Dafny model of the parts of the platform that everything else trusts: who may act on a run, how often a
capability is called and what it may cost, what a case's event chain proves, which evidence a fact rests on,
how a case is decided, how events leave the outbox, what one digest stands for, and when a workflow graph is
acyclic. `dafny verify dfyconfig.toml` checks all of it.

## How it is built

| files | content |
|---|---|
| `Prelude`, `CodeUnits`, `Json`, `JsonParser`, `JsonText` | carriers, strings as UTF-16 code units, JSON values, the `JSON.stringify` text, a parser that inverts it, and what pins that text |
| `CanonicalJson`, `KeyOrder`, `RustCanonical`, `IndexKeys` | the canonical form and digests in TypeScript, the two key orders, and the compiler's form in Rust |
| `Graph`, `GraphCounts`, `Starvation`, `Kahn`, `GraphDiagnostics`, `AttachAgent` | workflow graphs, which nodes a queue over counters can never reach, the topological order and the cycle diagnostic, the graph diagnostics together, and the insert-after rewrite |
| `RunLedger`, `RunStore`, `RunTheorems`, `RunLeases`, `RunWitnesses` | runs with leases, fences, retries and cancellation |
| `Gateway`, `GatewayStore`, `GatewayTheorems`, `GatewayAnswers`, `GatewayBudget` | invocation receipts, what a repeated invocation is answered, and budgets |
| `Outbox`, `OutboxStore`, `OutboxRecovery` | the relay's claim, publish, mark protocol and its recovery from crashes |
| `EventChain` | event envelopes, the ledger verifier, tamper evidence |
| `CaseCommands`, `CaseLedger`, `CaseEvents`, `CaseStore` | the case store's commands and transactions, and the columns they write |
| `CaseChain`, `CaseOutbox`, `CaseReplay`, `CaseDecisions`, `CaseGuards`, `CaseProvenance` | what holds in every reachable state of the case store, and what each command asks for |
| `CaseWitnesses`, `CaseWithoutScan` | runs of the case store that end in a surprise, and one from evidence to an approved case |
| `Reductions` | sort, deduplicate and vote |

Each stateful component has the same three layers. A datatype of steps with a function (`RunLedger.Apply`,
`Gateway.Apply`, `Outbox.Apply`, `CaseLedger.Transact`) says what one statement or transaction does. A class
holds the same state in fields and carries out each operation statement by statement; every method is
proved to be its step. The theorems speak about behaviors: sequences of steps of any length in which any
number of workers, handlers, relays and clients interleave, crash between any two steps, and act late.
The run results whose lemmas ask for `Honest` assume in addition what the code guarantees: a worker presents only
fences that a claim handed out, however old, and closes a run only with a final status.

Hashes are parameters. No result assumes that one is injective: a result that depends on it names the
colliding pair as its alternative (`Collision`, `EventCollision`, `SomeCollision`) or as its condition
(`CollisionFree`). Grants and envelopes are records that cannot be forged.

## What the code does that its comments or its readers might not expect

- `packages/contracts/src/index.ts:560-566` says that UTF-16 code-unit order agrees with UTF-8 byte order for every
  code point. `KeyOrder.OrdersAgree` gives the exact condition and `KeyOrder.SwappedWitness` a pair for which it
  fails. Integer-like keys are enumerated out of byte order as well (`RustCanonical.IndexKeysDisagree`);
  `RustCanonical.FormsAgree` says for every value whether the two canonical forms are equal: exactly when no two keys
  of an object are listed differently and every number is written as JavaScript writes it, which a whole float is not
  (`RustCanonical.WholeFloatDisagrees`).
- A worker lost on a run's last attempt leaves the run running until someone cancels it: no claim, sweep or retry
  applies to it (`RunTheorems.StuckExactly`, `RunTheorems.StuckForever`; reached in `RunWitnesses.LastAttemptLost`).
  With a positive attempt limit the sweep for exhausted runs never finds one (`RunTheorems.ExhaustedSweepIdle`).
- The cost budget is checked before a call and its cost added after it, so it can be passed
  (`GatewayTheorems.CostLimitCanBePassed`). `GatewayTheorems.CostBound` says by how much, and
  `GatewayBudget.HeadroomExactly` what a reservation would have to check, wherever the calls in flight stand.
- The gateway checks the fence before it reserves, and a run can be taken over in between (`RunWitnesses.FenceWindow`,
  `RunWitnesses.AdmittedThenSuperseded`).
- The insert-after rewrite does not look for edges that already name the new node; such a dangling edge comes alive
  (`AttachAgent.DanglingEdgeComesAlive`). `AttachAgent.InsertAfterKeepsMeaning` says exactly when that matters.
- The cycle diagnostic alone is not exact when ids repeat or are empty. `Kahn.GraphCycleDiagnostic` says for any nodes
  and edges when it is raised: exactly when an id is empty, a node that an edge enters is listed twice, or a non-empty
  set of nodes starves, each of them entered by more edges from the set than the repeated listing of nodes that no
  edge enters makes up for. So it is raised without a cycle exactly on acyclic graphs with one of the first two, and
  misses a cycle exactly when there is none of the three, which takes a node that no edge enters listed twice
  (`Starvation.DeadlockedCyclic`; both happen in `GraphDiagnostics.RepeatedIdHidesCycle` and
  `GraphDiagnostics.EmptyIdRaisesCycle`). The id diagnostic is raised then, and together they are exact
  (`GraphDiagnostics.AnalyzeGraph`).
- The ledger verifier re-renders timestamps before it digests them. A command that supplies a time in another form
  than the store renders, such as 2026-01-01T00:00:00Z, is accepted, and from then on the case's ledger does not
  verify (`CaseChain.VerifierMatchesWriter`; reached in `CaseWitnesses.LateTimeAccepted` and
  `CaseWitnesses.WholeSecondAccepted`). The verifier reads at most a thousand events; for a longer case the digest it
  reports is not the head's.
- A case write keeps its command id across the attempts of a run but changes its idempotency key, so once it is
  accepted in one attempt it is refused in every other one (`CaseReplay.RetriedWriteRefused`; reached in
  `CaseWitnesses.RetryRefused`).
- With the evidence scan required, nothing in the store ever marks evidence as scanned clean, so no evidence is ever
  linked (`CaseProvenance.ScanFailsClosed`). Without it evidence is linked, becomes a fact and carries an approval
  (`CaseWithoutScan.DecidedWithoutScan`).

## Model

| member | source | states |
|---|---|---|
| `JsonParser.ReadPrint` | packages/contracts/src/index.ts:584-586 | Reading the text of a value followed by any delimiter gives back the value's defined part and leaves the rest, for every nesting, escape and number token. |
| `JsonParser.ParsePrint` | packages/contracts/src/index.ts:584-586 | Parsing what was printed gives the value without what does not print. |
| `JsonParser.PrintInjective` | packages/contracts/src/index.ts:584-586 | Two values print alike exactly when they read back alike. |
| `JsonText.ReadsEscapes` | packages/contracts/src/index.ts:584-586 | The reader takes each escape of section 7 of RFC 8259 that a text can hold as the character it stands for. |
| `JsonText.ShortestUnit` | packages/contracts/src/index.ts:584-586 | Of the texts without control characters and lone surrogates that read as one unit, its escape is the shortest and the only one so short. |
| `JsonText.EscapeShortest` | packages/contracts/src/index.ts:584-586 | Of all such string bodies that read back as a string, the printed one is the shortest, with surrogate pairs as they stand, and the only one so short. |
| `JsonText.EscapeReads` | packages/contracts/src/index.ts:584-586 | The printed body is such a body. |
| `JsonText.TokensExactly` | packages/contracts/src/index.ts:584-586 | Number tokens are made of the characters of section 6 of RFC 8259 and start with a digit or a minus sign. |
| `JsonText.PrintForms` | packages/contracts/src/index.ts:584-586 | Values print as null, true, false, their token, a quoted body, or their parts with commas between them inside brackets, undefined members skipped. |
| `CanonicalJson.CanonicalTextInjective` | packages/contracts/src/index.ts:571-586 | Two values have one canonical text exactly when they are equal up to member order, undefined members and undefined array items. |
| `CanonicalJson.DigestSeparates` | packages/contracts/src/index.ts:588-590 | Two values have one digest exactly when they are the same in that sense or the hash collides on their texts. |
| `CanonicalJson.VerifyExactly` | packages/contracts/src/index.ts:592-595 | A plan verifies exactly when its digest member is the hash of the canonical text of its members but the digest and the id. |
| `CanonicalJson.PlanDigestBinds` | packages/contracts/src/index.ts:592-595 | When one of two plans that claim one digest verifies, the other verifies exactly when their content is the same or collides. |
| `CanonicalJson.OwnKeyOrderMembers` | packages/contracts/src/index.ts:574-579 | JavaScript's own-key order, integer keys first, lists exactly the members it is given. |
| `KeyOrder.Utf8Octets` | crates/harness-compiler/src/main.rs:75-77 | A code point has the octets of section 3 of RFC 3629: their number, their marks, and the number their free bits spell. |
| `KeyOrder.Utf16Units` | packages/contracts/src/index.ts:567-569 | It is one code unit, or the surrogate pair of section 2.1 of RFC 2781. |
| `KeyOrder.Utf8Order` | crates/harness-compiler/src/main.rs:75-77 | The byte order a `BTreeMap` sorts keys by is code point order. |
| `KeyOrder.Utf16Order` | packages/contracts/src/index.ts:567-569 | Code-unit order is code point order except on swapped strings, where it is the reverse. |
| `KeyOrder.OrdersAgree` | packages/contracts/src/index.ts:560-569 | The two key orders agree on a pair of strings exactly when it is not swapped: its first difference is not a supplementary code point against one from U+E000 to U+FFFF. |
| `KeyOrder.BmpNeverSwapped` | packages/contracts/src/index.ts:560-569 | Strings of the basic multilingual plane are never swapped. |
| `KeyOrder.SwappedWitness` | packages/contracts/src/index.ts:561-562 | U+10000 and U+E000 come in opposite orders, against the comment. |
| `KeyOrder.KeyOrdersAgree` | packages/contracts/src/index.ts:577-577 | The same exact condition on well-formed JavaScript strings, and no two of them share a byte form. |
| `RustCanonical.SortsAgree` | crates/harness-compiler/src/main.rs:75-77 | The two forms order an object's members alike exactly when no two of its keys are swapped. |
| `RustCanonical.NamedAlike` | packages/contracts/src/index.ts:574-579 | Between keys that are not integer-like, JavaScript enumerates a pair as its bytes sort exactly when it is not swapped. |
| `RustCanonical.OwnKeyOrderEnumerated` | packages/contracts/src/index.ts:574-579 | A canonical object enumerates integer-like keys first, by value, and then the others by code unit. |
| `IndexKeys.IndexKeyExactly` | packages/contracts/src/index.ts:574-579 | A key is enumerated as an index exactly when it is the decimal text of a number up to 2^32 - 2. |
| `IndexKeys.EnumerationExactly` | packages/contracts/src/index.ts:574-579 | Such keys come by number and before all others, which come by code unit. |
| `RustCanonical.ListingsAgree` | crates/harness-compiler/src/main.rs:75-77 | The two languages list one object's members alike exactly when every two of its keys enumerate as their bytes sort. |
| `RustCanonical.FormsAgree` | crates/harness-compiler/src/main.rs:73-81 | On every value both languages have, the compiler's form and the TypeScript form are equal exactly when in each object every two keys enumerate as their bytes sort and JavaScript writes every number as the compiler wrote it. |
| `RustCanonical.TextsAgree` | crates/harness-compiler/src/main.rs:83-85 | The two texts that are hashed are equal under the same exact condition. |
| `RustCanonical.WholeFloatDisagrees` | crates/harness-compiler/src/main.rs:83-85 | The number 1.0, which JavaScript writes as 1, gives two different texts. |
| `RustCanonical.IndexKeysDisagree` | crates/harness-compiler/src/main.rs:73-81 | The keys 9 and 10 are not swapped, and yet the forms differ. |
| `Kahn.CountEdges` | apps/control-api/src/authoring.ts:56-62 | The counts and successor lists are those of the edges between existing nodes, parallel edges and self-loops included. |
| `Kahn.Release` | apps/control-api/src/authoring.ts:69-72 | Counts the targets down edge by edge and queues each one when its count is zero. |
| `Kahn.ReleasedCounts` | apps/control-api/src/authoring.ts:69-70 | Each count drops by the number of edges to the node. |
| `Kahn.ReleasedCrosses` | apps/control-api/src/authoring.ts:69-72 | Exactly the nodes whose count reaches zero are queued, once each. |
| `Kahn.ProgressKept` | apps/control-api/src/authoring.ts:65-73 | For any nodes, one turn of the loop keeps every count at the node's edges less how often finished nodes counted it down, the queue and order holding exactly the nodes whose count is down, each as often as its share, and every ordered node counted down by those before it. |
| `Kahn.DrainStops` | apps/control-api/src/authoring.ts:66-67 | An empty id in the queue ends the order with what was queued before it. |
| `Kahn.OrderExactly` | apps/control-api/src/authoring.ts:55-75 | For any nodes and edges, no starving node is ordered and nothing more often than its share; unless the queue reaches an empty id, every node that does not starve is ordered, one that no edge enters as often as it is listed and any other once. |
| `Kahn.TopologicalOrder` | apps/control-api/src/authoring.ts:55-75 | The loop computes that order, for any nodes; with an empty id that no edge enters it is the other such nodes listed before it; for unique non-empty ids it has no duplicates, puts every live edge's source first, and holds exactly the nodes that no cycle leads to. |
| `Starvation.LeftOutBlocked` | apps/control-api/src/authoring.ts:65-74 | A node of a set that feeds all its nodes itself is reached from a cycle. |
| `Starvation.StarvedExactlyBlocked` | apps/control-api/src/authoring.ts:65-74 | Unless a node that no edge enters is listed twice, the nodes that starve are exactly those a cycle leads to. |
| `Starvation.CyclicBlocks` | apps/control-api/src/authoring.ts:55-75 | The live graph has a cycle exactly when a cycle leads to some node. |
| `Starvation.DeadlockedCyclic` | apps/control-api/src/authoring.ts:65-74 | Nodes starve only where there is a cycle, and wherever there is one unless a node that no edge enters is listed twice. |
| `Kahn.OrderShortExactly` | apps/control-api/src/authoring.ts:160-161 | For any nodes and edges, the order's length is wrong exactly when an id is empty, a node that an edge enters is listed twice, or nodes starve. |
| `Kahn.GraphCycleDiagnostic` | apps/control-api/src/authoring.ts:160-161 | Raised exactly under that condition on the nodes and edges; the exact condition under which that is the same as the graph having a cycle, and that it always is for unique non-empty ids. |
| `GraphDiagnostics.AnalyzeGraph` | apps/control-api/src/authoring.ts:140-161 | For any nodes and edges, the id, reference, self-reference and cycle diagnostics together find nothing exactly when ids are unique and non-empty, every edge joins two nodes, and the graph is acyclic. |
| `GraphDiagnostics.RepeatedIdHidesCycle` | apps/control-api/src/authoring.ts:63-73 | The cycle diagnostic alone misses a cycle behind a source that is listed twice. |
| `GraphDiagnostics.EmptyIdRaisesCycle` | apps/control-api/src/authoring.ts:66-67 | And it is raised on a graph without edges whose one id is empty. |
| `AttachAgent.MoveOutgoing` | apps/control-api/src/authoring-agents.ts:55-56 | Exactly the edge objects that left the selected node leave the new one, changed in place. |
| `AttachAgent.RedirectEdges` | apps/control-api/src/authoring-agents.ts:55-57 | The edge list is the old one with the selected node's edges redirected, in order, and one edge from it to the new node appended. |
| `AttachAgent.ApplyAgent` | apps/control-api/src/authoring-agents.ts:39-58 | Refuses, naming the first reason, exactly when the node is missing, protected or the id unusable, and then changes no edge; otherwise replaces the node in place or inserts the new one behind it with the edges redirected. |
| `AttachAgent.RewriteRewires` | apps/control-api/src/authoring-agents.ts:53-58 | For a fresh id and any edges, the live graph is rewired: the selected node's edges leave from the new node, and edges that already name the new id come alive. |
| `AttachAgent.ReachabilityExactly` | apps/control-api/src/authoring-agents.ts:53-58 | An old node reaches another exactly as before or through the new node. |
| `AttachAgent.ReachabilityKept` | apps/control-api/src/authoring-agents.ts:53-58 | Reachability between old nodes is kept exactly when every node that feeds the new one already reached every node it feeds. |
| `AttachAgent.AttachedReaches` | apps/control-api/src/authoring-agents.ts:53-58 | The new node reaches exactly what the nodes it feeds lead to. |
| `AttachAgent.CyclicExactly` | apps/control-api/src/authoring-agents.ts:53-58 | The new graph has a cycle exactly when the old one had, an edge loops at the new node, or a node it feeds leads back to one that feeds it. |
| `AttachAgent.InsertAfterKeepsMeaning` | apps/control-api/src/authoring-agents.ts:43-58 | For any id no node has and any edges: the exact conditions, in terms of the old workflow, under which reachability between old nodes is kept and under which the new workflow has a cycle. |
| `AttachAgent.FreshInsertKeepsMeaning` | apps/control-api/src/authoring-agents.ts:43-58 | When no edge names the new id, both conditions hold and ids stay unique and non-empty. |
| `AttachAgent.DanglingEdgeComesAlive` | apps/control-api/src/authoring-agents.ts:44-44 | An edge that already names the new id connects two old nodes. |
| `RunStore.Store.CreateRun` | packages/persistence/src/index.ts:151-168 | Inserts a new row with the table's defaults, or returns the run of the same key and digest, or reports a conflict, which means the key is taken by another digest. |
| `RunStore.Store.ClaimRun` | packages/persistence/src/index.ts:189-231 | Takes the oldest run that is not locked and waits available, or runs with its lease run out, uncancelled and with attempts left, and writes exactly the lease, the next epoch and the next attempt; none exactly when there is no such run. |
| `RunStore.Store.RenewLease` | packages/persistence/src/index.ts:233-246 | Moves the lease to its seconds from now exactly when worker and epoch are those of the running row. |
| `RunStore.Store.ScheduleRunRetry` | packages/persistence/src/index.ts:254-267 | Sets the run back until its backoff from now, without a lease, exactly when worker and epoch are those of the running row and attempts are left. |
| `RunStore.Store.FailExhaustedRuns` | packages/persistence/src/index.ts:270-279 | Fails every queued or retrying row without attempts, and says how many. |
| `RunStore.Store.RequestRunCancellation` | packages/persistence/src/index.ts:295-339 | Marks a running run and moves its fence, cancels a waiting one, and reports which. |
| `RunStore.Store.CompleteCancelledRun` | packages/persistence/src/index.ts:350-363 | Closes exactly a running run that is marked for cancellation. |
| `RunStore.Store.FinalizeAbandonedCancellations` | packages/persistence/src/index.ts:372-383 | Closes every marked run whose lease expired, and says how many. |
| `RunStore.Store.UpdateRunNode` | packages/persistence/src/index.ts:403-415 | Moves the current node exactly when the fence holds. |
| `RunStore.Store.BindRunTrace` | packages/persistence/src/index.ts:417-454 | Binds the first trace exactly when the fence holds on this attempt. |
| `RunStore.Store.CompleteRun` | packages/persistence/src/index.ts:456-484 | Closes the run exactly when the fence holds. |
| `RunStore.Store.AppendEvent` | packages/persistence/src/index.ts:486-545 | Appends an event once per key and returns the number the key has. |
| `RunStore.Store.HandleFailure` | apps/runtime-worker/src/worker.ts:250-299 | Retries, records or does neither: a retry exactly when the fence holds, the failure is transient and attempts are left, a failed or denied run otherwise, and nothing without the fence. |
| `RunStore.RetryableExactly` | apps/runtime-worker/src/worker.ts:65-68 | A failure is retried unless its code contains one of four words or starts with one of two. |
| `RunStore.BackoffMs` | apps/runtime-worker/src/worker.ts:70-72 | The backoff is positive and at most the maximum. |
| `RunStore.BackoffDoubles` | apps/runtime-worker/src/worker.ts:70-72 | The first delay is the base, and each further attempt doubles it up to the maximum. |
| `RunTheorems.FencedExactly` | packages/persistence/src/index.ts:189-267 | A fence passes the fenced updates and the live epoch check exactly until the run is next claimed, retried, cancelled or closed, however late it is presented. |
| `RunTheorems.GrantedExactly` | apps/control-api/src/envelope-broker.ts:56-67 | The broker, the journal and the gateway accept a claim's grant exactly as long as its fence holds. |
| `RunTheorems.FencesIncrease` | packages/persistence/src/index.ts:212-231 | Later claims of a run hand out larger epochs, so no fence is handed out twice. |
| `RunTheorems.AcceptedExactly` | packages/persistence/src/index.ts:350-454 | A step that reports no match leaves the row alone, and what a cancellation's completion and a trace binding ask of it. |
| `RunTheorems.GuardsExactly` | apps/control-api/src/envelope-broker.ts:56-67 | Broker, journal and gateway let exactly those through whose run, attempt, worker, plan and epoch are those of the live row, and name the first that is not. |
| `RunLeases.ClaimRespected` | packages/persistence/src/index.ts:194-220 | After a claim no other goes through while its lease lasts, whatever sweeps, other runs and stale workers do; at every later instant one does while attempts are left. |
| `RunLeases.RenewalRespected` | packages/persistence/src/index.ts:233-246 | The same from a renewal on, for the seconds it asks for. |
| `RunLeases.BackoffRespected` | packages/persistence/src/index.ts:254-267 | A scheduled retry is not claimed before its backoff has passed, and can be at every instant from then on. |
| `RunLeases.NewRunFree` | packages/persistence/src/index.ts:189-231 | A new run can be claimed at every instant until somebody does or it is cancelled. |
| `RunLeases.CancelledNotTaken` | packages/persistence/src/index.ts:201-202 | Once marked for cancellation a run is never claimed again. |
| `RunTheorems.InvAlways` | packages/persistence/src/index.ts:151-484 | In every reachable state a run has a lease exactly while running, attempts within the limit, an epoch equal to its attempts unless it was cancelled, and a completion time exactly when final. |
| `RunTheorems.CancellationWins` | packages/persistence/src/index.ts:295-383 | After an accepted cancellation a run is running or cancelled, and only cancellation steps are accepted on it. |
| `RunTheorems.FinalIsFinal` | packages/persistence/src/index.ts:189-484 | From a final status none of the columns modelled here, which leave out the call and cost counters, changes but the run's event list, which only grows. |
| `RunTheorems.EpochCounts` | packages/persistence/src/index.ts:189-231 | The attempt is the number of claims and the epoch the number of claims and accepted cancellations. |
| `RunTheorems.MeasureDrops` | packages/persistence/src/index.ts:189-383 | Three times the attempts left plus a status rank drops on every claim and status change and changes on no other step. |
| `RunTheorems.RunsSettle` | packages/persistence/src/index.ts:189-383 | So a run is claimed or changes status a bounded number of times in any behavior. |
| `RunTheorems.StuckExactly` | packages/persistence/src/index.ts:189-279 | With its lease and backoff expired, an open run can be moved on by a dispatcher exactly when it is not running, uncancelled, on its last attempt. |
| `RunTheorems.StuckForever` | packages/persistence/src/index.ts:189-279 | Such a run keeps its row for ever unless its own worker or a cancellation comes. |
| `RunTheorems.ExhaustedSweepIdle` | packages/persistence/src/index.ts:270-279 | With a positive attempt limit no reachable run is exhausted while queued or retrying. |
| `RunWitnesses.LastAttemptLost` | packages/persistence/src/index.ts:189-279 | Three claims whose workers vanish lead to such a run, with everything due and no dispatcher step enabled. |
| `RunWitnesses.FenceWindow` | apps/capability-gateway/src/app.ts:233-276 | A call whose fence was checked starts under a live fence exactly when nothing superseded the run between the check and the reservation. |
| `RunWitnesses.AdmittedThenSuperseded` | apps/capability-gateway/src/app.ts:233-276 | A behavior in which the run is taken over in between. |
| `RunTheorems.KeysStayUnique` | packages/persistence/src/index.ts:151-168 | No two runs of a tenant share an idempotency key. |
| `RunTheorems.CreationReplays` | packages/persistence/src/index.ts:151-168 | A key names the run first created for it, with its request digest, for ever. |
| `GatewayStore.Store.ReserveGatewayReceipt` | packages/persistence/src/index.ts:669-722 | Claims the invocation and charges the call in one step, or changes nothing and says why. |
| `GatewayStore.Store.CompleteGatewayReceipt` | packages/persistence/src/index.ts:724-730 | Stores the result on the receipt. |
| `GatewayStore.Store.AbandonGatewayReceipt` | packages/persistence/src/index.ts:732-737 | Deletes the receipt only while it has no result. |
| `GatewayStore.Store.RecordCapabilityCost` | packages/persistence/src/index.ts:842-853 | Adds the cost, or marks the total incomplete when there is none. |
| `GatewayStore.Store.Invoke` | apps/capability-gateway/src/app.ts:274-382 | One invocation from reservation to reply: the stored result for a repeated request, in progress while there is none, a conflict for another run or digest, a denial on a spent budget, and otherwise which receipt, counters and answer each outcome of the provider and each failing write leaves. |
| `GatewayTheorems.InvAlways` | apps/capability-gateway/src/app.ts:274-382 | In every interleaving at most one handler holds an invocation, and its receipt is there while it may still settle. |
| `GatewayTheorems.AtMostOneSuccess` | apps/capability-gateway/src/app.ts:274-382 | An invocation id gets at most one provider success in any interleaving. |
| `GatewayTheorems.SuccessIsFinal` | apps/capability-gateway/src/app.ts:274-382 | After it, the receipt is always there; the same request gets that result or is told it is in progress, any other is a conflict. |
| `GatewayAnswers.StoredResultAnswers` | apps/capability-gateway/src/app.ts:298-302 | Once a result is stored, every later invocation with the request is answered with it and any other with that id with a conflict, whatever handlers do in between. |
| `GatewayAnswers.SuccessAnswers` | apps/capability-gateway/src/app.ts:298-302 | From a provider's success on, the request is answered with that result or told it is in progress, never with another. |
| `GatewayAnswers.FailedWrites` | apps/capability-gateway/src/app.ts:345-365 | A crash or a write that fails after the reservation leaves every table as it was. |
| `GatewayTheorems.StoredResultStays` | packages/persistence/src/index.ts:724-737 | A receipt with a result never changes again. |
| `GatewayTheorems.CallsConserved` | packages/persistence/src/index.ts:693-737 | A run's capability calls are its live receipts plus its abandoned reservations. |
| `GatewayTheorems.BudgetsHold` | packages/persistence/src/index.ts:693-722 | Calls and model calls stay within the plan's limits, model calls within calls. |
| `GatewayTheorems.CostIsSum` | packages/persistence/src/index.ts:842-853 | The recorded cost is the sum of the reported costs, and is complete exactly when none was missing. |
| `GatewayTheorems.CostBound` | packages/persistence/src/index.ts:693-722 | With calls of at most c and at most k in flight at a reservation, cost plus c per call in flight never exceeds the limit by more than c times k. |
| `GatewayBudget.HeadroomKeepsLimit` | packages/persistence/src/index.ts:702-713 | If every reservation of a run has room for one more call of cost c besides those in flight, cost plus c per call in flight stays within the limit in every state. |
| `GatewayBudget.RoomKeepsLimit` | packages/persistence/src/index.ts:702-713 | If every reservation of a run fits with what the calls in flight can still cost, each counted by where it stands, cost and what they can still cost never exceed the limit. |
| `GatewayBudget.HeadroomExactly` | packages/persistence/src/index.ts:702-713 | Wherever the earlier calls stand, no way of finishing the calls in flight passes the limit exactly when cost, the new call's c, c for each call at its provider and the known cost of each one after it fit into the limit; with all of them at their providers that is the room above. |
| `GatewayBudget.PassedWithoutHeadroom` | packages/persistence/src/index.ts:702-713 | A behavior that ends in a reservation that does not fit so has a continuation past the limit. |
| `GatewayTheorems.CostLimitCanBePassed` | packages/persistence/src/index.ts:693-722 | A behavior in which the recorded cost passes the plan's limit. |
| `OutboxStore.ClaimTimeout` | packages/case-store/src/outbox-relay.ts:75-75 | The timeout is the whole seconds that cover what was asked for, at least five, and 300 by default. |
| `OutboxStore.BatchSize` | packages/case-store/src/outbox-relay.ts:74-74 | A batch size in 1 to 500 is used as asked, 100 by default, and any other is brought into the range. |
| `OutboxStore.Store.ClaimBatch` | packages/case-store/src/outbox-relay.ts:84-118 | Claims the oldest rows that are unpublished and unclaimed or claimed longer ago than the timeout, as many as the batch holds, and stamps exactly those. |
| `OutboxStore.Store.MarkPublished` | packages/case-store/src/outbox-relay.ts:129-133 | Publishes exactly the claimed rows that still carry the claim. |
| `OutboxStore.Store.ReleaseClaim` | packages/case-store/src/outbox-relay.ts:136-140 | Frees exactly the rows that still carry the claim. |
| `OutboxStore.Store.PurgePublished` | packages/case-store/src/outbox-relay.ts:150-162 | Deletes exactly the rows published longer ago than the retention, and says how many. |
| `OutboxStore.Store.DrainTable` | packages/case-store/src/outbox-relay.ts:79-143 | One pass: a batch that is not full holds exactly the unpublished rows no live claim holds; they end up published when the sink takes all of them and the mark goes through, unclaimed otherwise, each one attempt dearer; all other rows unchanged. |
| `Outbox.InvAlways` | packages/case-store/src/outbox-relay.ts:69-162 | In every interleaving with crashes a published row was delivered, and a claim names the one relay that may mark it. |
| `Outbox.NeverLost` | packages/case-store/src/outbox-relay.ts:69-162 | Every inserted row is unpublished or was accepted by the sink, and the purge has only deleted rows the sink accepted. |
| `Outbox.DeliveriesBounded` | packages/case-store/src/outbox-relay.ts:99-133 | Deliveries of a row, and the relays that may still deliver it, never exceed its publish attempts. |
| `Outbox.OvertakenCannotTouch` | packages/case-store/src/outbox-relay.ts:129-140 | A relay whose claim was taken over can neither mark nor release the row. |
| `Outbox.PublishedStays` | packages/case-store/src/outbox-relay.ts:92-105 | A published row is never claimed or changed again until it is purged. |
| `OutboxRecovery.ClaimExactly` | packages/case-store/src/outbox-relay.ts:84-101 | Rows are claimed under an unused id exactly when each is unpublished and unclaimed or claimed longer ago than the timeout; otherwise nothing changes. |
| `OutboxRecovery.FailedWrites` | packages/case-store/src/outbox-relay.ts:127-142 | A crash, or a mark or release that fails, leaves the rows as they were, and a failed mark goes on to the release. |
| `OutboxRecovery.ClaimRespected` | packages/case-store/src/outbox-relay.ts:92-94 | While a row carries a relay's claim, nobody takes it over at or before the claim's time plus their timeout. |
| `OutboxRecovery.TimedOutIsFree` | packages/case-store/src/outbox-relay.ts:92-94 | From then on anybody can. |
| `OutboxRecovery.PassPublishes` | packages/case-store/src/outbox-relay.ts:79-143 | One undisturbed pass with room for them publishes every row no live claim holds, and changes no other. |
| `OutboxRecovery.Recovers` | packages/case-store/src/outbox-relay.ts:79-143 | From any reachable state, whatever crashed, once every claim has timed out such a pass leaves every row published and delivered. |
| `EventChain.EventDigestSeparates` | packages/case-store/src/index.ts:181-197 | Two events have one digest exactly when all their digested columns agree, JSON columns up to member order, or their envelopes collide. |
| `EventChain.VerifyCaseLedger` | packages/case-store/src/index.ts:1187-1214 | Accepts exactly the chains in which every event links to its predecessor and carries its own digest, reports the last digest, or else the first event that breaks. |
| `EventChain.ChainsAgree` | packages/case-store/src/index.ts:1187-1214 | Of two verified lists with one head digest, either all events agree or a position in each with one digest and different content is found. |
| `EventChain.TamperEvident` | packages/case-store/src/index.ts:1187-1214 | Two lists that verify with one head digest are the same event by event, their length included, or two envelopes collide. |
| `EventChain.ReadBack` | packages/case-store/src/index.ts:1147-1172 | The rows with their times rendered are a list that can be read back for them. |
| `EventChain.VerifierAgrees` | packages/case-store/src/index.ts:1147-1214 | A chain read back verifies exactly when each event read had its times stored as rendered, collisions aside. |
| `CaseCommands.AllFoundExactly` | packages/case-store/src/index.ts:952-964 | The row-count check passes exactly when every reference names a row and none is repeated. |
| `CaseStore.Store.AppendCaseEvent` | packages/case-store/src/index.ts:158-230 | Writes event, head and outbox row together exactly when the sequence, the event id and the digest are free. |
| `CaseStore.Store.WriteReceipt` | packages/case-store/src/index.ts:232-261 | Writes the receipt exactly when command id and key are free. |
| `CaseStore.Store.CreateKycCase` | packages/case-store/src/index.ts:263-339 | Replays, refuses, or opens the case with its first event and receipt; a refusal changes nothing. |
| `CaseStore.Store.RegisterEvidence` | packages/case-store/src/index.ts:341-444 | Replays, refuses, or stores bytes under their digest with an evidence row and a receipt; a refusal changes nothing. |
| `CaseStore.Store.EnsureLinkedEvidence` | packages/case-store/src/index.ts:952-964 | Passes exactly when the references are distinct and all linked. |
| `CaseStore.Store.InsertClaim` | packages/case-store/src/index.ts:546-570 | A claim needs evidence, all linked and none twice, and a free id. |
| `CaseStore.Store.InsertFact` | packages/case-store/src/index.ts:571-606 | A fact needs claims, all present and none twice, and a free id, and marks them accepted. |
| `CaseStore.Store.InsertDisposition` | packages/case-store/src/index.ts:903-948 | A disposition needs the role, the review, the authorizing gate and no unsettled high or material contradiction, in that order, each read from the rows. |
| `CaseStore.Store.InsertLink` | packages/case-store/src/index.ts:521-545 | Evidence must be registered for this case, verified, and scanned if the setting asks for it; linking twice changes nothing. |
| `CaseStore.Store.InsertFinding` | packages/case-store/src/index.ts:607-640 | A finding needs a basis, and all its evidence linked and none twice. |
| `CaseStore.Store.InsertGate` | packages/case-store/src/index.ts:782-812 | A gate needs an existing recommendation and a free id. |
| `CaseStore.Store.InsertQaResult` | packages/case-store/src/index.ts:813-842 | A `RecordQAResult` command is refused when its actor wrote the recommendation it reviews; it needs an existing recommendation and a free id. Only this command has that check: `RecordReview` writes a review row of any type without it. |
| `CaseStore.Store.ApplyMutation` | packages/case-store/src/index.ts:471-950 | The tables a command leaves behind, or its refusal. |
| `CaseStore.Store.CloseTransaction` | packages/case-store/src/index.ts:1013-1068 | Event, lineage, case row and receipt of an accepted command, or a conflict. |
| `CaseStore.Store.CheckAuthority` | packages/case-store/src/index.ts:994-1005 | The first of sequence, plan and policy that does not match is the refusal. |
| `CaseStore.Store.Transact` | packages/case-store/src/index.ts:1007-1081 | Mutation and close together, or every table as before. |
| `CaseStore.Store.SubmitBusinessCommand` | packages/case-store/src/index.ts:966-1081 | Replays, refuses or commits; any refusal rolls every table back. |
| `CaseStore.Store.MarkOutboxPublished` | packages/case-store/src/outbox-relay.ts:129-133 | Marks the rows the sink accepted. |
| `CaseStore.Store.PurgeOutboxRows` | packages/case-store/src/outbox-relay.ts:150-162 | Deletes exactly the published rows past retention. |
| `CaseChain.LedgersAlwaysHold` | packages/case-store/src/index.ts:158-220 | In every reachable state each case's events are numbered 1 to n, linked and uniquely digested, and the head row is the last event. |
| `CaseChain.FixedTimes` | packages/case-store/src/index.ts:1018-1032 | The stored times of the events the verifier reads are as rendered exactly when the times supplied for them were. |
| `CaseChain.VerifierMatchesWriter` | packages/case-store/src/index.ts:1147-1214 | For any reachable case the verifier reports the head row's digest exactly up to a thousand events, and, whatever their number, accepts exactly when no command accepted among the first thousand supplied a time the store renders differently, collisions aside. |
| `CaseWitnesses.LateTimeAccepted` | packages/case-store/src/index.ts:1018-1032 | Whenever some time is rendered differently from how it may be supplied, a command with it is accepted on a new case, some list can be read back for the case, and none that can verifies. |
| `CaseWitnesses.WholeSecondAccepted` | packages/contracts/src/index.ts:349-349 | Such a time is 2026-01-01T00:00:00Z, which the command schema accepts and the store renders with milliseconds. |
| `CaseOutbox.OutboxAccounts` | packages/case-store/src/outbox-relay.ts:129-162 | In every reachable state the event ids are the ids in the outbox and the ids purged from it, none in both, only published rows were purged, and each row names its event and carries its digest. |
| `CaseOutbox.EventsAnnounced` | packages/case-store/src/index.ts:205-220 | Every event has its own outbox row, with its case, sequence and digest, until a purge step removes it. |
| `CaseReplay.UnwrittenUnchanged` | packages/case-store/src/index.ts:1069-1081 | A refused or replayed request leaves every table unchanged. |
| `CaseReplay.RetriesCollapse` | packages/case-store/src/index.ts:966-1081 | Any log of requests and relay steps ends in the state its accepted requests and relay steps alone end in, and alone all of those requests are accepted. |
| `CaseReplay.AnswersAreForever` | packages/case-store/src/index.ts:983-993 | Once accepted, a key is answered with the same response for ever, or refused for another request digest; of a replayed creation that response is the event id. |
| `CaseReplay.RegistrationsAreForever` | packages/case-store/src/index.ts:372-380 | A registration key names the evidence it created for ever, or refuses another digest. |
| `CaseReplay.ReceiptsAlwaysMatch` | packages/case-store/src/index.ts:1045-1068 | In every reachable state receipts, command ids and events of a case correspond one to one, and each receipt's response names its event. |
| `CaseReplay.SequenceCountsAccepts` | packages/case-store/src/index.ts:1009-1048 | A case's sequence moves by one per accepted command and by nothing else. |
| `CaseReplay.OneAcceptPerPrecondition` | packages/case-store/src/index.ts:994-999 | Accepted commands of a case carry increasing preconditions, so at most one per sequence is accepted. |
| `CaseReplay.IdAcceptedOnce` | packages/case-store/migrations/001_case_store.sql:324-341 | A command id is accepted at most once on a case, under whatever keys it is sent. |
| `CaseReplay.NamesExactly` | packages/runtime-core/src/index.ts:393-408 | A write's key names tenant, case, run, attempt, node and index; its id is taken from run, node and index. |
| `CaseReplay.AttemptsSeparateKeys` | packages/runtime-core/src/index.ts:407-407 | The keys of one case write in two attempts differ. |
| `CaseReplay.TakenExactly` | packages/case-store/src/index.ts:983-993 | A case has a receipt with a key and digest exactly when a request with them was accepted. |
| `CaseReplay.RetriedWriteRefused` | packages/runtime-core/src/index.ts:393-408 | A case write accepted in one attempt of a run is refused in every other attempt for ever, except that it is replayed exactly when another request was accepted under that key and digest. |
| `CaseWitnesses.RetryRefused` | packages/runtime-core/src/index.ts:393-408 | A behavior in which the first attempt's write is accepted and the second attempt's refused. |
| `CaseDecisions.DecisionsAlwaysHold` | packages/case-store/src/index.ts:755-948 | In every reachable state a case has at most one disposition, exactly one of the right outcome while approved or declined and none before; gates judge existing recommendations, and recommendations rest on something. |
| `CaseDecisions.DispositionWasMade` | packages/case-store/src/index.ts:903-948 | Every disposition was made at one step from human review, by a human with one of the two roles, over a gate row that is authorized for its existing grounded recommendation, with every high or material contradiction settled. |
| `CaseDecisions.FinalizeExactly` | packages/case-store/src/index.ts:903-948 | Under exactly these columns and a free id the command succeeds, and then with that row, outcome and lineage. |
| `CaseDecisions.NewDispositionIsMade` | packages/case-store/src/index.ts:903-948 | In any behavior the step after which a disposition is first there is a command that finds the columns so. |
| `CaseDecisions.DecidedCasesOnlyClose` | packages/case-store/src/index.ts:456-469 | An approved or declined case was decided so at such a step, keeps that one disposition, and can only close. |
| `CaseDecisions.ContradictionStep` | packages/case-store/src/index.ts:682-698 | A contradiction changes only by an accepted command that resolves it while it is open. |
| `CaseDecisions.BlockedUntilResolved` | packages/case-store/src/index.ts:916-920 | Between a high or material contradiction that is open or under investigation and a disposition lies a command that resolves that contradiction. |
| `CaseDecisions.ResolvedForever` | packages/case-store/src/index.ts:682-698 | A resolved contradiction is never reopened. |
| `CaseGuards.FoundExactly` | packages/case-store/src/index.ts:523-527 | Evidence is found by tenant and id, and only for its own case. |
| `CaseGuards.LinkExactly` | packages/case-store/src/index.ts:521-545 | It is linked exactly when it is verified, and clean if the scan is required. |
| `CaseGuards.ClaimExactly` | packages/case-store/src/index.ts:546-570 | A claim is made exactly over distinct linked evidence, at least one, with one lineage row each in order. |
| `CaseGuards.FactExactly` | packages/case-store/src/index.ts:571-606 | A fact is made exactly over distinct claims of the case, at least one; those become accepted and no other claim changes. |
| `CaseGuards.FindingExactly` | packages/case-store/src/index.ts:607-640 | A finding is made exactly over distinct linked evidence or any facts, and its lineage names both. |
| `CaseGuards.RaiseExactly` | packages/case-store/src/index.ts:661-681 | A contradiction is raised exactly between at least two objects, and is open. |
| `CaseGuards.ResolveExactly` | packages/case-store/src/index.ts:682-698 | It is settled exactly from open or under investigation, and keeps its materiality. |
| `CaseGuards.WorkExactly` | packages/case-store/src/index.ts:699-735 | Work is proposed under a free id and completed exactly while it is open. |
| `CaseGuards.ObjectsExactly` | packages/case-store/src/index.ts:484-520 | Subjects, assumptions and reviews need a free id each of its own kind; linking a run twice changes nothing. |
| `CaseGuards.RecommendExactly` | packages/case-store/src/index.ts:755-781 | A recommendation is made exactly over findings or evidence, with its author and sequence. |
| `CaseGuards.GateExactly` | packages/case-store/src/index.ts:782-812 | A gate is recorded exactly for a recommendation of the case. |
| `CaseGuards.QaExactly` | packages/case-store/src/index.ts:813-842 | A quality review is recorded exactly by another principal than the recommendation's author. |
| `CaseGuards.SourcesExactly` | packages/case-store/src/index.ts:456-469 | The transition table read backwards: from which statuses each one is reached. |
| `CaseGuards.TransitionExactly` | packages/case-store/src/index.ts:864-902 | A transition succeeds exactly along the table and never decides; a human review is asked for exactly where one may begin. |
| `CaseGuards.StatusStep` | packages/case-store/src/index.ts:456-469 | Over any step of the store a case's status stays or moves along the table. |
| `CaseGuards.NormalizeExactly` | packages/case-store/src/index.ts:72-74 | Normalizing drops the prefix and nothing else. |
| `CaseGuards.AuthorityExactly` | packages/case-store/src/index.ts:994-1005 | A command passes exactly with the case's sequence and with digests that denote its plan and its policy, and otherwise names the first that does not. |
| `CaseGuards.ContentExactly` | packages/case-store/src/index.ts:351-364 | Content is taken exactly when it is there, not empty, not too large and of the declared digest. |
| `CaseEvents.ActorExactly` | packages/contracts/src/index.ts:309-314 | The actor's JSON names its type, principal, execution and roles. |
| `CaseEvents.AuthorityFields` | packages/contracts/src/index.ts:316-320 | The authority's JSON names its three digests. |
| `CaseEvents.TypeExactly` | packages/case-store/src/index.ts:484-948 | Each command's event has the type written for it. |
| `CaseEvents.SchemaExactly` | packages/case-store/src/index.ts:484-948 | And its schema, the harness's for work and executions and the case's own for all others. |
| `CaseEvents.EnvelopeExactly` | packages/case-store/src/index.ts:164-180 | An event's digest is taken of its fourteen other columns, each under its name. |
| `CaseEvents.EventExactly` | packages/case-store/src/index.ts:1013-1033 | Every column of a command's event, from the case, the command and the mutation that caused it. |
| `CaseEvents.AdmitExactly` | packages/case-store/src/index.ts:1013-1068 | The whole case after an accepted command, exactly when sequence, event id, digest, command id and key are free. |
| `CaseEvents.FirstEventExactly` | packages/case-store/src/index.ts:299-320 | Every column of a case's first event. |
| `CaseEvents.CreateExactly` | packages/case-store/src/index.ts:263-339 | A creation is replayed for its key, refused on a used external reference, case or event id, and otherwise leaves exactly the case's rows. |
| `CaseEvents.KeylessRefused` | packages/case-store/src/index.ts:263-346 | Without a key nothing is created or registered. |
| `CaseEvents.RegisterExactly` | packages/case-store/src/index.ts:365-444 | A registration is replayed for its key, needs its case and a free id, and otherwise leaves exactly the evidence's rows, bytes that are already stored staying. |
| `CaseProvenance.EvidenceOnlyGrows` | packages/case-store/src/index.ts:384-409 | Evidence and artifacts are never changed or removed. |
| `CaseProvenance.AssertsCount` | packages/case-store/src/index.ts:566-568 | A claim's lineage holds one row per piece of evidence. |
| `CaseProvenance.ProvenanceAlwaysHolds` | packages/case-store/src/index.ts:521-606 | In every reachable state facts rest on distinct accepted claims, claims on distinct evidence linked to the case, evidence on stored bytes of its digest, and the ASSERTS and ACCEPTED_AS rows are exactly these relations, once each. |
| `CaseProvenance.FactsReachBytes` | packages/case-store/src/index.ts:341-606 | From any fact, through any of its claims and any of their evidence, one row each leads to bytes whose digest is the evidence's. |
| `CaseProvenance.ScanFailsClosed` | packages/case-store/src/index.ts:529-531 | With the scan required, no reachable case has linked evidence, claims or facts. |
| `CaseWithoutScan.DecidedWithoutScan` | packages/case-store/src/index.ts:521-606 | Without it, a behavior registers and links evidence, accepts a claim on it as a fact and approves the case, with the fact and what it rests on still there. |
| `Reductions.CompareTransitive` | packages/runtime-core/src/index.ts:160-166 | The sort comparator is transitive on any mix of JSON values. |
| `Reductions.SortOrders` | packages/runtime-core/src/index.ts:156-167 | In both directions it is a total preorder and the sort a stable ordered permutation. |
| `Reductions.SortDirection` | packages/runtime-core/src/index.ts:160-167 | Ascending puts smaller numbers and texts first, descending larger ones, and both put undefined items last. |
| `Reductions.SortIsTheStableOrder` | packages/runtime-core/src/index.ts:161-166 | There is only one such ordering. |
| `Reductions.Deduplicate` | packages/runtime-core/src/index.ts:145-155 | Keeps, in order, exactly the first item of each key. |
| `Reductions.DeduplicatedKeys` | packages/runtime-core/src/index.ts:148-154 | The result's keys are distinct and every input item is represented at or before its place. |
| `Reductions.DeduplicateIdempotent` | packages/runtime-core/src/index.ts:145-155 | Deduplicating a deduplicated list changes nothing. |
| `Reductions.DigestKeysSeparate` | packages/runtime-core/src/index.ts:150-150 | Items share a key exactly when their values are the same JSON or collide. |
| `Reductions.CountVotes` | packages/runtime-core/src/index.ts:200-206 | Each key's tally holds its number of votes and its first value. |
| `Reductions.Vote` | packages/runtime-core/src/index.ts:197-208 | Returns the earliest value of maximal count, or null for no values. |
| `Reductions.WinnerUnique` | packages/runtime-core/src/index.ts:207-207 | Only one position can win. |

## Left out

- Token minting and verification, SHA-256, HTTP routes, telemetry, connection pools, read models and list queries.
- The gateway's checks of token, capability, effect and plan before the reservation; of the guards over live state only the fence is modelled.
- Node attempts and checkpoints of the runtime journal beyond the run row: they are written once the journal's authority check passes, which is modelled.
- RunStore.Store.BindRunTrace: the trace is one value; span ids, flags and the stored agreement of a second binding are not modelled.
- RunTheorems.FinalIsFinal: the run's call and cost counters are in the gateway's model, and a call in flight may still move them after a final status.
- GatewayStore.Store.ReserveGatewayReceipt: the insert and the budget update are one atomic step; two transactions of one run between the statements of each other are not modelled.
- RunStore.Store.HandleFailure: backoff base and maximum are the defaults of the environment variables, and the events it appends are not modelled.
- RunStore.Store.AppendEvent: an event is its key; the code, values and time that a repeated key gets back are not modelled.
- GatewayStore.Store.Invoke: the handler is modelled from the reservation on, without the authorization before it and its denial codes.
- AttachAgent.ApplyAgent: the new id comes already normalized, and the package's skills, agents, profiles and bindings are not modelled.
- Reductions.SortOrders: the path lookup and the numeric value of a number token are parameters, and numbers are finite.
- CanonicalJson.CanonicalTextInjective: number tokens are opaque, and -0 and numbers that are not finite do not occur.
- RustCanonical.TextsAgree: how JavaScript reads a number token is a parameter, and both languages escape strings alike, as they do for every string they share.
- CaseStore.Store.ApplyMutation: commands that write one of the modelled rows without looking at others are applied as their specification says; columns that no guard, command or property here reads are left out. A payload that does not parse is one case, so when it is also refused for another reason only one of the two errors is modelled.
- CaseStore.Store.RegisterEvidence: base64 decoding, the artifact reference and its uniqueness across tenants, and the evidence outbox row are not modelled; evidence goes through the same relay as case events.
- CaseStore.Store.AppendCaseEvent: the payload of an event is any JSON object rather than the members each command puts there, and of the outbox row the event it names, its digest and whether it was published are modelled; the relay's claims on it are in `Outbox`.
- CaseReplay.AnswersAreForever: a replayed creation also returns the case row, which is read anew and may have moved on.
- Foreign keys.
- The other transforms and aggregators (select, project, merge, slice, concat), which are single library calls.
- The authoring lifecycle, registries, model adapters, the LangGraph lowering and the compiler beyond its canonical form.
