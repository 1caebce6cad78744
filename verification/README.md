# Verified model of the governance core

A Dafny model of the parts of the Faramesh core whose correctness rests on an argument over all inputs or over all
runs, with proofs of what those parts promise:

- the **evidence tree** (`Merkle`, `MerkleSizes`, `MerkleProofs`, `ComplianceExport`): Merkle roots over record hashes,
  inclusion and consistency proofs, and the compliance export that builds and verifies them;
- the **record log** (`Record`, `Chain`, `Wal`, `WalLife`, `Pipeline`, `DecisionLog`): a framed write-ahead file with
  crash recovery, whole lives of such a file, one hash chain per agent, the two-lock protocol by which concurrent
  decisions reach the log, and the two joined;
- the **policy language** (`FplLexer`, `FplParser`, `FplPrinter`, `FplJoin`, `FplAgents`, `FplClauses` and the round-trip
  modules): tokenizer, recursive-descent parser and decompiler of FPL;
- the **runtime governors** (`Window`, `WindowCaps`, `Loops`, `Aggregation`, `Routing`, `Budget`): sliding-window caps,
  the invocation cap of an orchestrator, and budgets within an aggregate;
- the **link graph** and the **defer protocol** (`Linkage`, `DeferWorkflow`).

Code that changes state step by step is a class or a method with loops, proved against a specification function; what
the code promises is then proved about that function, about every run, or about every interleaving of its critical
sections. `dafny verify dfyconfig.toml` checks the project.

How to read the statements:

- SHA-256, JSON, CRC-32 and the conversions of `strconv` are parameters. Collision-freeness is assumed of SHA-256
  itself, between the finitely many byte strings that the two computations at hand give it, so it can hold.
- Go's `uint64` is modelled with its range, and the one sum that can leave it wraps. A slice has fewer than 2^63 elements.
- Map iteration order is arbitrary: loops over a map pick any remaining key, and printed vars and phases come as lists.
- Where one critical section does not cover a whole operation, the operation is split into the steps that other calls
  can come between, and the theorems range over all sequences of steps.

Where the code and its own words differ, the model follows the code:

- The log's comment (internal/core/dpr/wal.go:15-16) speaks of newline-delimited JSON; the code writes binary frames.
- A consistency proof is announced as intermediate subtree hashes in the order of RFC 6962
  (internal/core/dpr/merkle_proofs.go:33-34); the code ships every leaf of the newer tree.
- A comment promises that the record chain is continuous across restarts (internal/core/pipeline.go:195);
  `Pipeline.RestartKeepsChainIff` says exactly when it is, for whole runs after a restart.
- `Resolve` is said to return an error for a resolved token; a finalized token can be deferred again
  (internal/core/defer/workflow.go:140), so the theorems speak of handles, and `DeferWorkflow.StaleTimerIff` says exactly
  when the handle opened then can be expired before its time.

Properties that the code does not have in general, each with the exact condition under which it does (or the bound that
does hold), and a family of inputs that fails otherwise:

| property | holds if and only if | fails |
|---|---|---|
| a window's whole history decides (loops, aggregation) | `Loops.SeesWindowIff`, `Aggregation.SeesWindowIff` with `Window.UnbrokenIff`; over runs `SeesEveryWindowIff` with `Window.SteadyIff` | the runs of the next rows |
| a cap on repeats holds in every closed window | `Loops.RepeatsBoundedIff` | the other half of it, and `Loops.ClockRunningBackDoublesCap` |
| a cap on calls holds in every closed window | `Loops.CallsBoundedIff` | the other half of it |
| every cap on risk holds in every closed window | `Aggregation.RiskBoundedIff` | the other half of it, and `Aggregation.ClockRunningBackExceedsCap` |
| an accepted inclusion proof shows a leaf | `MerkleProofs.InclusionAnySize`, `MerkleSizes.OnlyTrueSizeShowsLeaves` | `MerkleProofs.InnerNodePasses` |
| the aggregate is overrun by no more than the last charge | `Budget.AggregateOverrunIff` | `Budget.LateChargeIsBooked` |
| a counter shows its own orchestrator's invocations | `Routing.OwnCounterIff`, `Routing.KeysShareIff`, `Routing.SharedSomewhereIff` | `Routing.SharedCounterDenies` |
| a cap holds of what is being invoked at once | `Routing.CapUnderConcurrency` bounds it by m + k - 1 | `Routing.BoundIsReached` |
| a deferred call waits its full time | `DeferWorkflow.StaleTimerIff` | `DeferWorkflow.StaleTimerExpiresReopened` |
| an acknowledged record is read back | `WalLife.AcknowledgedReadIff`, `WalLife.AlwaysIntactIff`, `Wal.WritesAfterCrash` | `WalLife.FailureHidesNext`, `Wal.UnreadableWriteHidesRest` |
| a returned decision's record is read back | `DecisionLog.ReturnedReadIff`, `DecisionLog.AlwaysHoldsLogIff` | `WalLife.FailureHidesNext` |
| the log passes validated replay | `Pipeline.AcceptedIffInBuildOrder`, `Pipeline.RestartKeepsChainIff`; over several processes `DecisionLog.LifeAcceptedIff` | `Pipeline.OvertakingWriteRejected`, `Pipeline.WriteAfterFailureRejected` |
| the last hashes give forgery away | `Chain.TamperEvident`, `Chain.ForgeryLimit` | `Chain.UncommittedIsFree` |
| a printed budget amount parses back | `FplReparse.AmountKeptIffWhole` | the other half of it |
| a printed rule parses back | `FplTexts.RuleReadsBackIff`, `FplTools.ToolReadsBackIff` | the other half of it |
| a printed variable parses back | `FplTexts.VarReadsBackIff` | the other half of it |

## Model

| member | source | states |
|---|---|---|
| Merkle.RootIsTreeHash | internal/core/dpr/merkle_proofs.go:47-59 | For every non-empty leaf list the level-by-level root with odd-node promotion is the recursive tree hash of section 2.1 of RFC 6962 over leaves hashed already |
| Merkle.SplitPointIsPower | internal/core/dpr/merkle_proofs.go:285-295 | The split point of the recursive definition is the largest power of two below n, as section 2.1 of RFC 6962 has it |
| Merkle.AuditPathIsRfcPath | internal/core/dpr/merkle_proofs.go:74-86 | The siblings collected level by level are the audit path of section 2.1.1 of RFC 6962 |
| Merkle.RootDeterminesLeaves | internal/core/dpr/merkle_proofs.go:207-270 | Equal-size trees with the same root have the same leaves, if the pairs hashed in the two do not collide |
| Merkle.ClimbSound | internal/core/dpr/merkle_proofs.go:99-155 | A climb that ends in the root started at the leaf and consumed exactly its audit path |
| Merkle.ClimbComplete | internal/core/dpr/merkle_proofs.go:99-155 | The climb from a leaf along its audit path ends in the root, for every list of leaves a Go slice can hold |
| MerkleSizes.ClimbAnywhere | internal/core/dpr/merkle_proofs.go:118-155 | A climb of any claimed width ends in the root if and only if it starts at the node it leads to from above and consumes that node's siblings, collisions aside |
| MerkleSizes.OnlyTrueSizeShowsLeaves | internal/core/dpr/merkle_proofs.go:106-116 | Every position of a claimed size leads to a single leaf if and only if the size is the number of leaves |
| MerkleProofs.NodeInputInjective | internal/core/dpr/merkle_proofs.go:297-303 | Different pairs of children give SHA-256 different inputs, so that only a collision of SHA-256 can confuse two nodes; the results on proofs take collision-freeness of SHA-256 on these inputs as their hypothesis |
| MerkleProofs.RootEquations | internal/core/dpr/merkle_proofs.go:47-59 | The tree hash as section 2.1 of RFC 6962 has it: a single leaf is its own, more are SHA-256 of 0x01, the hash of as many leaves as the largest power of two below their number, and the hash of the rest |
| MerkleProofs.CloneLevel | internal/core/dpr/merkle_proofs.go:272-283 | The leaves unchanged if all have 32 bytes, else an error for the first that has not |
| MerkleProofs.BuildParentLevel | internal/core/dpr/merkle_proofs.go:285-295 | The in-order loop over pairs computes the parents of a level, an odd last node promoted |
| MerkleProofs.ComputeMerkleRoot | internal/core/dpr/merkle_proofs.go:47-59 | Nothing for no leaves, the tree hash of section 2.1 of RFC 6962 for leaves of 32 bytes, an error otherwise |
| MerkleProofs.BuildInclusionProof | internal/core/dpr/merkle_proofs.go:62-96 | The proof carries the leaf and its audit path; an index outside the leaves, or a leaf of another size, is an error |
| MerkleProofs.VerifyInclusionProof | internal/core/dpr/merkle_proofs.go:99-155 | The verifier's loop over 64-bit widths and positions decides exactly as the recursive verdict does, error by error |
| MerkleProofs.ClimbOutcome | internal/core/dpr/merkle_proofs.go:118-153 | A climb fails for the first hash it looks at that is no digest, else for a number of hashes other than that of the levels with a sibling, told as too few or too many, and for nothing else |
| MerkleProofs.LargestClaimWraps | internal/core/dpr/merkle_proofs.go:124-150 | For the largest size that a proof can claim the width wraps to zero, and the verifier climbs at most one level |
| MerkleProofs.InclusionDecidedIff | internal/core/dpr/merkle_proofs.go:99-155 | The verifier comes to a verdict, true or false, if and only if version, algorithm, position and the sizes of root and leaf are right and there is a digest for each sibling on the way up; every other proof is an error |
| MerkleProofs.InclusionExact | internal/core/dpr/merkle_proofs.go:99-155 | Against the root of leaves a proof for their number is accepted if and only if it carries the leaf at its index and that leaf's audit path |
| MerkleProofs.InclusionAnySize | internal/core/dpr/merkle_proofs.go:99-155 | The verifier takes the number of leaves from the proof: whatever a proof claims, it is accepted against the root of leaves if and only if what it gives as the leaf is the node, and what it gives as the path are the siblings, that its index and its size lead to |
| MerkleProofs.InnerNodePasses | internal/core/dpr/merkle_proofs.go:99-155 | So a proof of the hash of two neighbouring leaves, made over one level up, is accepted against the root |
| MerkleProofs.InclusionComplete | internal/core/dpr/merkle_proofs.go:62-155 | The proof built for any index is accepted against the computed root, whatever the hash function |
| MerkleProofs.BuildConsistencyProof | internal/core/dpr/merkle_proofs.go:158-204 | Both roots and every leaf up to the newer size, or no leaf when the sizes agree; bad sizes are errors |
| MerkleProofs.VerifyConsistencyProof | internal/core/dpr/merkle_proofs.go:207-270 | The verifier's loop decodes and decides as the verdict function says, error by error |
| MerkleProofs.ConsistencyDecidedIff | internal/core/dpr/merkle_proofs.go:207-270 | The same for consistency proofs: a digest for each leaf of the newer tree, none between equal sizes |
| MerkleProofs.ConsistencyExact | internal/core/dpr/merkle_proofs.go:207-270 | Between the root of an older and of a newer list a proof is accepted if and only if the older list is a prefix of the newer and the payload is the newer list (nothing for equal sizes) |
| MerkleProofs.ConsistencyComplete | internal/core/dpr/merkle_proofs.go:158-270 | The proof built between two sizes of one list is accepted |
| Hex.DecodeEncode | internal/core/dpr/merkle_proofs.go:93-94 | Hex text decodes to the bytes it was made from |
| Hex.DecodesIff | internal/core/dpr/merkle_proofs.go:116-137 | A text decodes to bytes if and only if it is their hex, upper and lower case being the same |
| ComplianceExport.Collect | internal/core/dpr/compliance_export.go:57-82 | Hashes are filled in, decoded and listed in order; exactly a hash that is no hex stops the export |
| ComplianceExport.VerifyInclusions | internal/core/dpr/compliance_export.go:109-130 | Every inclusion proof built for the bundle verifies, so every entry of the bundle reports success |
| ComplianceExport.VerifyLastStep | internal/core/dpr/compliance_export.go:132-155 | The consistency proof of the last step verifies |
| ComplianceExport.BuildComplianceExportBundle | internal/core/dpr/compliance_export.go:56-157 | An export is made if and only if every record hash is the hex of 32 bytes, and every export reports success throughout, with the root, entries and agents of its records |
| ComplianceExport.AgentsOnce | internal/core/dpr/compliance_export.go:59-82 | The listed agents are those of the records, each once |
| ComplianceExport.AgentsInOrder | internal/core/dpr/compliance_export.go:78-81 | They are listed in the order in which they first appear |
| ComplianceExport.ExportedAsStored | internal/core/dpr/compliance_export.go:62-77 | Each record is listed under its own fields and the hash it was stored with, whatever that is; one stored without a hash, under that of its canonical form |
| Wal.Uint32LittleEndian | internal/core/dpr/wal.go:62-66 | The header's numbers read back as written |
| Wal.ScanReadsLog | internal/core/dpr/wal.go:159-224 | What a scan of any bytes reads is a run of whole readable frames, and no readable frame follows it |
| Wal.RecoveryKeepsLongestLog | internal/core/dpr/wal.go:159-189 | On any file, recovery keeps exactly the longest prefix of readable frames, plus at most 11 bytes of a header when those are all that follows |
| Wal.RecoveredScansClean | internal/core/dpr/wal.go:159-224 | A recovered file replays to its end without error, to the records the damaged file had, and recovery is idempotent |
| Wal.CrashRecovery | internal/core/dpr/wal.go:35-77 | After a crash at any byte of a frame, opening the log keeps all complete records and nothing else that reads |
| Wal.TornHeaderHidesNext | internal/core/dpr/wal.go:191-195 | A frame written behind a torn header of 1 to 11 bytes is unreadable, and so is all that follows |
| Wal.WritesAfterCrash | internal/core/dpr/wal.go:35-77 | After a crash that got k bytes of a frame out, later acknowledged writes are read back if and only if k is 0 or at least 12 |
| Wal.UnreadableWriteHidesRest | internal/core/dpr/wal.go:205-207 | Write does not check what the reader demands: a payload the reader rejects hides every record behind it, any other hides none |
| Wal.SwappedPayloadUnread | internal/core/dpr/wal.go:209-218 | The checksum covers the payload: behind its header, any other payload of its length is unreadable unless CRC-32 collides |
| WalLife.Durable | internal/core/dpr/wal.go:35-113 | Over any run, from an empty file, of writes, failures, crashes and restarts with readable payloads, no failure inside a frame and no crash inside a header, the file holds exactly the owed records in order |
| WalLife.ReadsBackIffIntact | internal/core/dpr/wal.go:53-77 | A record written behind any bytes whatever is read back, with all that comes later, if and only if the reader got to the end of the file before; otherwise it stops within the first 7 bytes of the frame |
| WalLife.AcknowledgedReadIff | internal/core/dpr/wal.go:51-77 | From any file, an acknowledged record is read back after any run of later writes, failures, crashes and restarts, if and only if the file was intact when it was written |
| WalLife.FailureHidesNext | internal/core/dpr/wal.go:67-72 | After a write that failed, without reopening, every record acknowledged next is out of the reader's reach if and only if the failure left a piece of its frame |
| WalLife.FailureIntactIff | internal/core/dpr/wal.go:67-75 | A failed write leaves an intact file intact if and only if it left nothing, or the whole frame |
| WalLife.CrashIntactIff | internal/core/dpr/wal.go:159-189 | A crash leaves an intact file intact, once reopened, if and only if it got out nothing or at least a whole header |
| WalLife.RecoveryIntactIff | internal/core/dpr/wal.go:159-189 | Reopening mends any file but one that ends in a piece of a header, and never drops a record the reader got to |
| WalLife.AlwaysIntactIff | internal/core/dpr/wal.go:35-77 | A run from an intact file keeps it intact all along if and only if no write fails inside a frame and no crash cuts off a header |
| Wal.WAL.constructor | internal/core/dpr/wal.go:35-49 | Opening leaves the recovered file |
| Wal.WAL.RecoverTail | internal/core/dpr/wal.go:159-189 | Truncates at the last good boundary if and only if an unreadable frame follows it |
| Wal.WAL.FindGoodOffset | internal/core/dpr/wal.go:163-181 | The reading loop ends at the end of the last whole record, and tells the end of the file from an unreadable frame |
| Wal.WAL.Write | internal/core/dpr/wal.go:53-77 | A healthy disk gets exactly one more frame; what a failing disk took stays in the file, error by error |
| Wal.WriteTells | internal/core/dpr/wal.go:53-77 | What the writer reports tells exactly what the disk did, and what is in the file then |
| Wal.WAL.Replay | internal/core/dpr/wal.go:93-113 | The callback sees the scanned records in order, up to the first it refuses, and the outcome tells how the file ends |
| Wal.WAL.ReplayValidated | internal/core/dpr/wal.go:120-145 | The callback sees only records of valid chains; an invalid outcome names the first record that breaks one |
| Chain.AcceptsIffChained | internal/core/dpr/wal.go:120-145 | Validated replay accepts a log if and only if all records name an agent and each agent's records form a chain from its genesis marker |
| Chain.ValidateIsLink | internal/core/dpr/wal.go:226-251 | The check of one record passes if and only if it has an agent, its own hash, and the hash of that agent's previous record (or genesis marker) as its predecessor |
| Chain.ValidateTellsWhy | internal/core/dpr/wal.go:226-251 | A record that fails is told why: no agent, no hash, another hash, another genesis marker for the first record of an agent, another predecessor for a later one |
| Record.HashCoversForm | internal/core/dpr/record.go:104-162 | The hash covers the whole canonical form: two forms have one record hash if and only if SHA-256 maps their JSON to one digest |
| Chain.RewrittenRecordRejected | internal/core/dpr/wal.go:226-251 | An accepted log in which the canonical form of any record was rewritten, in whatever field, is rejected unless SHA-256 collides on the two forms |
| Chain.TipDeterminesChain | internal/core/dpr/record.go:104-168 | Two chains of an agent that reach the same hash hold the same canonical records, if no two of their records and no genesis marker collide |
| Chain.TamperEvident | internal/core/dpr/wal.go:120-145 | Two accepted logs have the same last hash for an agent if and only if they hold the same records of it, in order, up to the fields the hash covers, collisions aside |
| Chain.TamperEvidentPrefix | internal/core/dpr/wal.go:226-251 | If one accepted log's last hash for an agent occurs anywhere in another, its history is exactly the other's up to there |
| Chain.UncommittedIsFree | internal/core/dpr/record.go:104-157 | Logs that agree on canonical forms and hashes, whatever their other fields, are accepted alike and end in the same last hashes |
| Chain.ForgeryLimit | internal/core/dpr/wal.go:120-145 | Of all logs of named agents, those accepted with the last hashes of an accepted one are exactly those with their own hashes and the same canonical history of every agent, collisions aside |
| Pipeline.BuiltChains | internal/core/pipeline.go:1013-1073 | In every interleaving, from whatever log and store a process starts with, each agent's records form one chain in build order from the hash the store gave, and the cursor is at its end |
| Pipeline.NoDecisionWithoutRecord | internal/core/pipeline.go:879-911 | In every interleaving, failing writes included, nothing but a denial is returned without its record in the log |
| Pipeline.RecordDocumentsCall | internal/core/pipeline.go:1013-1073 | In every interleaving, a call that returned with a record has it in the log, and the record says of the call what its build was given, in every committed and uncommitted field but the link, and names the very effect that was returned; a call that returned without one was denied |
| Pipeline.AcceptedIffInBuildOrder | internal/core/pipeline.go:879-911 | From any accepted log and any store, with differing record hashes, the log passes validated replay, at any moment of any interleaving, if and only if no record lacks an agent, each agent's logged records are the first of those built for it, in build order, and the store knew the last logged hash of each agent that has had a record logged since |
| Pipeline.SerialLogAccepted | internal/core/pipeline.go:879-911 | If no write fails and no named agent has two calls between build and write, a fresh process's log passes validated replay at every moment |
| Pipeline.OvertakingWriteRejected | internal/core/pipeline.go:898-900 | Two calls of one agent written in the other order than built: the log is rejected although every write succeeded |
| Pipeline.WriteAfterFailureRejected | internal/core/pipeline.go:1070 | The cursor advances before the write: after a failed write the agent's next record makes the log rejected |
| Pipeline.RestartKeepsChainIff | internal/core/pipeline.go:195-204 | After a restart on an accepted log, every such serial run keeps the log accepted at every moment if and only if the store's hash of each agent that gets a record logged is that of its last logged record (or neither has one) |
| Pipeline.DecisionPipeline.constructor | internal/core/pipeline.go:195-204 | The cursors are seeded with exactly the non-empty last hashes of the known agents |
| Pipeline.DecisionPipeline.Build | internal/core/pipeline.go:1013-1073 | The record has all fields of the draft and the text of the effect, links to the agent's cursor or to its genesis marker, carries its own hash, and the cursor moves to it |
| Pipeline.DecisionPipeline.Decide | internal/core/pipeline.go:897-911 | A call nothing interleaves with takes exactly the build and the write step of the run model |
| DecisionLog.ReturnedReadIff | internal/core/pipeline.go:897-911 | A call whose write is acknowledged returns its decision with its record, for good, and replay of the file reads that record, then and after whatever follows, if and only if the file was intact before the write |
| DecisionLog.AlwaysHoldsLogIff | internal/core/dpr/wal.go:51-77 | Through a run the records of the file are exactly the log of acknowledged records if and only if no failing write leaves anything behind |
| DecisionLog.NoDecisionUnread | internal/core/pipeline.go:879-911 | On such a disk, from any file but one that ends in a piece of a header, nothing but a denial is returned without a record that replay of the file reads, and the file passes validated replay if and only if the log does |
| DecisionLog.LifeAcceptedIff | internal/core/pipeline.go:195-204 | Over any number of orderly processes on one file, each ended by a crash and started on what the last one left, replay of the file passes validation if and only if each store knew the last record, in the file found, of each agent that then had one logged |
| DecisionLog.NoDecisionLost | internal/core/pipeline.go:879-911 | Whatever such a process returns but a denial, the file still gives its record back after all later processes |
| FplLexer.Tokenize | internal/core/fpl/parser.go:127-203 | The tokenizer's index loop yields exactly the tokens, lines and errors of the recursive definition |
| FplLexer.ScanString | internal/core/fpl/parser.go:167-180 | The string loop stops at the first quote not behind a backslash |
| FplJoin.LinesJoin | internal/core/fpl/parser.go:127-203 | A text behind a newline is tokenized, or fails, as it does by itself, on the lines below the one that the text before ends on |
| FplJoin.OneLineTokens | internal/core/fpl/parser.go:127-203 | All tokens of a text without a newline, or its error, are on the line that the text is on |
| FplParser.Parser.StringOrIdent | internal/core/fpl/parser.go:254-274 | A string, an identifier, or a number joined with the unit behind it; the position moves past just that |
| FplParser.Parser.ConsumeUntilKeyword | internal/core/fpl/parser.go:402-433 | The loop collects exactly the texts of the tokens up to the end of the condition |
| FplParser.Parser.ParseFlatRule | internal/core/fpl/parser.go:345-400 | The rule the grammar reads off the front of the tokens, and what is left of them |
| FplParser.Parser.ParseBudgetBlock | internal/core/fpl/parser.go:658-717 | The budget the grammar reads, or its error |
| FplParser.Parser.ParsePhaseBlock | internal/core/fpl/parser.go:731-781 | The phase the grammar reads, with the tools of its rules, or its error |
| FplParser.Parser.ParseRulesBlock | internal/core/fpl/parser.go:783-804 | The rules the grammar reads up to the closing brace, or its error |
| FplParser.Parser.ParseAgentBlock | internal/core/fpl/parser.go:469-595 | The agent the grammar reads, or its error |
| FplParser.ParseDocument | internal/core/fpl/parser.go:277-330 | Tokenizing and parsing yields the document, or the error, that the grammar gives the source |
| FplParser.ParseFlatRulesV0 | internal/core/fpl/parser.go:1090-1105 | The same for a flat list of rules |
| FplJoin.DocumentsJoin | internal/core/fpl/parser.go:287-330 | Two sources joined by a newline, the first accepted and the second beginning with an agent or a rule: the whole is accepted if and only if the second is, and then has the agents and the rules of both, all of them in order |
| FplJoin.FlatRulesAreDocument | internal/core/fpl/parser.go:318-323 | A source read as a flat list of rules is, as a document, exactly these rules in order if and only if every one of them starts with an effect |
| FplJoin.OnlyItemsAccepted | internal/core/fpl/parser.go:287-330 | Whatever was read before, nothing but an agent, a rule or the end is accepted next |
| FplJoin.OnlyItemsInBlocks | internal/core/fpl/parser.go:469-781 | Nor is anything accepted in an agent, a phase or a budget but its items |
| FplAgents.AgentReads | internal/core/fpl/parser.go:469-595 | An agent written as settings, budgets, phases and rule blocks in any order, and rules without a block behind them, is read as what they say: the last of each setting, all else in order, and beside the rules of each phase their tools |
| FplClauses.RuleInAnyOrder | internal/core/fpl/parser.go:345-400 | A rule is read with its clauses in whatever order they stand, colons or not, the last of each kind holding; a strict denial may have its mark apart |
| FplClauses.EveryEffectReads | internal/core/fpl/parser.go:318-323 | Each of the eight effects of the language and a tool make a document of that rule |
| FplClauses.UnitReads | internal/core/fpl/parser.go:254-274 | A number and a unit behind it, in whatever case, are one value |
| FplClauses.DollarIsOptional | internal/core/fpl/parser.go:719-729 | An amount reads the same with a dollar sign and without |
| FplPrinter.DecompileToFPL | internal/core/fpl/parser.go:1135-1222 | The writing loops produce the text of the document, part by part |
| FplWords.FrontOf | internal/core/fpl/parser.go:127-203 | A word in front of a text that cannot lengthen it is the first token of the whole |
| FplRoundTrip.RuleLexes | internal/core/fpl/parser.go:1193-1218 | A printed rule in front of any text tokenizes to its words, conditions with strings, numbers and units included |
| FplRoundTrip.RuleReads | internal/core/fpl/parser.go:345-433 | The words of a printed rule parse back to it, whatever rule or block end follows |
| FplDocument.DocLexes | internal/core/fpl/parser.go:1135-1222 | A printed document tokenizes to its words |
| FplReparse.PrintThenParse | internal/core/fpl/parser.go:1135-1222 | Parsing a printed document gives it back: default, vars, budget, phases and rules, a condition true and an empty one identified; of number parsing it asks only that the printed numbers of this budget are read as they are |
| FplReparse.AmountKeptIffWhole | internal/core/fpl/parser.go:1164-1169 | A positive budget amount survives printing if and only if it is a whole number of dollars |
| FplReparse.PrintsNearest | internal/core/fpl/parser.go:1164-1169 | Any other amount is printed as the nearest whole number, of two equally near ones as the even one |
| FplFixpoint.LexedOk | internal/core/fpl/parser.go:127-203 | Every token is a word of its kind: strings keep raw escapes, identifiers and numbers their alphabets |
| FplFixpoint.ConditionOk | internal/core/fpl/parser.go:402-433 | Every condition the parser emits is a list of parts that print and read back as themselves |
| FplFixpoint.ParsedIsShaped | internal/core/fpl/parser.go:277-330 | All rules of an accepted document, those of agents and phases included, are made of such parts |
| FplFixpoint.ParsedRulesSurvive | internal/core/fpl/parser.go:1135-1222 | Parse, print, parse: every accepted list of rules with effects of the language and token tools comes back the same, true and empty conditions identified, whatever number parsing does |
| FplFixpoint.ParsedAgentRulesSurvive | internal/core/fpl/parser.go:469-595 | The same for the rules of any agent of any accepted document |
| FplTools.ToolReadsBackIff | internal/core/fpl/parser.go:1193-1218 | With its other texts fit to print, a printed rule reads back as it was if and only if its tool is a token: an identifier, or a number with or without a unit |
| FplTexts.RuleReadsBackIff | internal/core/fpl/parser.go:1193-1218 | The printer escapes nothing: a printed rule, whatever follows, reads back as it was if and only if its tool is a token, its condition is token texts joined by blanks, and notify and reason have each quote behind a backslash that is not their last byte |
| FplTexts.VarReadsBackIff | internal/core/fpl/parser.go:1146-1160 | A printed variable reads back as it was if and only if its value is one token, or a dollar sign and one token or mark, or, where it is quoted, has each quote behind a backslash that is not its last byte |
| Window.EveryWindowCapped | internal/core/multiagent/loops.go:80-116 | A cap checked in the window that ends at each entry bounds every closed window of that length, wherever it is put |
| Window.WindowKeptIff | internal/core/multiagent/loops.go:91-98 | A log pruned at each entry holds all that the full history has from a cutoff on if and only if no entry from there on is followed by one stamped more than a window after it |
| Window.UnbrokenIff | internal/core/multiagent/loops.go:91-98 | That condition, pair by pair of entries |
| Window.SteadyIff | internal/core/multiagent/loops.go:91-98 | The condition over a run: it held of each entry's own window when the entry came |
| WindowCaps.KeptIsSurviving | internal/core/multiagent/loops.go:91-98 | On any log, what the pruned log holds from a cutoff on weighs what the entries weigh that are stamped from there on and overtaken by none more than a window ahead |
| Loops.LoopGovernor.Prune | internal/core/multiagent/loops.go:93-98 | Filtering a log in place, over the very entries being read, keeps exactly those not older than the cutoff |
| Loops.LoopGovernor.CheckAndTrack | internal/core/multiagent/loops.go:80-116 | The verdict and the new log, denied attempts logged like the others, and nothing when the configuration is inactive |
| Loops.SwitchedOff | internal/core/multiagent/loops.go:80-89 | Switched off, without a window or without a cap, the governor allows everything and logs nothing over any run |
| Loops.VerdictSeesWholeWindow | internal/core/multiagent/loops.go:90-115 | Whenever the window that ends now is unbroken, the verdict is the one computed from the key's full untruncated history, denied attempts included |
| Loops.LatestSeesClosedWindow | internal/core/multiagent/loops.go:90-115 | So it is when no attempt of the key is stamped later, and then it is the history of the closed window ending now |
| Loops.SeesWindowIff | internal/core/multiagent/loops.go:91-98 | The governor's log has all of the window ending now if and only if no attempt of that window was followed by one stamped more than a window after it |
| Loops.SeesEveryWindowIff | internal/core/multiagent/loops.go:80-116 | Over a run the governor saw the whole window at every attempt of a key if and only if the key's timestamps are steady |
| Window.OrderedIsSteady | internal/core/multiagent/loops.go:80-116 | Ordered timestamps are steady |
| Loops.CallsBounded | internal/core/multiagent/loops.go:90-109 | In every run with steady timestamps, ordered ones in particular, every closed interval of the window's length holds at most MaxCalls allowed calls of a key |
| Loops.RepeatsBounded | internal/core/multiagent/loops.go:90-115 | And at most MaxRepeats allowed calls with any one signature |
| Loops.ClockRunningBackDoublesCap | internal/core/multiagent/loops.go:91-98 | Where they are not steady the bound can fail, for every cap: after one later call as many repeats again pass at the earlier instant, twice the cap at one moment |
| Loops.VerdictExactly | internal/core/multiagent/loops.go:90-115 | Whatever the timestamps, the verdict counts the attempts of the window that ends now but for those that a later attempt, stamped more than a window after them, has pruned |
| Loops.SameSignatureIff | internal/core/multiagent/loops.go:99-124 | Two calls of one tool count as repeats of each other if and only if their arguments agree as far as the bound lets them be compared, wholly where there is none |
| Loops.ToolsShareIff | internal/core/multiagent/loops.go:99-124 | Calls of two tools can do so if and only if one name with a bar begins the other and the difference fits in the bound |
| Loops.RepeatDetectedIff | internal/core/multiagent/loops.go:90-115 | Where the window is unbroken, a burst is detected if and only if it holds MaxCalls attempts of the same agent and session, and a repeat, short of a burst, if and only if it holds MaxRepeats of them with the same tool and bounded arguments |
| Loops.RepeatOnlyIfAlike | internal/core/multiagent/loops.go:99-115 | Whatever the timestamps, no repeat is detected without that many such attempts in the window; a call unlike all of them never is one |
| Loops.RepeatsBoundedIff | internal/core/multiagent/loops.go:90-115 | A cap m on repeats alone holds of every run with given timestamps, for every signature in every closed window, if and only if the clock never leaves an interval as long as the window by more than a window and comes back to it with more than m attempts there |
| Loops.CallsBoundedIff | internal/core/multiagent/loops.go:90-109 | A cap m on calls alone holds of every run with given timestamps in every closed window if and only if no interval as long as the window has more than m times that find fewer than m earlier ones alive |
| Aggregation.AggregationGovernor.Prune | internal/core/multiagent/aggregation.go:104-111 | Filtering in place keeps the entries of the window and sums their weights |
| Aggregation.AggregationGovernor.CheckAndTrack | internal/core/multiagent/aggregation.go:92-118 | The verdict and the new log; harmless actions leave no trace, denied ones are logged |
| Aggregation.SwitchedOff | internal/core/multiagent/aggregation.go:92-101 | Switched off, without a window or without a cap, the governor stays out over any run, and so it does for harmless actions |
| Aggregation.VerdictSeesWholeWindow | internal/core/multiagent/aggregation.go:92-118 | Whenever the window that ends now is unbroken, the verdict is the one computed from the session's full history, denied actions included |
| Aggregation.LatestSeesClosedWindow | internal/core/multiagent/aggregation.go:92-118 | So it is when no risky action of the session is stamped later, and then it is the history of the closed window ending now |
| Aggregation.SeesWindowIff | internal/core/multiagent/aggregation.go:104-111 | The governor's log has all of the window ending now if and only if no action of that window was followed by one stamped more than a window after it |
| Aggregation.SeesEveryWindowIff | internal/core/multiagent/aggregation.go:92-118 | Over a run the governor saw the whole window at every risky action of a session if and only if its timestamps are steady |
| Aggregation.RiskBounded | internal/core/multiagent/aggregation.go:102-117 | In every run with steady timestamps, ordered ones in particular, the risk weight allowed to a session in any closed interval of the window's length is at most the cap |
| Aggregation.ClockRunningBackExceedsCap | internal/core/multiagent/aggregation.go:104-111 | Where they are not steady the bound can fail: after one later action, an action back at the time of one that used up the cap is allowed on top of it |
| Aggregation.VerdictExactly | internal/core/multiagent/aggregation.go:92-118 | Whatever the timestamps, the verdict weighs the risky actions of the window that ends now but for those that a later one has pruned |
| Aggregation.RiskBoundedIff | internal/core/multiagent/aggregation.go:92-118 | Every cap holds of every run with given timestamps, whatever the weights, in every closed window, if and only if the clock never leaves an interval as long as the window by more than a window and comes back to it |
| Routing.RoutingGovernor.CheckInvocation | internal/core/multiagent/routing.go:84-126 | The answer by the first matching entry, the undeclared policy, the counter and the approval flag |
| Routing.RoutingGovernor.RecordInvocation | internal/core/multiagent/routing.go:129-137 | One counter goes up by one, all others stay |
| Routing.RoutingGovernor.ReplaceManifests | internal/core/multiagent/routing.go:61-69 | Exactly the new manifests, the counters untouched |
| Routing.LastManifestHolds | internal/core/multiagent/routing.go:61-69 | Of several manifests of one orchestrator the last one holds |
| Routing.RoutingGovernor.Admit | internal/core/pipeline.go:541-571 | The gate lets a call on, denies or defers it as the routing governor's answer says |
| Routing.RoutingGovernor.Settle | internal/core/pipeline.go:914-918 | A permitted invocation of a governed orchestrator is counted, nothing else is |
| Routing.IsInvokeIff | internal/core/topology.go:7-12 | Governed are calls of invoke_agent, by its bare name or by any name that ends in it behind a slash |
| Routing.UndeclaredTurnedAway | internal/core/multiagent/routing.go:90-111 | In every interleaving a governed call to an undeclared target is turned away: denied where the policy is "deny" or not set, deferred under any other |
| Routing.DeclaredDecided | internal/core/pipeline.go:541-571 | In every interleaving the first entry for the target decides: past its cap, against the permitted invocations under the key, the call is denied, else it waits if it needs approval, else it goes on |
| Routing.SettledIff | internal/core/pipeline.go:914-918 | A counter moves for permitted governed calls with a target, and for these only |
| Routing.CounterCountsKey | internal/core/multiagent/routing.go:129-137 | In every interleaving a counter holds the number of permitted invocations of its target under its key |
| Routing.CapUnderConcurrency | internal/core/pipeline.go:541-571 | With at most k calls between check and recording, an orchestrator invokes a target with cap m at most m + k - 1 times in a session, in every interleaving |
| Routing.BoundIsReached | internal/core/pipeline.go:914-918 | For all m and k some interleaving reaches m + k - 1: check and recording are two critical sections |
| Routing.OnlyDeclaredPermitted | internal/core/multiagent/routing.go:102-125 | In every interleaving no invocation is permitted that is undeclared or needs approval first |
| Routing.OwnCounterIff | internal/core/multiagent/routing.go:129-137 | In every interleaving a counter is the number of its own orchestrator's invocations and of no others if and only if no other orchestrator that may invoke the target has a name that, followed by a colon, begins the key |
| Routing.CounterUnderConcurrency | internal/core/multiagent/routing.go:84-137 | When no other orchestrator can invoke the target under the key, the counter itself stays within m + k - 1 |
| Routing.KeysShareIff | internal/core/multiagent/routing.go:116 | Two orchestrators have a key in common, in some sessions, if and only if one name with a colon begins the other with a colon |
| Routing.SharedSomewhereIff | internal/core/multiagent/routing.go:116 | A target's counters are shared in some session if and only if another orchestrator of an overlapping name may invoke it |
| Routing.SharedCounterDenies | internal/core/multiagent/routing.go:116-122 | Where two orchestrators share a key, one invocation by the other uses up a cap of one that its owner has not touched |
| Budget.BudgetManager.AllocateAgent | internal/core/multiagent/budget.go:55-78 | Refused for a known agent or past the aggregate, else a fresh budget; the sum is that of all agents in whatever order they come up |
| Budget.BudgetManager.RecordCost | internal/core/multiagent/budget.go:82-127 | The charge is booked first, then the agent, or everyone, is cancelled; the callback hears of each newly cancelled agent exactly once |
| Budget.BudgetManager.CancelAll | internal/core/multiagent/budget.go:105-117 | Everyone is cancelled and, if there is a callback, exactly those not cancelled before are told, once each |
| Budget.BudgetManager.Reserve | internal/core/multiagent/budget.go:130-150 | A reservation that fits the agent and the aggregate is added, every other is refused and changes nothing |
| Budget.AllocatedIff | internal/core/multiagent/budget.go:55-78 | An agent is allocated if and only if it is new and all allocations, its own included, fit in the aggregate |
| Budget.AnswersTell | internal/core/multiagent/budget.go:82-150 | A caller is told to cancel an agent if and only if it is cancelled by then, and each refusal names its own reason |
| Budget.AlwaysBalanced | internal/core/multiagent/budget.go:55-150 | In every run the aggregate spent is the sum of what the agents spent, and the allocations add up to at most the aggregate, whatever the amounts |
| Budget.AlwaysAgentsOk | internal/core/multiagent/budget.go:82-150 | In every run of non-negative amounts whoever is over its maximum is cancelled, and past the aggregate every agent is cancelled or has spent nothing |
| Budget.CancelledIffOver | internal/core/multiagent/budget.go:97-126 | An agent that spent anything is cancelled if and only if it, or the aggregate, went over |
| Budget.OverrunIsLastCharge | internal/core/multiagent/budget.go:94-102 | No agent exceeds its maximum by more than its last charge |
| Budget.BooksAddUp | internal/core/multiagent/budget.go:82-150 | In every run an agent has spent exactly the charges made while it was allocated and not cancelled, and holds exactly the reservations that fitted |
| Budget.GrantFits | internal/core/multiagent/budget.go:130-150 | A reservation is granted if and only if it fits in what the agent and the aggregate have left; then spent and reserved together are within the maximum |
| Budget.OverAggregateMeansAgentOver | internal/core/multiagent/budget.go:63-71 | The aggregate is exceeded only where some agent exceeded its own budget |
| Budget.AggregateOverrunIff | internal/core/multiagent/budget.go:82-127 | In every run of non-negative amounts the aggregate is overrun by more than the last charge if and only if that charge went to an agent allocated when the aggregate had been exceeded already |
| Budget.LateChargeIsBooked | internal/core/multiagent/budget.go:55-127 | Allocation is not blocked past the aggregate, and the new agent's first charge is booked whole, whatever it is |
| Linkage.Walk.CollectChain | internal/core/multiagent/linkage.go:79-91 | The recursive search with its shared chain and visited set yields, on every graph, what the functional search does; it terminates |
| Linkage.VisitedAreReachable | internal/core/multiagent/linkage.go:79-91 | The records visited from a start are exactly those reachable from it over links |
| Linkage.ChainIsReachableLinks | internal/core/multiagent/linkage.go:69-91 | On every graph, cyclic or not, a link is in the chain as often as it was recorded if its outer record is reachable, and not at all otherwise |
| Linkage.CollectConnected | internal/core/multiagent/linkage.go:79-91 | Every link of the chain follows one that leads to its outer record, or starts at the start |
| Linkage.LinkageManager.ChainFromDPR | internal/core/multiagent/linkage.go:69-77 | The chain holds exactly the recorded links with a reachable outer record, each recorded link once, in a connected order |
| Linkage.LinkageManager.RecordLink | internal/core/multiagent/linkage.go:40-46 | The link is appended, and both indexes keep holding the recorded links by agent, in order |
| Linkage.LinkageManager.InvokedBy | internal/core/multiagent/linkage.go:49-56 | The recorded links with the agent as the inner one, in order |
| Linkage.LinkageManager.LinksForSession | internal/core/multiagent/linkage.go:103-113 | The recorded links of the session, in order |
| DeferWorkflow.Workflow.DeferWithToken | internal/core/defer/workflow.go:138-158 | A pending token keeps its handle; any other, finalized or not, gets a new one with an empty channel |
| DeferWorkflow.Workflow.ResolveInternal | internal/core/defer/workflow.go:211-254 | The winner's resolution is stored and reaches the handle; everybody else gets a conflict with the stored status, or an unknown token, and changes nothing |
| DeferWorkflow.Workflow.Resolve | internal/core/defer/workflow.go:188-196 | Succeeds if and only if the token is pending, and sends the approval or denial |
| DeferWorkflow.Workflow.ResolveWithModifiedArgs | internal/core/defer/workflow.go:200-209 | The same with an approval that carries the modified arguments |
| DeferWorkflow.Workflow.Status | internal/core/defer/workflow.go:258-268 | Pending first, then the stored status, expired for a token never seen |
| DeferWorkflow.OneResolutionPerHandle | internal/core/defer/workflow.go:211-254 | In every interleaving each handle is pending, or won by one sender, or has had its one resolution, exactly one of the three |
| DeferWorkflow.ChannelNeverFull | internal/core/defer/workflow.go:241-253 | In every interleaving whoever is about to send finds the channel empty: the branch for a full one is never taken |
| DeferWorkflow.LaterResolversConflict | internal/core/defer/workflow.go:211-230 | Once a resolver or timer has won a token, and until the token is deferred again, all others get a conflict with the winner's status |
| DeferWorkflow.NeverDeferredUnknown | internal/core/defer/workflow.go:211-268 | In every interleaving a token that was never deferred counts as expired and is unknown to every resolver |
| DeferWorkflow.FirstResolverWins | internal/core/defer/workflow.go:211-254 | From the first win on only the winner's resolution can reach the handle, and it does once its sender has run |
| DeferWorkflow.PendingHasTimer | internal/core/defer/workflow.go:162-169 | Whenever a token is pending, the timer of its handle is running, and firing it would expire it |
| DeferWorkflow.TimerLeavesExpired | internal/core/defer/workflow.go:162-169 | A timer that fires while its token is pending leaves the token expired, not approved and without arguments |
| DeferWorkflow.TimerExpiresFiled | internal/core/defer/workflow.go:162-169 | In every reachable state a timer that fires while its token is pending expires the handle filed under the token, its own or a later one: its own if and only if that is the one filed |
| DeferWorkflow.FinalizedTokenReopens | internal/core/defer/workflow.go:140-157 | Deferring a finalized token opens it again on a new handle, and its old outcome is no longer reported |
| DeferWorkflow.StaleTimerIff | internal/core/defer/workflow.go:138-169 | A handle that a deferral opens can be expired by another handle's timer, its own still running, if and only if a timer for its token was still running when it was opened |
| DeferWorkflow.StaleTimerExpiresReopened | internal/core/defer/workflow.go:162-169 | So after deferral, resolution and deferral again of one token the first handle's timer expires the second, whose own is left running |

## Left out

- Wal.WritesAfterCrash: assumes of JSON that no decoded text holds a NUL byte or starts with a byte of the frame magic, and a cut-off payload of at least 4 bytes; for a torn header of 8 to 11 bytes the reader would otherwise depend on the checksum.
- WalLife.AcknowledgedReadIff: assumes of JSON that no decoded text holds a NUL byte, and of the payload that the reader accepts it. After a failure inside a frame further failing bytes could complete a record only by chance of the checksum, so the condition is stated of the file, which can be scanned before the write, and not of the list of events.
- WalLife.Durable: leaves aside failures inside a frame and crashes inside a header, for which `WalLife.AcknowledgedReadIff` says what is lost.
- Wal.WAL.Write: file positions, locks and the bytes that a page cache may reorder are not modelled; the file is the sequence of bytes that got out.
- Pipeline.SerialLogAccepted: the log of the run model is the list of acknowledged records, which `DecisionLog` compares with the file; the HMAC signature of a record is a field like any other.
- Pipeline.NoDecisionWithoutRecord: speaks of the acknowledged records; whether the file still gives them back is `DecisionLog.ReturnedReadIff`.
- DecisionLog.LifeAcceptedIff: of processes without a failing write, with one call per agent at a time, and with no crash inside a header; what a process of another kind loses is in `DecisionLog.ReturnedReadIff` and `WalLife.AcknowledgedReadIff`.
- Pipeline.AcceptedIffInBuildOrder: assumes that SHA-256 tells apart the canonical forms of the records built in the run, and these from the texts of the genesis markers.
- Pipeline.DecisionPipeline.Build: the draft is given, that is, which field of request and decision goes to which field of the record; the effect is not part of it.
- FplTools.ToolReadsBackIff: leaves aside a tool with a comment sign in a rule with a newline, and so does `FplTexts.RuleReadsBackIff`; `FplFixpoint.ParsedRulesSurvive` takes its condition as a hypothesis for whole lists.
- FplTexts.VarReadsBackIff: takes the variable's name to be an identifier; a number as a name can be joined with the value behind it.
- FplAgents.AgentReads: variables and the amounts of budgets are in `FplReparse.PrintThenParse` instead, and names and values are single tokens.
- FplReparse.PrintThenParse: the quoting of values by non-ASCII white space is not modelled; texts are sequences of characters, not UTF-8 bytes.
- FplParser.Parser.ParseAgentBlock: the delegate, ambient, selector and credential blocks of an agent are one error of their own.
- FplParser.ParseDocument: the blocks system, manifest, delegate, ambient, selector and credential are one error of their own, error messages are reduced to their kind and line, and of the parser it is not stated which line an error names.
- Loops.VerdictSeesWholeWindow: the configuration is fixed during a run; times are unbounded integers, and the text that fmt makes of arguments is given.
- Aggregation.RiskBoundedIff: its condition is for all caps and weights together; for one cap it depends on how the weights fill it.
- MerkleProofs.InclusionAnySize: assumes that no pair hashed by the verifier hashes to a leaf, record hashes and node hashes being hashes of different texts.
- Aggregation.RiskBounded: the weight of an action is given; the configuration is fixed during a run.
- Routing.CapUnderConcurrency: the manifests are fixed during a run, and all gates of Evaluate but routing are one nondeterministic verdict.
- Budget.AlwaysAgentsOk: amounts are real numbers, so the rounding of float64 sums is not modelled; amounts are taken as non-negative there.
- DeferWorkflow.OneResolutionPerHandle: triage is absent, the moment a timer fires is arbitrary after its creation, and the random tokens of Defer are parameters.
- ComplianceExport.BuildComplianceExportBundle: the records with their filled-in hashes are returned rather than written through pointers; timestamps and nil records are left out.
- MerkleProofs.VerifyInclusionProof: a nil proof pointer is not modelled.
- Record fields that hold values of any type (selector snapshot, operator results) are not part of this model; they lie outside the canonical form.
- Evaluation of policy expressions, tool matching, session, sandbox and postcondition checks: their facts are those of a library or of one branch.
- Stores (SQLite, Postgres, Redis, River), the Horizon syncer, webhooks, Slack and PagerDuty, metrics, HTTP, gRPC, MCP and eBPF adapters, credential backends and the command line: input and output only.
- Triage, phase manager, sync gate, batch manager, sub-policies, degraded modes, bootstrap and seal: they would add easy members only.
- The iteration loops of the loop governor (StartLoop, RecordIteration) and the output rules of the aggregation governor: counters and regular expressions decided in one call.
- The promise that a strict denial cannot be overridden: the evaluator is first-match, so the parser and printer of the strict effect are modelled and the promise is not.
