# Verified models of ETHOS-AEGIS

Dafny models of the engines of this repository whose behaviour is hardest to get right, with proofs about every input,
every run or every interleaving. One module stands for one source file or for one component of it; a class or a method
with a loop stands where the source updates state or loops, and is proved against a function about which the results
are then stated.

`dafny verify dfyconfig.toml` checks the whole project.

## What is modelled

- **AtomicStore**, the keyed store of `src/aegis-cdm-mesh.ts`: any number of `mutate` calls in flight, each step a
  stretch of code between two awaits, resumed by a queue of promise jobs that is first in, first out, with arrivals
  anywhere between two jobs. A result that is itself a promise delays the release until it settles. Linearizability comes from the callback, which contains no await, and not from
  the lock: line 28 deletes whatever entry the key has.
- **StableHash**, `sortKeys` and the 32-bit loop of `stableHash`, over JSON values.
- **LogicLaws**, the boolean simplifier.
- **FormulaForge**, the least-squares fit and the figures of `score_expression`, over reals.
- **GeminiContents**, the conversion of a message list into alternating turns.
- **HashChain**, **AuditChain** and **EvidenceLedger**, the receipt chain and the bounded ledger with retention. Digest,
  signature and seal are arbitrary functions; what must not collide is named by the lemmas that need it, entry by entry.
- **JsonValues**, how Python writes and reads back the metadata and the other values of the ledger's file.
- **Paths** and **Policy**, canonical paths, the scope matcher and the reference monitor. `fnmatchcase` within a segment
  is an arbitrary predicate. Upper-casing of a file stem is the ASCII one; no other letter upper-cases to one that
  occurs in a device name.
- **Purify**, the four substitutions of `SanitasSwarm.purify`, written as scanners.
- **Mnemosyne**, the engram memory and its four-phase consolidation. Lower-casing, traces and fingerprints are arbitrary
  functions.
- **StressBuffer**, the token bucket, the circuit breaker and the throttle, over reals with a supplied clock.
- **SecretBroker** and **SecretOutput**, the lease machine, asking the policy engine of **Policy**, and the inspection of
  what an adapter returns, over an arbitrary object graph with sharing and cycles. An execution is two steps, before and
  after the adapter, with any other calls between them. Every receipt goes to an **AuditChain**.
- **WorldLines**, distances, arc lengths and geodesic reports. The square root is any function that gives non-negative
  roots, and `round` any monotone rounding to a nearest integer.
- **Celestial**, the glyph cipher, for an arbitrary digest function.
- **Common** and **Reals** hold what several of them share: options and results, bytes, one sequence inside another, the
  order of texts, and sums and squares of reals.

Where the code and its own descriptions disagree, the model follows the code:

- The lock of `MemoryAtomicStateStore` gives neither mutual exclusion nor arrival order (`LockDoesNotExclude`); exactly
  from which states the calls present still get both is `OrderIffChained`, and exactly which arrivals keep it so is
  `ArrivalKeepsChainIff`.
- A ledger without events whose anchor is the empty string, `null`, a number or another value that is no text is accepted
  as starting from genesis or from what `str` makes of it, and its next append fails its own self-check
  (`AppendIsAcceptedIff`, `OrphanIsRejected`, `SpellingsOfAStart`). No run from an empty path gets there.
- Metadata with number keys can be recorded and then makes the ledger refuse its own file (`WrittenLoadsIff`,
  `RunLoadsIff`, `NumberKeysStopTheLedger`).
- `execute` promises a receipt for every call of an adapter and handles only `Exception` from the adapter and the broker's
  own errors from the inspection. Nothing is written when the adapter is interrupted by something else, such as
  `SystemExit`; when the first fault of its result is a text with lone surrogates or a released view; or when the result
  passes the inspection and cannot be encoded, as an integer of too many digits (`ReceiptsOfExecute` has the exact
  condition, `RunWithoutReceipt` the cases).
- `decode_message` is called the inverse of `encode_message`; a message that spells out a glyph decodes to something else
  (`SpelledGlyphIsMisread`), and the exact condition is `RoundTripIff`.
- The authority that contracts with risk is the set of grants, not the decision: without approval a gated grant that
  falls away can turn REQUIRE_APPROVAL into ALLOW (`RisingRiskCanAllow`, `RiskContractsAuthority`).
- Behind `adjudicate_with_vitality` an open circuit never closes (`GateLatchesOpen`, `GatedClosedIff`); exactly when it
  opens is `GatedOpenIff`, and ten threats at one instant do it (`BurstOpensGate`).
- A line through points with different x values is not found when the denominator is under the tolerance
  (`ToleranceHidesLine`), and is scored as six decimals show it (`LinearDataFitsIffShownExactly`).
- A lone star among empty and dot segments, such as `./*` or `*/`, canonicalizes to the universal `*`
  (`DotStarIsUniversal`; exactly these do, `UniversalIff`), and one malformed scope denies all (`MalformedScopeDenies`).
- A world-line that returns to its start is reported as turbulent even if it never moved (`ReturningIsHighDeviation`).

## Model

| member | source | states |
|---|---|---|
| `AtomicStore.EveryRunIsLinearized` | src/aegis-cdm-mesh.ts:33-44 | in every interleaving of any number of mutate calls the store equals a sequential one that runs the logged calls in turn: each call that has run occurs in the log once, holds the answer of its own point, and every key holds the replayed state; a throwing mutation changes nothing |
| `AtomicStore.LogRespectsRealTime` | src/aegis-cdm-mesh.ts:33-44 | a call that had run before another one arrived precedes it in the log |
| `AtomicStore.RunsOnlyExtend` | src/aegis-cdm-mesh.ts:15-44 | a longer interleaving only adds to a shorter one: arrivals, log entries and outcomes are never taken back |
| `AtomicStore.EveryRunHasSoundLocks` | src/aegis-cdm-mesh.ts:15-31 | in every reachable state each wait is for an earlier call on the same key, and each lock entry names an unreleased call on its key |
| `AtomicStore.QuiescentKeyHasNoLock` | src/aegis-cdm-mesh.ts:28-29 | a key whose calls are all done has no lock entry |
| `AtomicStore.NeverStuck` | src/aegis-cdm-mesh.ts:17-30 | while a call is in flight the oldest job can run or an adopted promise can settle, and that step is counted once |
| `AtomicStore.AllCallsCanFinish` | src/aegis-cdm-mesh.ts:15-44 | from every reachable state the calls in flight can all finish, in as many steps as they still lack of two, or of four where the result is a promise |
| `AtomicStore.EverySchedulePays` | src/aegis-cdm-mesh.ts:15-44 | along any schedule of the calls in flight each step is counted once, two in all for a call and four for one whose result is a promise, so every schedule ends |
| `AtomicStore.ScheduleEndsIff` | src/aegis-cdm-mesh.ts:15-44 | a schedule from a reachable state is as long as the steps its calls have taken since, and ends with all calls done exactly when no step is possible, the settling of promises included |
| `AtomicStore.QueueIsExact` | src/aegis-cdm-mesh.ts:22-29 | in every reachable state the queue of promise jobs holds exactly the jobs that calls are ready for, each once, so the oldest job can run; no two calls wait for one promise |
| `AtomicStore.QueueIsEmptyIff` | src/aegis-cdm-mesh.ts:22-42 | the queue runs dry exactly when every call is done, has adopted a promise as its result, or waits behind such a call |
| `AtomicStore.BlockedStays` | src/aegis-cdm-mesh.ts:25-42 | a result that never settles keeps every call behind it waiting, whatever arrives and whatever else proceeds |
| `AtomicStore.LockDoesNotExclude` | src/aegis-cdm-mesh.ts:28 | with any request whose mutation hands on no promise there is a run, first in first out, in which the calls 2 and 3 of one key are past their callback and unreleased and have run in the order 3, 2: the lock gives neither mutual exclusion nor arrival order |
| `AtomicStore.OrderIffChained` | src/aegis-cdm-mesh.ts:15-31 | the calls present keep exclusion and order, whatever arrives and settles later, exactly when each call behind an unreleased one waits for some call, or is still to run with that release due before it; the same condition is exact without further arrivals |
| `AtomicStore.ChainLasts` | src/aegis-cdm-mesh.ts:15-31 | that condition on the calls present outlasts every later arrival and job |
| `AtomicStore.ArrivalKeepsChainIff` | src/aegis-cdm-mesh.ts:17-22 | an arrival keeps that condition exactly when it finds a lock entry or every call on its key is done or about to release, not waiting for the promise of its result |
| `AtomicStore.MemoryAtomicStateStore.constructor` | src/aegis-cdm-mesh.ts:11-13 | a new store has no states, no locks and no calls |
| `AtomicStore.MemoryAtomicStateStore.Arrive` | src/aegis-cdm-mesh.ts:15-22 | up to the first await: the call remembers the entry it found and puts its own in place, the specified step of the machine |
| `AtomicStore.MemoryAtomicStateStore.RunCallback` | src/aegis-cdm-mesh.ts:38-43 | the callback without await: reads the key or the initial state, applies the mutation once, stores the result or leaves the store as it is when the mutation throws |
| `AtomicStore.MemoryAtomicStateStore.AdoptResult` | src/aegis-cdm-mesh.ts:42 | a result that is a promise is adopted in a job of its own |
| `AtomicStore.MemoryAtomicStateStore.SettleResult` | src/aegis-cdm-mesh.ts:26 | once that promise has settled the release is due |
| `AtomicStore.MemoryAtomicStateStore.ReleaseLock` | src/aegis-cdm-mesh.ts:27-30 | deletes whatever entry the key has, and releases the call |
| `StableHash.SortKeysIffSame` | src/aegis-cdm-mesh.ts:47-55 | two values have the same sorted form exactly when they are equal up to key order at every depth |
| `StableHash.AscendingIsUnique` | src/aegis-cdm-mesh.ts:51 | a strictly ascending key list is determined by its keys, so sorting has one result |
| `StableHash.SortKeysSorts` | src/aegis-cdm-mesh.ts:47-55 | the sorted form has its keys in ascending order at every depth, lists each field once, and is the same value otherwise |
| `StableHash.ConstantsAreFnv` | src/aegis-cdm-mesh.ts:58-63 | the start value and the multiplier are those of the 32-bit FNV-1a function |
| `StableHash.StepIsBijective` | src/aegis-cdm-mesh.ts:61-62 | one turn of the loop is a bijection on 32-bit words for each code unit, undone by multiplying with 0x359C449B |
| `StableHash.StepSeparatesUnits` | src/aegis-cdm-mesh.ts:61-62 | from one state, different code units lead to different states |
| `StableHash.XorCancels` | src/aegis-cdm-mesh.ts:61 | exclusive-or with the same number twice is the identity |
| `StableHash.HashIsInjectiveInState` | src/aegis-cdm-mesh.ts:60-63 | a common continuation keeps different states different |
| `StableHash.OneUnitNeverCollides` | src/aegis-cdm-mesh.ts:58-63 | texts that differ in exactly one code unit have different hash states |
| `StableHash.HexFormReadsBack` | src/aegis-cdm-mesh.ts:64 | the padded form has eight digits and reads back as the hash |
| `StableHash.ComputeStableHash` | src/aegis-cdm-mesh.ts:57-65 | the loop computes the specified hash; its eight digits have the value of the final state |
| `StableHash.StableHashIgnoresKeyOrder` | src/aegis-cdm-mesh.ts:57-65 | values equal up to key order at every depth hash alike |
| `StableHash.StableHashSeparatesOneUnit` | src/aegis-cdm-mesh.ts:57-65 | values whose canonical texts differ in one code unit have different printed hashes |
| `LogicLaws.Simplify` | python/ethos_aegis/veriflow/logic_laws.py:56-106 | terminates on every expression, with a result no heavier than its input; the weight, which doubles under a negation, is what makes the calls on rebuilt terms legal |
| `LogicLaws.DeMorganIsLighter` | python/ethos_aegis/veriflow/logic_laws.py:66-69 | the rebuilt De Morgan terms are strictly lighter than the negation they replace |
| `LogicLaws.SimplifyPreservesMeaning` | python/ethos_aegis/veriflow/logic_laws.py:56-106 | the truth value is unchanged under every assignment |
| `LogicLaws.SimplifyReachesNormalForm` | python/ethos_aegis/veriflow/logic_laws.py:56-106 | the result has constants at the root only, negation on symbols only, and no equal or left-absorbable operands |
| `LogicLaws.FixedIffNormal` | python/ethos_aegis/veriflow/logic_laws.py:56-106 | the terms simplification leaves alone are exactly the normal forms |
| `LogicLaws.SimplifyIsIdempotent` | python/ethos_aegis/veriflow/logic_laws.py:56-106 | simplifying twice is simplifying once |
| `LogicLaws.SimplifyAddsNoSymbol` | python/ethos_aegis/veriflow/logic_laws.py:56-106 | no symbol appears that was not there |
| `LogicLaws.SimplifyAddsNoLeaf` | python/ethos_aegis/veriflow/logic_laws.py:56-106 | the number of leaves never grows |
| `LogicLaws.NegationIsComplement` | python/ethos_aegis/veriflow/logic_laws.py:60-70 | negating a normal form gives its De Morgan dual with every literal complemented, without collapse or reordering |
| `LogicLaws.DoubleNegationVanishes` | python/ethos_aegis/veriflow/logic_laws.py:64-65 | a double negation simplifies to the very same term as its operand |
| `FormulaForge.DenominatorVanishesIff` | python/ethos_aegis/veriflow/formula_forge.py:220-222 | n Σx² − (Σx)² is never negative, and zero exactly when all x are equal |
| `FormulaForge.NormalEquations` | python/ethos_aegis/veriflow/formula_forge.py:223-224 | the residuals of the fitted line sum to zero, plain and weighted by x |
| `FormulaForge.FitIsLeastSquares` | python/ethos_aegis/veriflow/formula_forge.py:223-224 | no line has a smaller squared error than the fitted one, and only the fitted one has as small an error |
| `FormulaForge.ExactLineIsRecovered` | python/ethos_aegis/veriflow/formula_forge.py:223-224 | data on a line gives back that line |
| `FormulaForge.FittedLine` | python/ethos_aegis/veriflow/formula_forge.py:220-224 | the two divisions solve the equations the fit is defined by |
| `FormulaForge.SingleFeatureLinearFit` | python/ethos_aegis/veriflow/formula_forge.py:204-227 | fewer than two points, a denominator under 1e-9, or a fitted line that no other line beats, with the score of the line its six decimals show; points on a line give that line exactly when the denominator reaches 1e-9; the degenerate coverage is points over rows |
| `FormulaForge.DenominatorShifts` | python/ethos_aegis/veriflow/formula_forge.py:220 | around any value, the denominator is n times the spread less the square of the gap between n times the value and the sum |
| `FormulaForge.Accumulate` | python/ethos_aegis/veriflow/formula_forge.py:178-193 | the loop collects the rows that evaluate and sums their absolute errors |
| `FormulaForge.ScoreExpression` | python/ethos_aegis/veriflow/formula_forge.py:176-202 | the specified figures over the rows that evaluate |
| `FormulaForge.ScoreIsBounded` | python/ethos_aegis/veriflow/formula_forge.py:194-202 | score, fit, coverage and stability lie between 0 and 1; fit is 1 exactly when every prediction is its truth, score is 1 exactly when besides every row counts |
| `FormulaForge.LineFitsIffExact` | python/ethos_aegis/veriflow/formula_forge.py:225-227 | the line that is scored fits perfectly exactly when its squared error is 0 |
| `FormulaForge.LinearDataFitsIffShownExactly` | python/ethos_aegis/veriflow/formula_forge.py:223-227 | data on a line with two x values scores a perfect fit exactly when the scored line is that line, that is, when six decimals show it exactly |
| `FormulaForge.ToleranceHidesLine` | python/ethos_aegis/veriflow/formula_forge.py:221-222 | two points with different x values whose denominator is positive and under the tolerance |
| `FormulaForge.OnLineIffNoError` | python/ethos_aegis/veriflow/formula_forge.py:204-227 | the squared error is 0 exactly when every point is on the line |
| `FormulaForge.ScoreIs` | python/ethos_aegis/veriflow/formula_forge.py:194-202 | fit is 1 less mean error over span and stability 1 less deviation over the larger of 1 and the mean's size, neither below 0; coverage is pairs over rows, and score 0.7 fit + 0.3 coverage; the quotients are given by what they multiply to |
| `FormulaForge.SpanIs` | python/ethos_aegis/veriflow/formula_forge.py:195 | the span is the largest difference of two truths, or 1 if that is more |
| `FormulaForge.DeviationIs` | python/ethos_aegis/veriflow/formula_forge.py:258-263 | the deviation is the root of the squared distances from the mean shared among one less than there are values, and 0 for one value |
| `FormulaForge.LinePredictionsAre` | python/ethos_aegis/veriflow/formula_forge.py:204-227 | the line's prediction and the target of each row that has both fields, and nothing for any other |
| `GeminiContents.BuildEvents` | python/ethos_aegis/agent/adapters/gemini_adapter.py:43-54 | the event list is the system text, if any, and the messages in order |
| `GeminiContents.Group` | python/ethos_aegis/agent/adapters/gemini_adapter.py:56-75 | system texts next to each other become one prelude, in place |
| `GeminiContents.GroupedIsWellGrouped` | python/ethos_aegis/agent/adapters/gemini_adapter.py:56-75 | no two preludes are next to each other |
| `GeminiContents.GroupingKeepsMessages` | python/ethos_aegis/agent/adapters/gemini_adapter.py:56-75 | grouping loses and reorders no message |
| `GeminiContents.EmitPrelude` | python/ethos_aegis/agent/adapters/gemini_adapter.py:97-131 | the turns a prelude adds, for each of its branches |
| `GeminiContents.ToGeminiContents` | python/ethos_aegis/agent/adapters/gemini_adapter.py:13-141 | every turn is a prelude's own text, an acknowledgement, an empty first turn or a stretch of real messages of one role; every item occurs once and in order, nothing is merged with a prelude, roles alternate from user on, and synthetic turns stand only where alternation or a lone prelude needs them |
| `GeminiContents.ContractDeterminesOutput` | python/ethos_aegis/agent/adapters/gemini_adapter.py:20-39 | the written contract leaves one possible output |
| `GeminiContents.ContentSurvives` | python/ethos_aegis/agent/adapters/gemini_adapter.py:88-94 | in a merged turn each content stands whole, after what was said before it |
| `GeminiContents.OutputStandsForMessages` | python/ethos_aegis/agent/adapters/gemini_adapter.py:41-75 | every output under the contract accounts for all messages in order and each once: a real item for each message that is no system message, with its content, on the model side exactly when its role is assistant or model, and a prelude for each stretch of system texts, each under its heading; a missing role counts as user, missing content as empty |
| `GeminiContents.MergedIsLines` | python/ethos_aegis/agent/adapters/gemini_adapter.py:88-94 | the text of a turn is its contents on lines of their own, from the first that is not empty on |
| `GeminiContents.LonePrelude` | python/ethos_aegis/agent/adapters/gemini_adapter.py:97-128 | system texts alone become a user turn and its acknowledgement |
| `GeminiContents.LoneAnswer` | python/ethos_aegis/agent/adapters/gemini_adapter.py:131-139 | a lone model message follows an empty user turn |
| `GeminiContents.LoneQuestion` | python/ethos_aegis/agent/adapters/gemini_adapter.py:131-139 | a lone user message stands alone |
| `GeminiContents.OutputIsEmptyIff` | python/ethos_aegis/agent/adapters/gemini_adapter.py:77-78 | nothing comes out exactly when there is neither message nor system text |
| `HashChain.Verify` | python/ethos_aegis/private_shield/audit.py:100-118 | the verification loop accepts exactly the chains in which every entry is authentic and names the hash before it |
| `HashChain.AppendKeepsLinked` | python/ethos_aegis/private_shield/audit.py:62-98 | appending a sealed entry keeps the chain linked |
| `HashChain.LinkedSplits` | python/ethos_aegis/private_shield/audit.py:100-118 | any cut of a verified chain leaves two verified chains, the later from the hash before it |
| `HashChain.HeadDeterminesChain` | python/ethos_aegis/private_shield/audit.py:100-118 | linked chains of one length with one head are equal and start from the same hash, unless an entry of one shares its hash with a different entry of the other |
| `AuditChain.NewAuditChain` | python/ethos_aegis/private_shield/audit.py:43-47 | a signing key under 16 bytes is refused; otherwise a new chain, empty and valid |
| `AuditChain.AuditChain.Append` | python/ethos_aegis/private_shield/audit.py:53-98 | adds one receipt made of the identifier, the request, the decision and the hashed materials, sealed on the last hash, and keeps the chain valid |
| `AuditChain.AuditChain.VerifyReceipts` | python/ethos_aegis/private_shield/audit.py:100-118 | accepts exactly the linked chains from genesis |
| `AuditChain.RecordedSays` | python/ethos_aegis/private_shield/audit.py:64-77 | a receipt says what its evidence says, field by field, with the decision as ALLOW, DENY or REQUIRE_APPROVAL |
| `AuditChain.BuiltChainsVerify` | python/ethos_aegis/private_shield/audit.py:53-118 | every chain built by appending verifies, and so does every prefix, which is the chain of the first appends |
| `AuditChain.LastHashIdentifies` | python/ethos_aegis/private_shield/audit.py:100-118 | two verified chains with one last hash are equal, unless they collide or a receipt has the genesis hash |
| `AuditChain.LastHashTellsIff` | python/ethos_aegis/private_shield/audit.py:41-118 | of every digest: the last hash tells all verified chains apart exactly when no verified chain comes back to the genesis hash and no two collide |
| `JsonValues.RereadIsSameIff` | python/ethos_aegis/mythos_runtime/assurance.py:37-38 | a written value is read back and written again as itself exactly when its keys ascend strictly at every depth |
| `JsonValues.RereadTwice` | python/ethos_aegis/mythos_runtime/assurance.py:37-38 | reading back and writing settles after one time |
| `JsonValues.InOrderKeepsLast` | python/ethos_aegis/mythos_runtime/assurance.py:37-38 | reading a mapping keeps exactly the last entry of each key |
| `JsonValues.WrittenIff` | python/ethos_aegis/mythos_runtime/assurance.py:37-38 | what can be written: values that have a form all the way down, in mappings whose keys are all texts or all numbers or that have one key only |
| `JsonValues.TextFieldsAre` | python/ethos_aegis/mythos_runtime/assurance.py:37-38 | text keys are written in ascending order with the last value of each, and no other field is |
| `JsonValues.NumberFieldsAre` | python/ethos_aegis/mythos_runtime/assurance.py:37-38 | number keys are written in rising order under their spellings with the last value of each, and no other field is |
| `JsonValues.TextKeysSurvive` | python/ethos_aegis/mythos_runtime/assurance.py:37-38 | metadata whose keys are all texts survives whenever it can be written |
| `JsonValues.TwoNumbersSurviveIff` | python/ethos_aegis/mythos_runtime/assurance.py:37-38 | two number keys survive exactly when their spellings ascend as texts |
| `JsonValues.RetriesDoNotSurvive` | python/ethos_aegis/mythos_runtime/assurance.py:37-38 | the keys 2 and 10 are written in this order and do not survive |
| `EvidenceLedger.ExpiredPrefix` | python/ethos_aegis/mythos_runtime/assurance.py:235-237 | counts the maximal expired prefix |
| `EvidenceLedger.ExpiredCount` | python/ethos_aegis/mythos_runtime/assurance.py:235-237 | the loop computes that count |
| `EvidenceLedger.Dropped` | python/ethos_aegis/mythos_runtime/assurance.py:235-244 | the drop covers the expired prefix, makes room for one event, and goes beyond the prefix only to leave exactly that room |
| `EvidenceLedger.DropIsLeast` | python/ethos_aegis/mythos_runtime/assurance.py:235-244 | it is the least such drop |
| `EvidenceLedger.AppendIsAcceptedIff` | python/ethos_aegis/mythos_runtime/assurance.py:248-267 | the payload an append builds passes its own verification exactly when it started from events or from an anchor that is a text and not empty |
| `EvidenceLedger.OrphanIsRejected` | python/ethos_aegis/mythos_runtime/assurance.py:173-176 | the excluded cases are real: a new event that names an empty anchor, or one that is no text, is never accepted |
| `EvidenceLedger.EveryRunIsConsistent` | python/ethos_aegis/mythos_runtime/assurance.py:219-270 | over every run whose metadata survives being written and read back, the stored events are a suffix of all events ever written, anchored at the last dropped event or genesis, accepted by verification after reading back, and at most max_events long |
| `EvidenceLedger.SuffixGrows` | python/ethos_aegis/mythos_runtime/assurance.py:233-266 | one append moves the suffix by exactly what it drops and adds the new event |
| `EvidenceLedger.AppendSucceedsIff` | python/ethos_aegis/mythos_runtime/assurance.py:219-270 | after such a run, an append succeeds exactly when its metadata can be written and is within 8 KiB and the file within its limit |
| `EvidenceLedger.WrittenLoadsIff` | python/ethos_aegis/mythos_runtime/assurance.py:144-172 | if no envelope shares its seal with a different reading of itself, the file an append has written loads exactly when the metadata is read back as it was written; otherwise its seal is refused |
| `EvidenceLedger.RunLoadsIff` | python/ethos_aegis/mythos_runtime/assurance.py:144-172 | the file that a run leaves loads exactly when the metadata of every event it has ever written survives |
| `EvidenceLedger.EventsSayRequests` | python/ethos_aegis/mythos_runtime/assurance.py:219-260 | the k-th event a run has ever written is the answer to the k-th request that succeeded, and carries that request's identifier, timestamp, type, action, resource, subject and decision, each in its own field, and its metadata as written |
| `EvidenceLedger.OutcomesAre` | python/ethos_aegis/mythos_runtime/assurance.py:219-270 | the answer to each request is that of the state the requests before it have left |
| `EvidenceLedger.BoundsAre` | python/ethos_aegis/mythos_runtime/assurance.py:50-60 | the bounds a retention policy must keep |
| `EvidenceLedger.UnloadableStays` | python/ethos_aegis/mythos_runtime/assurance.py:135-153 | a file that does not load stays as it is, and every later append fails with the same error |
| `EvidenceLedger.NumberKeysStopTheLedger` | python/ethos_aegis/mythos_runtime/assurance.py:245-260 | such metadata exists: with the number keys 2 and 10 the event is recorded, and the ledger refuses everything from then on |
| `EvidenceLedger.FailureWritesNothing` | python/ethos_aegis/mythos_runtime/assurance.py:135-153 | a failing append writes nothing, and a file that has disappeared, is unreadable or not accepted is never replaced |
| `EvidenceLedger.HeadAndCountIdentify` | python/ethos_aegis/mythos_runtime/assurance.py:173-192 | accepted ledgers with one head and one count hold the same events from the same start, unless their events collide, and are equal exactly when their anchors are; two that differ do not both have a non-empty text for an anchor |
| `EvidenceLedger.SpellingsOfAStart` | python/ethos_aegis/mythos_runtime/assurance.py:173-192 | every anchor is accepted beside the text it is read as, if that is ASCII, and differs from it exactly when it is no text or empty |
| `EvidenceLedger.VerifyPayload` | python/ethos_aegis/mythos_runtime/assurance.py:155-192 | the checks in their order, with the first that fails |
| `EvidenceLedger.NewLedger` | python/ethos_aegis/mythos_runtime/assurance.py:102-110 | a signing key under 32 bytes is refused; otherwise a ledger that remembers whether the file existed |
| `EvidenceLedger.SecureEvidenceLedger.LoadPayload` | python/ethos_aegis/mythos_runtime/assurance.py:135-153 | loads or refuses as specified and notes that the file was seen |
| `EvidenceLedger.SecureEvidenceLedger.Retain` | python/ethos_aegis/mythos_runtime/assurance.py:233-244 | advances past the expired events, makes room, and moves the anchor along |
| `EvidenceLedger.SecureEvidenceLedger.BuildPayload` | python/ethos_aegis/mythos_runtime/assurance.py:248-266 | the new event and the sealed payload around it |
| `EvidenceLedger.SecureEvidenceLedger.Object` | python/ethos_aegis/mythos_runtime/assurance.py:267-268 | the self-check and the size limit |
| `EvidenceLedger.SecureEvidenceLedger.Append` | python/ethos_aegis/mythos_runtime/assurance.py:219-270 | the whole append, equal to the step the runs are made of |
| `EvidenceLedger.SecureEvidenceLedger.VerifyFile` | python/ethos_aegis/mythos_runtime/assurance.py:275-279 | refuses a missing file and whatever does not load |
| `Policy.UniversalIff` | python/ethos_aegis/private_shield/paths.py:33-70 | a scope becomes the universal sentinel exactly when it does not start with a separator and is a lone star once its empty and dot segments are left out |
| `Policy.DotStarIsUniversal` | python/ethos_aegis/private_shield/paths.py:33-38 | the scope ./* is one of them |
| `Paths.Canonicalize` | python/ethos_aegis/private_shield/paths.py:41-70 | the loop over the segments computes the specified form or the first error |
| `Paths.AcceptedIff` | python/ethos_aegis/private_shield/paths.py:41-70 | a path is accepted exactly when it has no NUL, does not start at a root, and every segment is empty or a dot, or is not two dots, has no colon and (in a resource path) no star, question mark or bracket, ends neither in a dot nor in a space, and has no device name before its first dot in any case; the drive check refuses nothing more |
| `Paths.KeptIff` | python/ethos_aegis/private_shield/paths.py:54-68 | the segments are accepted exactly when each is |
| `Paths.SplitOfJoin` | python/ethos_aegis/private_shield/paths.py:54-70 | splitting undoes joining for segments without a slash |
| `Paths.CanonicalizationIsIdempotent` | python/ethos_aegis/private_shield/paths.py:41-70 | canonicalizing a canonical path or scope changes nothing |
| `Paths.ScopeCanonicalizationIsIdempotent` | python/ethos_aegis/private_shield/paths.py:33-38 | the same with the universal sentinel |
| `Paths.CanonicalSegmentsAreNames` | python/ethos_aegis/private_shield/paths.py:54-70 | no segment of an accepted path is empty, a dot, a parent or has a colon |
| `Paths.ResourcePathsHaveNoGlob` | python/ethos_aegis/private_shield/paths.py:41-62 | no accepted resource path and no canonical form of one holds a star, a question mark or a bracket |
| `Paths.CanonicalSegmentsAreSifted` | python/ethos_aegis/private_shield/paths.py:48-70 | the segments of the canonical form are those of the path in order, without the empty ones and the dots |
| `Paths.RefusedBecause` | python/ethos_aegis/private_shield/paths.py:44-67 | which reason is given for a refused path: NUL, root, drive, or the first segment at fault with the first fault it has |
| `Paths.NamesDeviceIff` | python/ethos_aegis/private_shield/paths.py:65-67 | the check for device names finds exactly the segments whose text before the first dot is one of the 22 names in any case |
| `Paths.JoinOfSplit` | python/ethos_aegis/private_shield/paths.py:54-70 | splitting loses nothing |
| `Policy.NextRow` | python/ethos_aegis/private_shield/policy.py:35-45 | one turn of the outer loop turns the table's row for i patterns into the row for one more |
| `Policy.ScopeMatches` | python/ethos_aegis/private_shield/policy.py:19-47 | the rolling boolean lists decide the declarative relation: the lone star matches everything, otherwise the patterns cut the path into stretches, any for two stars and one matching segment for any other |
| `Policy.TableIffMatches` | python/ethos_aegis/private_shield/policy.py:29-47 | the table agrees with the declarative relation for all paths and patterns |
| `Policy.PlainScopeMatchesSegmentwise` | python/ethos_aegis/private_shield/policy.py:20-23 | without two stars a scope matches exactly the paths of its depth, segment by segment |
| `Policy.NormalizeScopes` | python/ethos_aegis/private_shield/policy.py:53 | all scopes canonicalize, or none is returned |
| `Policy.AnyScopeMatches` | python/ethos_aegis/private_shield/policy.py:56 | some scope contains the path |
| `Policy.ScopeAllows` | python/ethos_aegis/private_shield/policy.py:50-56 | allowed exactly when path and all scopes canonicalize and one scope contains the path |
| `Policy.CanonicalFormsAreEquivalent` | python/ethos_aegis/private_shield/policy.py:50-56 | a path and its canonical form, and scopes and theirs, get the same answer |
| `Policy.MalformedScopeDenies` | python/ethos_aegis/private_shield/policy.py:51-55 | one malformed scope denies whatever the others allow |
| `Policy.OtherScopesMatchSegmentwise` | python/ethos_aegis/private_shield/policy.py:20-58 | every other accepted scope without two stars allows exactly the paths with as many segments, each matching its own |
| `Policy.UniversalAllows` | python/ethos_aegis/private_shield/policy.py:20-58 | a universal scope allows every path that canonicalizes |
| `Policy.CheckFlow` | python/ethos_aegis/private_shield/policy.py:166-182 | no error exactly when nothing leaves, or it leaves for a known place under an exportable classification |
| `Policy.CollectMatchingGrants` | python/ethos_aegis/private_shield/policy.py:196-224 | the loop collects exactly the grants that carry the request, in order |
| `Policy.CheckProject` | python/ethos_aegis/private_shield/policy.py:92-113 | the project-wide checks in their order |
| `Policy.Evaluate` | python/ethos_aegis/private_shield/policy.py:76-160 | the decision, reasons, capability identifiers and risk as specified |
| `Policy.DecisionIff` | python/ethos_aegis/private_shield/policy.py:76-160 | DENY exactly when identity, project, agent, tool or flow conditions fail; ALLOW exactly when they hold and no chosen grant waits for a human who has not approved |
| `Policy.CarriesIff` | python/ethos_aegis/private_shield/policy.py:196-224 | when a grant carries a request, condition by condition |
| `Policy.ChosenAreSifted` | python/ethos_aegis/private_shield/policy.py:116-144 | the grants chosen are those that carry the request, in order |
| `Policy.DecisionNamesCarriers` | python/ethos_aegis/private_shield/policy.py:116-160 | a decision that is no denial names the capabilities of the agent's grants that carry the request, in order, and then those of the tool's |
| `Policy.DecisionSays` | python/ethos_aegis/private_shield/policy.py:76-160 | every decision names the risk and one reason, a denial no capability, and the reason is the one of the first project-wide condition that fails |
| `Policy.DenialSays` | python/ethos_aegis/private_shield/policy.py:116-144 | otherwise a denial names the first shortcoming of the grants: no agent grant, its data flow, no tool grant, its data flow |
| `Policy.FlowErrorSays` | python/ethos_aegis/private_shield/policy.py:166-182 | which of the three faults a data flow has |
| `Policy.RiskShrinksMatches` | python/ethos_aegis/private_shield/policy.py:221-222 | as risk rises the matching grants are a sub-sequence |
| `Policy.RiskContractsAuthority` | python/ethos_aegis/private_shield/policy.py:146-160 | DENY stays as risk rises in every domain; what is allowed at the higher risk is allowed at the lower exactly when its approval is settled there, in particular always with human approval |
| `Policy.RisingRiskCanAllow` | python/ethos_aegis/private_shield/policy.py:146-152 | without approval rising risk can turn REQUIRE_APPROVAL into ALLOW |
| `Purify.PurifiedIsClean` | python/ethos_aegis/core/aegis.py:784-787 | the output has no invisible character, no complete listed tag, no run of five blanks and no outer space |
| `Purify.PurifyFixesIffClean` | python/ethos_aegis/core/aegis.py:773-787 | exactly the clean texts are left alone |
| `Purify.PurifyIsIdempotent` | python/ethos_aegis/core/aegis.py:773-787 | purifying twice is purifying once |
| `Purify.PurifiedIff` | python/ethos_aegis/core/aegis.py:784-787 | a text is the result exactly when the visible characters can be cut into complete listed tags, maximal runs of blanks and other characters, no tag or blank left over, and it is those pieces in order with the mark for each tag and one space for each run of five or more, without outer space |
| `Purify.CutIsUnique` | python/ethos_aegis/core/aegis.py:785-786 | there is only one such cut |
| `Purify.StartsWithNameIff` | python/ethos_aegis/core/aegis.py:728-731 | a tag has one of nine names in any case, where dotted and dotless i, long s and the Kelvin sign count as cases too |
| `Purify.SigilsIff` | python/ethos_aegis/core/aegis.py:735-771 | each of the four findings is raised, once, exactly when the payload has what it stands for |
| `Purify.BlobIff` | python/ethos_aegis/core/aegis.py:726 | an encoded segment is found exactly when sixty Base64 characters stand next to each other |
| `Purify.ExpungeLeavesNoTag` | python/ethos_aegis/core/aegis.py:785 | replacing the tags leaves none, and forms none |
| `Purify.SqueezeFormsNoTags` | python/ethos_aegis/core/aegis.py:786 | collapsing blanks forms no tag |
| `Purify.SqueezeLeavesNoRun` | python/ethos_aegis/core/aegis.py:786 | no run of five blanks is left |
| `Purify.PurifiedRaisesNeither` | python/ethos_aegis/core/aegis.py:735-771 | the purified text raises neither the invisible nor the markup finding |
| `Mnemosyne.MnemosyneCache.constructor` | python/ethos_aegis/core/aegis.py:612-617 | an empty vault and no engrams |
| `Mnemosyne.MnemosyneCache.Inscribe` | python/ethos_aegis/core/aegis.py:619-644 | stores the antibody under its key, and the trace as an engram when it is longer than eight characters |
| `Mnemosyne.MnemosyneCache.Interrogate` | python/ethos_aegis/core/aegis.py:651-676 | finds the occurring engrams in order; something is found exactly when the acuity lets a veracity of 0.87 pass and an engram occurs in the payload |
| `Mnemosyne.OccurringAreSifted` | python/ethos_aegis/core/aegis.py:651-676 | what is found is the engrams that occur in the payload, each in its place |
| `Mnemosyne.SortIsStable` | python/ethos_aegis/vitality/protocol.py:1015-1019 | sorting by a key in descending order orders, permutes, and keeps equal keys in their order |
| `Mnemosyne.DeduplicatedTexts` | python/ethos_aegis/vitality/protocol.py:1044-1058 | every text kept was there, and every text that was there contains one that is kept |
| `Mnemosyne.DeduplicationKeepsDetection` | python/ethos_aegis/vitality/protocol.py:1034-1058 | a payload contains a kept engram exactly when it contained one before |
| `Mnemosyne.DeduplicatedIsDistinct` | python/ethos_aegis/vitality/protocol.py:1050-1055 | no text is kept twice |
| `Mnemosyne.RedundantIff` | python/ethos_aegis/vitality/protocol.py:1044-1049 | an engram is redundant exactly when its text contains another text met before, whether that one was kept or not |
| `Mnemosyne.DeduplicatedStandsAt` | python/ethos_aegis/vitality/protocol.py:1044-1058 | the texts kept are those in which no text met before occurs, in the order in which they came up |
| `Mnemosyne.DeduplicatedAre` | python/ethos_aegis/vitality/protocol.py:1050-1058 | each text kept has the class and depth of its last occurrence that was not redundant |
| `Mnemosyne.RedundantCountIs` | python/ethos_aegis/vitality/protocol.py:1044-1049 | the reported count is the number of redundant engrams |
| `Mnemosyne.LongEnoughAreSifted` | python/ethos_aegis/vitality/protocol.py:1026-1028 | the texts of ten characters and more stay, in their places |
| `Mnemosyne.ConsolidationKeepsDetection` | python/ethos_aegis/vitality/protocol.py:975-1009 | after a consolidation a payload contains some engram exactly when it contained one that survived pruning |
| `Mnemosyne.CapDropsTheLowest` | python/ethos_aegis/vitality/protocol.py:1011-1032 | above the cap exactly 8000 engrams are left before the length filter, the rest is dropped, and nothing dropped is of higher quality than anything left |
| `Mnemosyne.ForgottenIsShortOrLow` | python/ethos_aegis/vitality/protocol.py:1011-1032 | an engram whose payload is no longer detected was under ten characters or, above the cap, of no higher quality than everything left |
| `Mnemosyne.WithinCapOnlyShortAreForgotten` | python/ethos_aegis/vitality/protocol.py:1011-1032 | within the cap it detects exactly what the engrams of ten characters and more detected |
| `Mnemosyne.ConsolidatedShape` | python/ethos_aegis/vitality/protocol.py:1011-1074 | texts are distinct, at least ten characters long, at most 8000, and in order of depth, then length |
| `Mnemosyne.ConsolidatingAgainKeepsDetection` | python/ethos_aegis/vitality/protocol.py:975-1074 | consolidating again forgets nothing more |
| `Mnemosyne.AntibodiesHaveEngrams` | python/ethos_aegis/vitality/protocol.py:1076-1092 | an antibody remains exactly when its trace survives as an engram |
| `Mnemosyne.HealthGainIsPercentage` | python/ethos_aegis/vitality/protocol.py:1002 | the reported gain lies between 0 and 100, within 0.05 of the share of engrams that went, and is 0 when none went |
| `Mnemosyne.SomnaticCycle.Consolidate` | python/ethos_aegis/vitality/protocol.py:975-1009 | the four phases in turn, with a report whose counts add up and whose gain is the rounded share |
| `Mnemosyne.SomnaticCycle.PhasePrune` | python/ethos_aegis/vitality/protocol.py:1011-1032 | sorts by length times depth, cuts at the cap, drops the short ones and counts what went |
| `Mnemosyne.SomnaticCycle.PhaseDeduplicate` | python/ethos_aegis/vitality/protocol.py:1034-1058 | the loop over a dictionary in insertion order, with the number of redundant engrams |
| `Mnemosyne.SomnaticCycle.PhasePromote` | python/ethos_aegis/vitality/protocol.py:1060-1074 | sorts by depth, then length, and reports up to ten |
| `Mnemosyne.SomnaticCycle.PhaseRebuildIndex` | python/ethos_aegis/vitality/protocol.py:1076-1092 | removes exactly the antibodies without a surviving trace |
| `StressBuffer.ThrottleFollowsLatency` | python/ethos_aegis/vitality/protocol.py:1200-1208 | the delay is zero exactly up to the ceiling, undefined exactly for a positive mean over a zero ceiling, and for a positive ceiling grows with the excess up to 0.1 at three times the ceiling; for a negative ceiling it can be negative |
| `StressBuffer.RunSpends` | python/ethos_aegis/vitality/protocol.py:1161-1198 | in a run, permits and remaining tokens are at most the first tokens and what refilling earned |
| `StressBuffer.WindowBound` | python/ethos_aegis/vitality/protocol.py:1161-1198 | in every run, the permits between times a and b are at most capacity + rate (b − a) |
| `StressBuffer.WaitHintIsExact` | python/ethos_aegis/vitality/protocol.py:1174-1185 | after a refusal a lone retry is no longer refused exactly when the circuit is closed, the rate is positive, the delay reaches the hint and the bucket can hold one token; then it is permitted, or raises by dividing by a zero latency ceiling |
| `StressBuffer.CircuitStaysOpen` | python/ethos_aegis/vitality/protocol.py:1210-1223 | once opened on a window of n results, the circuit does not close before more than circuit_pct n / 2 further results |
| `StressBuffer.GateLatchesOpen` | python/ethos_aegis/vitality/protocol.py:1669-1688 | through the gate alone an open circuit stays open for ever, because a blocked request records nothing |
| `StressBuffer.BurstOpensGate` | python/ethos_aegis/vitality/protocol.py:1669-1688 | the gate does open circuits: with room for ten tokens and results and a threshold of at most 1, ten threats at one instant open it |
| `StressBuffer.GatedClosedIff` | python/ethos_aegis/vitality/protocol.py:1669-1688 | a gated run ends with a closed circuit exactly when the circuit was never open during it |
| `StressBuffer.GatedOpenIff` | python/ethos_aegis/vitality/protocol.py:1669-1688 | from a closed circuit, a gated run ends with an open one exactly when after some of its calls the window of permitted results held ten or more, with threats at the opening rate or above |
| `StressBuffer.WindowOfResults` | python/ethos_aegis/vitality/protocol.py:1669-1688 | the window is the last permitted results, and nothing else is recorded |
| `StressBuffer.RecordedLast` | python/ethos_aegis/vitality/protocol.py:1187-1191 | the delay goes by the last 50 latencies recorded, and the circuit by as many of the last threats as its window holds |
| `StressBuffer.AcquireAnswers` | python/ethos_aegis/vitality/protocol.py:1161-1185 | what one call answers, pays and counts in each case, from the tokens that refilling leaves up to the capacity |
| `StressBuffer.NeuroStressBuffer.constructor` | python/ethos_aegis/vitality/protocol.py:1141-1159 | a full bucket, a closed circuit and empty windows |
| `StressBuffer.NeuroStressBuffer.RefillBucket` | python/ethos_aegis/vitality/protocol.py:1193-1198 | the refilled state |
| `StressBuffer.NeuroStressBuffer.Acquire` | python/ethos_aegis/vitality/protocol.py:1161-1185 | the specified state and outcome, branch by branch |
| `StressBuffer.NeuroStressBuffer.RecordResult` | python/ethos_aegis/vitality/protocol.py:1187-1191 | pushes both windows and updates the circuit |
| `StressBuffer.NeuroStressBuffer.UpdateCircuit` | python/ethos_aegis/vitality/protocol.py:1210-1223 | opens at the threshold, closes under half of it, from ten results on |
| `SecretBroker.EveryRunIsKept` | python/ethos_aegis/private_shield/secret_broker.py:96-246 | in every run, with executions overlapping in any way, uses taken and uses left of each lease add up to its max_uses, a lease without uses is revoked, every use was for its purpose and before its expiry, and receipts add up |
| `SecretBroker.LeaseIsBounded` | python/ethos_aegis/private_shield/secret_broker.py:162-204 | in every run a lease's adapter is called at most max_uses times, with the leased secret, for its own purpose and before expiry, also by adapters that call the broker back |
| `SecretBroker.ReceiptsAreComplete` | python/ethos_aegis/private_shield/secret_broker.py:128-240 | in every run, receipts and calls that ended without one are as many as authorizations and calls of adapters that came back |
| `SecretBroker.EveryRunLeavesVerifiedChain` | python/ethos_aegis/private_shield/secret_broker.py:128-276 | in every interleaving the audit chain verifies and holds one receipt for everything handed over, in order, and what it was at any time is a prefix of it |
| `SecretBroker.LastHashTellsRuns` | python/ethos_aegis/private_shield/secret_broker.py:128-276 | two runs whose audit chains end in one hash have recorded the same, receipt by receipt, unless the chains collide or come back to the genesis hash |
| `SecretBroker.EndedForever` | python/ethos_aegis/private_shield/secret_broker.py:182-189 | a revoked lease takes no more uses in any continuation, whatever the clock says |
| `SecretBroker.WhatEnds` | python/ethos_aegis/private_shield/secret_broker.py:182-192 | a live lease ends exactly by revocation, by an expiry that was noticed, or by its last use |
| `SecretBroker.NoUseAfterTheEnd` | python/ethos_aegis/private_shield/secret_broker.py:182-186 | after a revocation or a noticed expiry no run of later calls uses the lease, even if the clock goes back |
| `SecretBroker.GrantedIff` | python/ethos_aegis/private_shield/secret_broker.py:113-160 | a lease is granted exactly within the bounds, for a registered purpose and secret, to a request for secret.use the policy engine authorizes and finds approved; whenever the engine was asked there is one receipt with its decision, also when the secret is missing |
| `SecretBroker.GrantedIsOnTerms` | python/ethos_aegis/private_shield/secret_broker.py:145-160 | the lease granted has the identifier, subject, purpose, reference and uses of the request, ends ttl seconds after the request, holds the material registered at that moment, starts unrevoked with all its uses, and replaces nothing else |
| `SecretBroker.NotGrantedBecause` | python/ethos_aegis/private_shield/secret_broker.py:105-143 | which answer a request gets: the first of its faults, in the order of the checks |
| `SecretBroker.DecisionIsRecorded` | python/ethos_aegis/private_shield/secret_broker.py:118-135 | the receipt of a decision names who asked for which secret for what, the decision and the time |
| `SecretBroker.EveryUseWasGranted` | python/ethos_aegis/private_shield/secret_broker.py:145-204 | in every run, each use is of a lease granted by an earlier call: for the purpose of that call, before ttl seconds from it, and of the material registered under its reference when it was made |
| `SecretBroker.EveryLeaseWasGranted` | python/ethos_aegis/private_shield/secret_broker.py:145-160 | in every run each lease held was granted by a call of it, on that call's terms, from the secret registered then |
| `SecretBroker.RegisteredIff` | python/ethos_aegis/private_shield/secret_broker.py:72-80 | a secret is registered exactly under a reference that begins with secret:// with material that encodes and is not empty, under that reference alone; each fault has its own answer |
| `SecretBroker.AdapterRegisteredIff` | python/ethos_aegis/private_shield/secret_broker.py:82-94 | an adapter is registered exactly for a non-empty purpose that has none |
| `SecretBroker.RevokedOnly` | python/ethos_aegis/private_shield/secret_broker.py:243-246 | revoking changes the revoked mark of this lease and nothing else |
| `SecretBroker.BeginAnswers` | python/ethos_aegis/private_shield/secret_broker.py:172-201 | which answer an execution gets before the adapter is called, in the order of the checks, and what the adapter is called with |
| `SecretBroker.BeginHasEffect` | python/ethos_aegis/private_shield/secret_broker.py:182-201 | what a use leaves behind: one use fewer, the lease revoked with the last, the use noted, and nothing else |
| `SecretBroker.FinishAnswers` | python/ethos_aegis/private_shield/secret_broker.py:203-241 | which answer it gets afterwards: the adapter's failure, the first thing wrong with what it returned, or that |
| `SecretBroker.ConsumptionIsRecorded` | python/ethos_aegis/private_shield/secret_broker.py:205-240 | the receipt of an execution names the lease's subject and secret, the decision and its one reason, the grant's capabilities and risk, what went in and what came out or the words in its place |
| `SecretBroker.AdapterRunsIff` | python/ethos_aegis/private_shield/secret_broker.py:172-204 | the adapter is called exactly for a known live lease, its own purpose, before expiry, with arguments that encode |
| `SecretBroker.UnreachableAnswers` | python/ethos_aegis/private_shield/secret_broker.py:178-189 | the checks for a removed adapter and for an exhausted lease never fire |
| `SecretBroker.ReceiptsOfFinish` | python/ethos_aegis/private_shield/secret_broker.py:203-276 | an adapter that comes back leaves exactly one receipt, at the end, unless an error escapes, and then none; the receipt says ALLOW exactly when a value is returned and names subject, secret, input and time |
| `SecretBroker.ReceiptsOfExecute` | python/ethos_aegis/private_shield/secret_broker.py:162-241 | an execution leaves one receipt exactly when the adapter was called and no error escaped: no interruption, no text or view without bytes as the first fault, no accepted result whose encoding raises |
| `SecretBroker.RunWithoutReceipt` | python/ethos_aegis/private_shield/secret_broker.py:203-241 | each of those escapes can happen to every adapter in progress |
| `SecretBroker.OutputIff` | python/ethos_aegis/private_shield/secret_broker.py:217-241 | a value is returned exactly when the adapter returned it, its graph is within the limits with no secret in a text, key or bytes, and it encodes to few bytes without the secret |
| `SecretBroker.SecretBroker.constructor` | python/ethos_aegis/private_shield/secret_broker.py:66-70 | an empty broker |
| `SecretBroker.SecretBroker.Register` | python/ethos_aegis/private_shield/secret_broker.py:72-80 | stores non-empty material that encodes under a secret reference, or names what is wrong |
| `SecretBroker.SecretBroker.RegisterAdapter` | python/ethos_aegis/private_shield/secret_broker.py:82-94 | registers a purpose once |
| `SecretBroker.SecretBroker.RequestLease` | python/ethos_aegis/private_shield/secret_broker.py:96-160 | bounds, adapter, the policy engine's decision on secret.use, then the receipt and the lease |
| `SecretBroker.SecretBroker.Grant` | python/ethos_aegis/private_shield/secret_broker.py:128-160 | the receipt with the decision, then the secret and the lease |
| `SecretBroker.SecretBroker.Issue` | python/ethos_aegis/private_shield/secret_broker.py:138-160 | no lease for a refusal or a missing secret; otherwise the lease, registered under its identifier |
| `SecretBroker.SecretBroker.Record` | python/ethos_aegis/private_shield/secret_broker.py:270-276 | appends to the audit chain the receipt that comes next |
| `SecretBroker.SecretBroker.Begin` | python/ethos_aegis/private_shield/secret_broker.py:172-201 | the checks in their order, and the use taken before the adapter is called |
| `SecretBroker.SecretBroker.Finish` | python/ethos_aegis/private_shield/secret_broker.py:203-241 | from what the adapter did to the receipt and the answer |
| `SecretBroker.SecretBroker.Conclude` | python/ethos_aegis/private_shield/secret_broker.py:203-241 | which receipt, if any, and which answer each outcome of the adapter leads to |
| `SecretBroker.SecretBroker.Examine` | python/ethos_aegis/private_shield/secret_broker.py:218-223 | the walk, the encoding, the size and the search for the secret, in this order |
| `SecretBroker.SecretBroker.Execute` | python/ethos_aegis/private_shield/secret_broker.py:162-241 | the two steps in turn |
| `SecretBroker.SecretBroker.Revoke` | python/ethos_aegis/private_shield/secret_broker.py:243-246 | revokes a known lease, ignores an unknown one |
| `SecretOutput.AcceptedIff` | python/ethos_aegis/private_shield/secret_broker.py:278-325 | the walk accepts a result exactly when every path into it has at most 33 items and ends in a supported object without the secret, keys being texts, and it makes at most 10,000 visits |
| `SecretOutput.ReportedFaultIsFirst` | python/ethos_aegis/private_shield/secret_broker.py:290-323 | the recursive walk reports the first fault in the order of its visits |
| `SecretOutput.OutputWalk.constructor` | python/ethos_aegis/private_shield/secret_broker.py:287-288 | no container seen and nothing visited |
| `SecretOutput.OutputWalk.Walk` | python/ethos_aegis/private_shield/secret_broker.py:290-323 | the recursive method with its mutable counter and path set computes the specified walk, and leaves the path set as it found it on every exit |
| `SecretOutput.OutputWalk.Look` | python/ethos_aegis/private_shield/secret_broker.py:295-304 | the checks of an item that is no container |
| `SecretOutput.OutputWalk.WalkItems` | python/ethos_aegis/private_shield/secret_broker.py:318-320 | the loop over a list |
| `SecretOutput.OutputWalk.WalkEntries` | python/ethos_aegis/private_shield/secret_broker.py:312-317 | the loop over a mapping, keys first |
| `WorldLines.NormIsSumOfFour` | python/ethos_4d/spacetime.py:78-83 | the radicand is the sum of the four squared differences |
| `WorldLines.CauchySchwarz` | python/ethos_4d/spacetime.py:76-83 | the dot product of two vectors is at most the product of their lengths |
| `WorldLines.TriangleInequality` | python/ethos_4d/spacetime.py:76-83 | no detour over a third point is shorter |
| `WorldLines.DistanceSeparates` | python/ethos_4d/spacetime.py:76-83 | a distance is symmetric, not negative, and zero exactly between equal places |
| `WorldLines.BetweenIsTriangular` | python/ethos_4d/spacetime.py:76-83 | the distance is a metric in the sense the path lemmas need |
| `WorldLines.ArcSplits` | python/ethos_4d/spacetime.py:107-114 | a path through a point is as long as its two halves |
| `WorldLines.ArcIsAtLeastChord` | python/ethos_4d/spacetime.py:107-114 | a world-line is at least as long as the distance from its first to its last point |
| `WorldLines.PartsAreAtLeastChords` | python/ethos_4d/spacetime.py:107-114 | the same between any two of its points, and no part is longer than the whole |
| `WorldLines.SelectionIsNoLonger` | python/ethos_4d/spacetime.py:107-114 | leaving out any points never makes a world-line longer |
| `WorldLines.InsertionNeverShortens` | python/ethos_4d/spacetime.py:104-114 | inserting a point anywhere never makes it shorter |
| `WorldLines.WorldLine.constructor` | python/ethos_4d/spacetime.py:98-102 | a world-line without points |
| `WorldLines.WorldLine.AddPoint` | python/ethos_4d/spacetime.py:104-105 | appends the point, which adds exactly its distance from the last one |
| `WorldLines.GeodesicReports` | python/ethos_4d/metrics.py:129-158 | one report for each line of at least two points, in order; the reported ratio is never below 1, infinite exactly for a line that returns to its start, and the reported lengths keep their order |
| `WorldLines.Report` | python/ethos_4d/metrics.py:138-157 | one line's report |
| `WorldLines.Judge` | python/ethos_4d/metrics.py:142-157 | the verdict in terms of the two lengths, without the quotient: near when arc ≤ 1.05 geo, moderate when arc ≤ 2 geo |
| `WorldLines.RoundedIsNear` | python/ethos_4d/metrics.py:137-158 | what is reported of a number is a multiple of a ten-thousandth, at most half of one away |
| `WorldLines.MovingAreSifted` | python/ethos_4d/metrics.py:135-137 | the lines with a report are those of at least two points, in order |
| `WorldLines.ReturningIsHighDeviation` | python/ethos_4d/metrics.py:142-149 | a line that returns to its start has the highest verdict, and every other line with that verdict is more than twice its chord |
| `Celestial.GlyphKeepsBytes` | python/ethos_aegis/celestial/language.py:88-91 | the eight code points of a glyph determine its four bytes |
| `Celestial.GlyphSpellsBytes` | python/ethos_aegis/celestial/language.py:88-91 | a glyph spells the four bytes in order as hexadecimal digits from U+E000 on, the high one first |
| `Celestial.AlphabetIsDetermined` | python/ethos_aegis/celestial/language.py:74-98 | the alphabet depends on nothing but digest, seed and charset |
| `Celestial.RolledGlyphsAreDistinct` | python/ethos_aegis/celestial/language.py:92-97 | no two characters share a glyph |
| `Celestial.RerollsAreFew` | python/ethos_aegis/celestial/language.py:84-97 | when a character's first digests differ, it is re-rolled at most once for each glyph already used |
| `Celestial.Roll` | python/ethos_aegis/celestial/language.py:84-97 | the first counter with an unused glyph, or none below the counter's four-byte limit |
| `Celestial.NewLanguage` | python/ethos_aegis/celestial/language.py:63-98 | a seed and a charset give two inverse dictionaries built by the re-roll loop, or the first error: empty seed, duplicates, an unencodable character, an exhausted counter |
| `Celestial.EncodeMessage` | python/ethos_aegis/celestial/language.py:100-108 | the loop computes the encoding, and decoding undoes it exactly for the unambiguous messages |
| `Celestial.DecodeMessage` | python/ethos_aegis/celestial/language.py:110-129 | the fixed-width scan computes the decoding, and encoding undoes it exactly when no character passed through belongs to the charset |
| `Celestial.RoundTripIff` | python/ethos_aegis/celestial/language.py:100-129 | decoding undoes encoding exactly when no character outside the charset starts a stretch of the encoding that reads like a glyph |
| `Celestial.PlainMessagesRoundTrip` | python/ethos_aegis/celestial/language.py:110-117 | it does for every message whose characters outside the charset are not in U+E000..U+E00F |
| `Celestial.SpelledGlyphIsMisread` | python/ethos_aegis/celestial/language.py:118-126 | a message that spells a glyph out decodes to the glyph's character |
| `Celestial.EncodingIsInjective` | python/ethos_aegis/celestial/language.py:100-108 | no two unambiguous messages have the same encoding |
| `Celestial.ReencodedIff` | python/ethos_aegis/celestial/language.py:110-129 | encoding what was decoded gives the text back exactly when no character passed through belongs to the charset, and a longer text otherwise |

## Left out

- AtomicStore.MemoryAtomicStateStore.Arrive: the queue holds the jobs of this store's awaits only, one for each; jobs of other code, and the job that settles the promise a caller holds, run between them and change nothing here. A mutation that calls `mutate` itself is an arrival just before that callback.
- AtomicStore.EveryRunIsLinearized: states are values, so `structuredClone` and what a mutation does to its private copy are not modelled; a clone that throws counts as a mutation that throws.
- StableHash.SortKeysIffSame: keys that look like array indices, `__proto__`, `undefined` and other non-JSON values are outside, because JavaScript orders or drops those by rules of its own.
- StableHash.ComputeStableHash: the text `JSON.stringify` produces is an arbitrary function of the sorted value, so string escapes and number formats are not modelled.
- FormulaForge.SingleFeatureLinearFit: the number six decimals read back as is an arbitrary function of slope and intercept; not-a-number, infinite values and the evaluation of expressions are inputs. Feature names are one identifier: with a name such as `unit price` `ast.parse` raises while the fitted line is scored, and with one such as `a-b` the line reads other fields or none.
- FormulaForge.ScoreIsBounded: over reals, without floating-point rounding.
- EvidenceLedger.SecureEvidenceLedger.Append: the file lock, symlink checks, the temporary file and the parsing of timestamps are not modelled; sizes are arbitrary functions.
- EvidenceLedger.SecureEvidenceLedger.LoadPayload: the symlink check is not modelled.
- EvidenceLedger.VerifyPayload: an envelope with missing or further keys, or with a seal, count or event list of a wrong type, counts as unreadable; the source refuses it too, with another message. A version written `2.0` the source takes for 2. A seal or hash outside ASCII is refused with the error of its check, where the source raises TypeError. Files whose events have other fields than an append writes, or fields of other types except `metadata` and `previous_hash`, are outside the model.
- JsonValues.RereadIsSameIff: two surrogate code points in a row, which reading joins to one character, number keys that are not numbers (NaN), and nesting beyond Python's recursion limit are outside.
- EvidenceLedger.NewLedger: the key enters by its length and by the signing and sealing functions.
- AuditChain.NewAuditChain: likewise.
- AuditChain.AuditChain.VerifyReceipts: a receipt whose hash or signature is outside ASCII is refused, where the source raises TypeError.
- Policy.ScopeMatches: what `fnmatchcase` does within one segment is an arbitrary predicate.
- Paths.Canonicalize: inputs that are not strings.
- Purify.PurifiedRaisesNeither: only which findings are raised is modelled, not their texts, nor the number of encoded segments.
- Mnemosyne.MnemosyneCache.Interrogate: findings are the engrams themselves; the records and log lines made of them are left out.
- StressBuffer.WindowBound: over reals, and for a clock that does not go back, as `time.monotonic` promises.
- SecretBroker.LeaseIsBounded: for lease identifiers that do not repeat, which `secrets.token_urlsafe` gives with overwhelming probability only.
- SecretBroker.SecretBroker.Begin: a lease record is a value in the broker's map, replaced where the source updates the record object; nothing else holds that object. Each step is atomic, so races of threads within a step are not modelled.
- SecretBroker.SecretBroker.RequestLease: subjects, purposes and references are Unicode texts, so encoding a purpose does not raise; clocks are integers, without time zones.
- SecretBroker.EveryRunLeavesVerifiedChain: the chain holds what the broker hands over; other parts of a program that share the shield append to it as well.
- SecretBroker.ReceiptsOfExecute: exhaustion of memory or of the stack, at any point, is not modelled.
- SecretOutput.OutputWalk.Walk: the object graph does not change during the walk, and subclasses of the plain types with behaviour of their own are not modelled.
- WorldLines.GeodesicReports: reads the trajectories as values; `round` is a parameter, and verdict texts are three constructors.
- Celestial.NewLanguage: the digest is a function of seed, character and counter; UTF-8 enters only through which code points it cannot encode.
- `SpacetimeMetrics` beyond the geodesic reports, `ethical_integral` and the manifold summary: direct formulas.
- `simulation` takes a task through a fixed table of states; `BudgetMeter` adds up tokens and turns and refuses to pass a limit; the agent harness assembles prompts, retries and parses what a model returns; `EventEmitter` calls the listeners of an event in the order in which they subscribed; `AuditLedger` of vault.py is another signed hash chain, kept in a file of lines.
- immune_system.py and immune_system4.py of veriflow: the first uses undefined names, the second passes arguments its client does not take, so there is no behaviour to model.
- The detection pattern libraries, the CKAN and other clients, the HTTP server, subprocesses, the remaining adapters, renderers, reports and demos.
