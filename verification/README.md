# Omnipus: audit log and conversation history, verified

A Dafny 4.11 model of the two parts of Omnipus (a Go agent runtime) that other parts trust without
checking, with proofs of what they guarantee, and of exactly when.

* **The tamper-evident audit log** (`pkg/audit`). A logger appends JSON records, each carrying an
  HMAC over its predecessor's; it rotates files by date and size, latches a degraded mode, repairs a
  torn tail at startup and resumes the chain. A verifier reads the files back.
* **The conversation history** (`pkg/agent`). Providers reject a history in which a tool call and its
  result are not paired. Sanitising, repairing, recovering, hydrating, compressing and rolling back
  each touch that pairing; the turn loop produces it; the cancel protocol interrupts it.
* **Smaller cores**: the memory file and its cache, the cached system prompt, the brace scanner of the
  evaluation judge, the pending calls of hook processes, the cancel-abuse detector.

`dafny verify dfyconfig.toml` checks everything.

## How it is built

Byte strings (`string`, `[]byte`) are Dafny strings with one `char` per byte. Code that updates state is a
class or a method with loops, proved against a specification function or predicate; the properties are
lemmas about those. Clocks, mtimes, random tokens, replies of the model, outcomes of file operations,
tools, hooks and approvals are parameters, so a result "for every run" is for every such outcome.
Protocols between threads are step relations: one step per critical section or channel operation, any
number of threads, any interleaving, proved through an inductive invariant.

| files | content |
|---|---|
| `json`, `canonical`, `roundtrip`, `decoded`, `escapes`, `encoder` | a JSON reader, the two canonical printers, their round trip, what each way of quoting is for, the encoder loops |
| `audit_chain`, `log_lines`, `audit_log` | the HMAC chain, reading a log file back, the logger |
| `audit_runs`, `audit_traces`, `audit_rotation` | the invariant of the directory, whole runs, when files rotate |
| `audit_verify`, `audit_directory`, `audit_order`, `audit_limits` | the verifier, the writer against the verifier, the order of files, inputs that fail |
| `history`, `sanitize`, `sanitized`, `preceded`, `kept`, `repair`, `repaired`, `replayed`, `recovery`, `hydrate`, `hydrated` | pairing of calls and results, and the passes over it |
| `compression`, `restore`, `turn_loop`, `cancel` | emergency compression, roll-back, the turn loop, the cancel protocol |
| `gostrings`, `memory`, `memory_format`, `prompt_cache`, `braces`, `scorer`, `hook_process`, `cancel_abuse` | the smaller cores |

The HMAC is an arbitrary function with 32-byte results. Nothing is assumed about collisions: a tamper
result says "nothing changed, or here are two inputs taken from these very records with one digest (or
one whose digest is the seed)". That predicate is `AuditChain.HashBroken`.

## Where the code does not do what its comments or documentation say

The model follows the code. Each point below is a lemma.

* `VerifyDir` sorts rotated files by name and its comment says that this is the order of creation, also
  for `audit-D-<millis>.jsonl`. It is not: `-` sorts before `.`, so the second file of a day is read before
  the first, and an untouched log is reported as broken (`AuditOrder.VerifyDirExact`,
  `AuditOrder.SecondRotationOfADay`).
* Two rotations of one date in one millisecond overwrite a file: `os.Rename` replaces it and its records are
  gone (`AuditRuns.RotateKeepsExactly`, `AuditRuns.RotateExactly`, `AuditRuns.SameMillisecondLoses`).
* `readChainSeedFromFile` decodes without `UseNumber`: a last record with a number beyond float64 is
  passed over and the chain resumes one record too early. An `audit.jsonl` that is empty behind rotated
  files resumes at genesis, and an unterminated but complete last record is not repaired, so the next record
  is written onto its line (`AuditRuns.StartExact` gives the exact condition, `AuditLimits.RestartAfterRotation`
  a way into it).
* After a failed fsync the record is on disk but the logger keeps the previous digest, so the next record
  forks the chain (`AuditTraces.SyncFailureForks`).
* `VerifyFile` calls a line of 2^20 bytes or more an I/O error, although the logger writes such lines
  (`AuditDirectory.SoundVerifiesExactly`, `AuditLimits.LongRecordRejected`, `AuditLimits.LongPayload`).
* `sanitizeHistoryForProvider` drops a repeated result id over the whole history, not per turn, so an id that is
  used again leaves a call without its result; a second pass would then drop that turn as well
  (`SanitizedHistory.AnsweredExactly`, `SanitizedHistory.IdempotentExactly`, `SanitizedHistory.ReusedIdUnpairs`).
  A turn that loses all its results so leaves the next calling assistant right behind an assistant
  (`PrecededHistory.PrecededExactly`).
* Recovery is called idempotent; it is not for an empty id or one that `%q` escapes
  (`Recovery.RecoveryExactly`, `Recovery.EmptyIdRepeats`).
* A hydrated history is balanced, but sanitising loses a calling assistant that follows another assistant
  message (`Hydrate.HydratedKeptExactly`, `Hydrate.TwoAssistantsLose`).
* On a session that is a single turn, emergency compression makes the first message the new restore
  point, so an abort in the first turn brings back the turn's own first message (`RestorePoint.AbortExactly`).
* The callback of a cancel is lost if every Finish passes its last critical section before the registration
  (`Cancel.CallbackRunsExactly`, `Cancel.CallbackLost`).
* The check of the cached prompt does not notice a file that was there only while it was read
  (`PromptCache.HitExactly`, `PromptCache.FlickerIsStale`).
* `parseEntryBlock` slices out of range on a block that starts with `<!-->` or `<!--->`
  (`Memory.SliceableExactly`), and `embedHMAC` panics on the text `null` (`AuditLimits.NullPayload`); both are
  preconditions of the model.

## Model

| member | source | states |
|---|---|---|
| RoundTrip.ValueRoundTrip | pkg/audit/argshash.go:66-242 | either printer's text of a value, with anything behind it that cannot continue a number, reads back as that value and leaves the rest |
| RoundTrip.PrintThenRead | pkg/audit/hmac.go:234-280 | decoding what a canonical printer writes gives the value back |
| RoundTrip.PrintInjective | pkg/audit/argshash.go:66-242 | equal output bytes mean equal JSON values: strings, verbatim numbers, arrays, objects |
| Canonical.SortedKeys | pkg/audit/argshash.go:152-174 | the keys of an object in strictly increasing byte order, whatever the order they are met in |
| Canonical.IncreasingUnique | pkg/audit/argshash.go:152-174 | a set of keys has one increasing listing, so the printers do not depend on map order |
| Decoded.ValueClean | pkg/audit/hmac.go:218-228 | every value the decoder returns has valid UTF-8 strings and keys and well-formed number text |
| Decoded.PrintPrintable | pkg/audit/hmac.go:234-280 | a canonical text holds no control character, so a record is one line |
| Escapes.Shortest | pkg/audit/argshash.go:198-242 | no string literal in valid UTF-8 is shorter than the one written for the hash of the string it stands for, as section 3.2.2.2 of RFC 8785 asks |
| Escapes.ScriptSafe | pkg/audit/hmac.go:234-280 | a string quoted the way encoding/json does holds none of `<`, `>`, `&`, U+2028 and U+2029, whatever bytes it is made of |
| Encoder.WriteJSONString | pkg/audit/argshash.go:198-242 | the loop over runes appends exactly the quoted, escaped string, and fails exactly on invalid UTF-8 |
| Encoder.CanonicalEncode | pkg/audit/argshash.go:66-148 | appends exactly the canonical text of the value, or fails exactly if a string or key is not UTF-8 |
| Encoder.WriteMap | pkg/audit/argshash.go:152-174 | the loop over sorted keys appends exactly the canonical object |
| Encoder.CanonicalMarshal | pkg/audit/hmac.go:234-280 | the recursive marshaller returns exactly the canonical text, whatever the order the map gives its keys in |
| Encoder.Truncate | pkg/audit/argshash.go:329-343 | a longer text is cut at its last rune start at or before the limit, keeps UTF-8 valid, loses at most three bytes more than asked, and gets an ellipsis |
| Encoder.ArgsHashOf | pkg/audit/argshash.go:49-62 | the hash of the canonical text, refused exactly where a string or key is not UTF-8 |
| Encoder.ArgsHashPins | pkg/audit/argshash.go:66-148 | two values with one ArgsHash are the same value or a collision of the hash |
| Encoder.CutAtRune | pkg/audit/argshash.go:329-343 | valid UTF-8 cut where a rune starts is valid UTF-8 |
| AuditChain.HexRoundTrip | pkg/audit/hmac.go:289-313 | the digest survives hex encoding and decoding |
| AuditChain.EmbedKeepsCanonical | pkg/audit/hmac.go:289-313 | stamping a record does not change its canonical form, the stamp reads back, and it is the HMAC of the previous digest and that form |
| AuditChain.PrefixInjective | pkg/audit/hmac.go:193-201 | the 32-byte prefix makes the hashed concatenation split in one way only |
| AuditChain.SameEndSameChain | pkg/audit/hmac.go:18-34 | two chains from one seed that end in one digest are the same chain, or the hash is broken on their own inputs |
| AuditChain.SpliceDetected | pkg/audit/hmac.go:18-34 | replacing any stretch of records before a kept one -- editing, removing, inserting, reordering -- and still verifying through that one means nothing changed, or the hash is broken |
| AuditChain.TruncationUndetected | pkg/audit/hmac.go:18-34 | cutting records off the end leaves a valid chain: what the chain alone cannot show |
| LogLines.LastIndexNewline | pkg/audit/audit.go:810-817 | the last newline of a buffer, or -1 exactly if there is none |
| LogLines.ReadLastLine | pkg/audit/audit.go:760-807 | the doubling window ends and finds the text behind the last newline, whatever the record sizes |
| LogLines.RecoverCorruption | pkg/audit/audit.go:688-742 | cuts exactly an unterminated tail that is not JSON behind at least one whole line |
| LogLines.RecoverKeepsRecords | pkg/audit/audit.go:688-742 | every newline-terminated record survives byte for byte; at most an unterminated non-JSON tail goes |
| LogLines.ReadChainSeed | pkg/audit/verify.go:319-386 | the backward scan finds the digest in the last line that decodes to an object |
| LogLines.SeedIsLast | pkg/audit/verify.go:340-386 | the seed is the digest in the last line that unmarshals into a map, and none if that line carries none, without looking further back |
| AuditLog.EmbedHmac | pkg/audit/hmac.go:289-313 | the stamped line and its digest exactly for object payloads, none otherwise |
| AuditLog.Logger.Start | pkg/audit/audit.go:271-322 | startup: repair, open, resume; degraded if opening fails |
| AuditLog.Logger.OpenCurrentFile | pkg/audit/audit.go:573-611 | opening sets size, date and, if the file holds a digest, the chain head; a failed stat degrades |
| AuditLog.Logger.Rotate | pkg/audit/audit.go:627-673 | rotation moves the file under a free name, keeps the chain head, and degrades if the rename fails |
| AuditLog.Logger.WriteLine | pkg/audit/audit.go:447-526 | a write refuses when degraded, rotates by date or size, and else appends one line; when it rotates is `AuditRotation.RotatesExactly` |
| AuditLog.Logger.Append | pkg/audit/audit.go:481-526 | on every outcome of write, flush and sync: the bytes on disk, the size and the chain head; that the size is the file's is `AuditRotation.RunRotatesExactly` |
| AuditRuns.EmbedIsRecord | pkg/audit/hmac.go:289-313 | what embedHMAC writes is one line, one object, with a digest that links to the previous one |
| AuditRuns.TornReads | pkg/audit/audit.go:688-742 | a record cut short anywhere is not JSON, so the repair recognises it |
| AuditRuns.AppendSound | pkg/audit/audit.go:481-526 | a write, complete or torn by a crash, keeps the chain on disk and the logger in step with it |
| AuditRuns.RotateSound | pkg/audit/audit.go:627-673 | a rotation that replaces no line, successful or not, keeps every line in order and the chain unbroken across files |
| AuditRuns.RotateKeepsExactly | pkg/audit/audit.go:627-656 | a rotation keeps every line on disk if and only if no file of the new name holds one; else lines are lost |
| AuditRuns.RotateExactly | pkg/audit/audit.go:627-673 | so the logger stays in step with a sound log exactly then, or the hash is broken |
| AuditRuns.SameMillisecondLoses | pkg/audit/audit.go:638-656 | a third rotation of a date in the millisecond of the second loses records |
| AuditRuns.SeedOfRecords | pkg/audit/verify.go:319-386 | over logged records the seed found is the digest of the last record without a number beyond float64 |
| AuditRuns.StartSound | pkg/audit/audit.go:573-611 | a restart over a resumable directory continues the chain |
| AuditRuns.StartExact | pkg/audit/audit.go:573-611 | and only over such a one, unless the hash is broken on the log's own records |
| AuditTraces.RunSound | pkg/audit/audit.go:447-526 | every faithful run of writes, rotations, torn writes, closes and restarts keeps one verified chain across all files, whose records are exactly the payloads that landed, in order |
| AuditTraces.RunFromEmpty | pkg/audit/audit.go:573-673 | from an empty directory: one chain from genesis with exactly the landed payloads, in files of distinct names, the logger in step |
| AuditTraces.AcceptedLands | pkg/audit/audit.go:447-526 | a write that reports success has its whole line on disk |
| AuditTraces.DegradedAbsorbs | pkg/audit/audit.go:447-475 | without a restart, a degraded logger changes no byte of the directory and refuses every write, over any run |
| AuditTraces.SyncFailureForks | pkg/audit/audit.go:496-524 | after a failed sync the next write is accepted and its record forks the chain: the log verifies only if the hash is broken |
| AuditRotation.RotatesExactly | pkg/audit/audit.go:447-526 | a live logger whose size is the file's goes on in audit.jsonl exactly if the day is the same and the file holds fewer than max bytes; else, exactly if rename, open and stat succeed, the old bytes become a rotated file named after their day, audit.jsonl is the new line alone and the write is accepted, and otherwise the logger degrades |
| AuditRotation.AcceptedFits | pkg/audit/audit.go:455-526 | an accepted line is the last of a file of today that held fewer than max bytes before it |
| AuditRotation.RunRotatesExactly | pkg/audit/audit.go:447-526 | in every faithful run from an empty directory a live logger's size is the length of audit.jsonl, so each write rotates by the bytes on disk and the clock alone |
| AuditRotation.UnstampedAccepted | pkg/audit/audit.go:476-524 | an accepted payload that is no JSON object goes in byte for byte without a digest, and the chain head stays |
| AuditRotation.ClosedForGood | pkg/audit/audit.go:301-571 | a logger that was closed, or whose start could not open or stat the file, refuses every write and changes no byte over any run without another start |
| AuditVerify.VerifyFile | pkg/audit/verify.go:127-247 | an intact verdict exactly for readable rows, legacy rows first, then a chain from the seed; else the first bad row, why, and how much was scanned; an I/O error exactly at the first row of 2^20 bytes |
| AuditVerify.IntactSnoc | pkg/audit/verify.go:157-241 | what one more row may be |
| AuditVerify.IntactExactly | pkg/audit/verify.go:127-247 | the verdict is intact if and only if the file is |
| AuditVerify.BrokenWhy | pkg/audit/verify.go:157-238 | each of the four reasons of a broken file in terms of its row: no JSON map, a missing digest behind a row that has one, a digest that is not 32 bytes of hex, or one that is not the HMAC of the digest before it and the row's canonical text |
| AuditVerify.IntactNumbers | pkg/audit/verify.go:157-247 | the numbers of an intact file: the line of its last digest, how many rows come before the chain, and that digest, or the seed if there is none |
| AuditVerify.UnsignedBehindSigned | pkg/audit/verify.go:178-205 | a file with a row without a digest anywhere behind a row with one is never intact |
| AuditVerify.VerifyDir | pkg/audit/verify.go:260-308 | success exactly if the files, by name and audit.jsonl last, are intact and continue each other; else the first file that is not; with the summed entry and pre-chain counts |
| AuditDirectory.SoundVerifies | pkg/audit/verify.go:249-259 | in the order they were written, the files of every sound log at rest verify, through to the digest the logger continues from |
| AuditDirectory.SoundVerifiesExactly | pkg/audit/verify.go:127-157 | and that needs exactly that no line has 2^20 bytes |
| AuditDirectory.OneOrder | pkg/audit/verify.go:249-259 | two chains of the same records are the same chain, or the hash is broken |
| AuditDirectory.FinalPinsRecords | pkg/audit/hmac.go:18-34 | two directories of any contents that verify and end in one digest hold the same JSON records, or the hash is broken |
| AuditOrder.ReadsAsWritten | pkg/audit/verify.go:249-276 | if the files with records were made in the order of their names, reading by name is reading as written |
| AuditOrder.VerifyDirExact | pkg/audit/verify.go:249-276 | VerifyDir accepts a sound log with nothing unfinished exactly under that condition and if no line has 2^20 bytes, or the hash is broken |
| AuditOrder.SecondRotationOfADay | pkg/audit/audit.go:627-656 | a second rotation on one date, both files with records, breaks the condition |
| AuditOrder.RunVerifiesExactly | pkg/audit/verify.go:249-308 | end to end: after any faithful run from an empty directory that leaves nothing unfinished, VerifyDir accepts exactly if no line has 2^20 bytes and the files with records were made in the order of their names, or the hash is broken |
| AuditLimits.LongRecordRejected | pkg/audit/verify.go:147-157 | a payload with a string of 2^20 bytes is accepted, the chain stays sound, and VerifyDir fails |
| AuditLimits.NullPayload | pkg/audit/hmac.go:289-313 | the text null decodes, to a nil map |
| AuditLimits.RestartAfterRotation | pkg/audit/audit.go:596-611 | a restart between a rotation and the next write resumes at genesis, out of step with a chain that holds records unless the hash is broken |
| Scorer.ExtractJSON | evals/judge/scorer.go:47-89 | the scanner returns the shortest beginning, from the first brace, whose braces outside strings balance, or an error exactly if there is none |
| Scorer.ExtractsObject | evals/judge/scorer.go:60-89 | for any JSON object, any prefix without a brace and any suffix, exactly the object comes out |
| Scorer.CutObjectUnreadable | pkg/audit/audit.go:688-742 | no proper beginning of a JSON object is JSON |
| Braces.ObjectRead | evals/judge/scorer.go:62-86 | over a JSON object the scanner comes back to where it was and never below |
| History.AnsweredBlocks | pkg/agent/context.go:838-901 | every call is answered in the tool run right after it exactly if every turn is complete |
| History.FlattenInjective | pkg/agent/context.go:838-901 | a history splits into turns in one way only |
| Sanitize.FindAssistant | pkg/agent/context.go:793-811 | the backward walk finds out whether the nearest message that is no tool message is a calling assistant |
| Sanitize.FirstPass | pkg/agent/context.go:777-836 | the first pass is adding messages to turns one by one |
| Sanitize.CheckResults | pkg/agent/context.go:856-893 | the inner loops count the tool run and decide whether it answers every call |
| Sanitize.SecondPass | pkg/agent/context.go:838-901 | the second pass: repeated ids go, incomplete turns go with their results |
| Sanitize.SecondPrunes | pkg/agent/context.go:838-901 | on turns: incomplete ones are dropped and the others lose the ids already seen |
| Sanitize.SanitizeHistoryForProvider | pkg/agent/context.go:772-901 | both loops together compute the composition of the two passes |
| SanitizedHistory.NothingStray | pkg/agent/context.go:777-900 | always: a subsequence without system messages in which every tool message is in the run of a calling assistant |
| SanitizedHistory.AnsweredExactly | pkg/agent/context.go:838-901 | every kept call is answered in its run if and only if no complete turn calls for an id an earlier complete turn answers |
| SanitizedHistory.PrecededWhenUnused | pkg/agent/context.go:813-828 | under that condition every kept calling assistant stands right after a user or tool message |
| PrecededHistory.PrecededExactly | pkg/agent/context.go:838-901 | and in general exactly if no complete turn is followed, over dropped turns only, by another one after losing all its results to earlier turns |
| SanitizedHistory.IdempotentExactly | pkg/agent/context.go:772-901 | sanitising twice is sanitising once, if and only if the same condition holds |
| SanitizedHistory.ReusedIdUnpairs | pkg/agent/context.go:838-901 | six messages, one call and its result in two turns: the result of sanitising is unpaired and not a fixed point |
| SanitizedHistory.UnspannedPaired | pkg/agent/context.go:772-901 | enough on the input itself: no non-empty result id in two separate tool runs |
| KeptHistory.ConversationKept | pkg/agent/context.go:772-901 | every message that is no system message, no result and no calling assistant is still there, in order |
| KeptHistory.KeptExactly | pkg/agent/context.go:772-901 | sanitising leaves a history as it is if and only if it has no system message, every result is in the run of a calling assistant, every call is answered in its run, every calling assistant stands right behind a user or tool message, and no two results carry one id |
| Repair.IndexOf | pkg/agent/repair.go:348-369 | the transcript index knows exactly the non-empty ids, each under its own id |
| Repair.CollectToolIDs | pkg/agent/repair.go:113-131 | the declared and the resolved ids |
| Repair.InjectSyntheticToolUses | pkg/agent/repair.go:139-202 | each assistant gets a call for every known orphan result before the next assistant; both counters |
| Repair.InjectSyntheticToolResults | pkg/agent/repair.go:209-273 | each unanswered call gets a replayed result or a stub at the end of its tool run, with both counters; which one is `ReplayedResults.RepairPutsIn` |
| Repair.RepairHistory | pkg/agent/repair.go:40-108 | the whole: nothing without orphans or transcript, else calls first, results then; what that puts in is `ReplayedResults.RepairPutsIn` |
| RepairedHistory.RepairGrows | pkg/agent/repair.go:40-273 | every message stays, in order; only assistants gain calls; exactly replayed plus stubbed messages are put in |
| RepairedHistory.RepairResolves | pkg/agent/repair.go:60-107 | with the transcript no declared id stays unresolved |
| RepairedHistory.RepairCounts | pkg/agent/repair.go:139-202 | every orphan result behind an assistant is counted once, as added or as unrepairable |
| ReplayedResults.IndexLast | pkg/agent/repair.go:348-369 | the index holds for each id its last call in the transcript |
| ReplayedResults.RepairPutsIn | pkg/agent/repair.go:60-107 | each assistant gains exactly the transcript's calls for the orphan results in its window, and every message put in answers an unanswered id: with the tool's fresh answer exactly if the transcript's call names one of the nine read-only tools and the tool answers, else with a note that names the id; the counters count the two |
| ReplayedResults.UnsafeNeverRuns | pkg/agent/repair.go:280-392 | if no unanswered call is one of those nine tools in the transcript, the result is the same whatever the tools would answer, and nothing counts as replayed |
| ReplayedResults.RepairPlaces | pkg/agent/repair.go:209-273 | every call that was unanswered is answered in the tool run of each assistant that makes it |
| RepairedHistory.RepairTwice | pkg/agent/repair.go:40-108 | a second repair changes no message, whatever the tools answer then |
| RepairedHistory.NothingToFill | pkg/agent/context.go:838-901 | after sanitising every declared id is answered somewhere, so repair puts in no message |
| RepairedHistory.PairedExactly | pkg/agent/repair.go:40-202 | sanitise then repair gives a fully paired conversation if and only if no answered id is reused and every undeclared result is known to the transcript |
| RepairedHistory.PairedEnough | pkg/agent/repair.go:40-202 | enough on the inputs: no result id in two tool runs, none empty, all known to the transcript |
| Recovery.ExtractJSONStringField | pkg/agent/session_recovery.go:155-179 | the text from the first occurrence of the field to the next quote |
| Recovery.ReadBackExactly | pkg/agent/session_recovery.go:88-92 | an id is read back from its record if and only if %q leaves it as it is |
| Recovery.FindOrphanedToolCalls | pkg/agent/session_recovery.go:185-233 | the calls of the last assistant that no later message answers |
| Recovery.StripOrphanedAssistantTurn | pkg/agent/session_recovery.go:239-258 | the history before the last assistant, if that one has calls |
| Recovery.ExistingCancelledToolCallIDs | pkg/agent/session_recovery.go:134-149 | the ids of the recovery records in the history |
| Recovery.RecoverOrphanedToolCalls | pkg/agent/session_recovery.go:61-128 | one record per unanswered call not yet recorded is appended, and the cleaned history returned |
| Recovery.OneRecordEach | pkg/agent/session_recovery.go:61-128 | the records appended are, in the order of the calls, one for each call of the last assistant that no tool message behind it answers and no earlier record names |
| Recovery.RecoveredPrefix | pkg/agent/session_recovery.go:61-128 | the result is a beginning of the history, cut before the last assistant exactly if that one has an unanswered call |
| Recovery.RecoveryIdempotent | pkg/agent/session_recovery.go:61-128 | a second call on the history with the new records returns the same prefix |
| Recovery.RecoveryExactly | pkg/agent/session_recovery.go:79-149 | and appends nothing if and only if no unanswered call that had no record yet has an id that is empty or changed by %q |
| Recovery.EmptyIdRepeats | pkg/agent/session_recovery.go:134-149 | a call without an id is recorded again by every call |
| Hydrate.GroupPerAgent | pkg/agent/attach_hydrate.go:70-165 | the single pass over a map of lists gives every known agent its projection of the transcript |
| Hydrate.HydrateAgentHistory | pkg/agent/attach_hydrate.go:34-190 | every available agent named in the transcript, and the session's owner, gets its projection; no other store changes; what the projection is, is `HydratedHistory.EntryReaches` |
| HydratedHistory.EntryReaches | pkg/agent/attach_hydrate.go:70-165 | one more entry extends the history of every agent by the brief or user message; an assistant's entry extends only the history of the agent it names, the owner's if it names none, by one assistant message with its text and its identified calls and then one result per call with the recorded text, and by nothing exactly if both are empty |
| Hydrate.HydratedPaired | pkg/agent/attach_hydrate.go:122-158 | a hydrated history is fully paired: repair is the identity on it and recovery finds nothing |
| Hydrate.HydratedKeptExactly | pkg/agent/attach_hydrate.go:122-158 | sanitising keeps it whole if and only if every calling assistant stands right behind a user or tool message and no two results carry one id |
| Hydrate.DedupedExactly | pkg/agent/context.go:838-901 | the second pass takes no result from whole turns exactly if their non-empty result ids are distinct |
| Hydrate.TwoAssistantsLose | pkg/agent/attach_hydrate.go:122-158 | an assistant entry with text alone and then one with a call: sanitising changes the hydrated history |
| Hydrate.SharedContext | pkg/agent/attach_hydrate.go:87-121 | all agents of a session see the same user messages and handoff briefs in the same order |
| Compression.ParseTurnBoundaries | pkg/agent/context_budget.go:22-30 | exactly the positions of the user messages, in order |
| Compression.FindSafeBoundary | pkg/agent/context_budget.go:46-87 | the last boundary at or before the target, else the first after it, 0 only for a single turn from the start |
| Compression.IsOverContextBudget | pkg/agent/context_budget.go:161-176 | over exactly if the sum of the estimates exceeds the window |
| Compression.AsciiTokens | pkg/agent/context_budget.go:92-130 | a plain ASCII message counts two tokens for five characters, with twelve characters for the message itself |
| Compression.Session.ForceCompression | pkg/agent/loop.go:5717-5782 | which messages stay, the two counts, and the note in the summary |
| Compression.KeepsUnique | pkg/agent/loop.go:5717-5752 | the history alone decides what is kept |
| Compression.CompressionShrinks | pkg/agent/loop.go:5717-5782 | at least one message goes and one stays, and the token estimate never grows |
| Compression.CompressionKeepsTurns | pkg/agent/loop.go:5723-5730 | with two turns or more: a suffix that starts at a user message, holds exactly the newer half of the turns, the larger one, and tears no tool run from its call |
| Compression.CompressionOtherwise | pkg/agent/loop.go:5731-5752 | with fewer: exactly when only the first message stays, the newer half of the messages if there is no turn, and the only case in which a run can be torn |
| RestorePoint.MatchingTurnMessageTail | pkg/agent/turn.go:566-574 | the longest common tail |
| RestorePoint.Turn.RefreshRestorePointFromSession | pkg/agent/turn.go:540-553 | the new restore point is the session without its longest common tail with the written messages |
| RestorePoint.Turn.Compress | pkg/agent/loop.go:3737-3748 | compression in a turn refreshes the restore point |
| RestorePoint.SuffixHolds | pkg/agent/turn.go:540-574 | if the session is the restore point and then written messages, and compression keeps a suffix, the new restore point is a suffix of the old |
| RestorePoint.AbortRestores | pkg/agent/loop.go:5545-5561 | over any run of writes and such compressions an abort puts back an end of the old session and no message of the turn |
| RestorePoint.SuffixExactly | pkg/agent/loop.go:5731-5752 | compression keeps no suffix exactly for one turn from the first message on |
| RestorePoint.AbortExactly | pkg/agent/loop.go:5731-5752 | after one more compression an abort puts back an end of the old restore point, except exactly when the session is one turn from its first message on and the restore point is not that message; there it puts back that message alone, the turn's own if nothing is older |
| RestorePoint.UnrecordedStays | pkg/agent/loop.go:5443-5458 | a message that is not recorded survives an abort after a refresh |
| TurnLoop.RunBatch | pkg/agent/loop.go:4774-5459 | a batch ends exactly if no call breaks it before or at the one that stops it; then on every mix of refused, denied, run and skipped calls it adds one tool message per call in order with its content, and each SubTurn result behind its call; what is recorded; what is left pending; else the first breaking call decides between abort and error |
| TurnLoop.BatchReads | pkg/agent/loop.go:5387-5458 | what the model is told: up to the call that stops the batch -- the first tool behind which steering or a graceful interrupt is found -- each call's own outcome, behind it which of the two made it skip, and the text of every SubTurn result right behind the result of its call |
| TurnLoop.BatchBalanced | pkg/agent/loop.go:4774-5459 | so a finished batch answers its assistant completely, and declares every result |
| TurnLoop.Round | pkg/agent/loop.go:3788-5464 | for every outcome: whether the model is asked; that it is asked with the pending messages, then the steering polled, then the SubTurn result, behind all earlier messages; that the round leaves with exactly the model's text, or that of the one retry, or the fallback; what a batch adds and leaves pending; and that the session gets the same messages |
| TurnLoop.Reply | pkg/agent/loop.go:4628-4718 | steering that is queued goes first; else the answer is the reply's text -- its content, or its reasoning if that is all there is -- unless it is blank, after one direct retry in the turn that of the retry, and the fallback text if that is blank too |
| TurnLoop.RunTurn | pkg/agent/loop.go:3788-5502 | for any schedule, re-entry included: at most twice MaxIterations model rounds and one direct retry; the session ends in the final answer; that is the text of the last reply behind which no steering was queued, or the limit or default text exactly if no round was left by a reply; the initial messages came first, and on such a reply no queued message was lost; without SubTurn results a paired list stays paired, and session, model list and record grow by the same messages |
| TurnLoop.PairedTurn | pkg/agent/loop.go:4774-5459 | a paired list stays paired when a calling assistant and the results of all its calls are added |
| TurnLoop.BatchAccounted | pkg/agent/loop.go:5387-5458 | a batch without a SubTurn result keeps the session equal to the restore point and the recorded messages |
| TurnLoop.TurnAccounted | pkg/agent/loop.go:3788-5502 | so does a whole turn in which no tool leaves a SubTurn result |
| Cancel.NextInv | pkg/agent/cancel.go:138-311 | every step of every thread keeps the invariant: one claim, the frames of the claimed request, the callback in one place |
| Cancel.CancelSafe | pkg/agent/cancel.go:138-311 | in every interleaving at most one request fires, the frames are a beginning of graceful, hard, detached, and the callback runs at most once |
| Cancel.CallbackRuns | pkg/agent/turn.go:672-739 | it has run exactly once when a Finish that began after the registration is over and none holds it |
| Cancel.CallbackRunsExactly | pkg/agent/turn.go:672-739 | in every interleaving, when no Finish holds it, it has run if and only if some Finish that saw the claim came to its last critical section after the registration |
| Cancel.NoClaimNoCallback | pkg/agent/cancel.go:162-218 | before a registration no callback runs and no frame is sent |
| Cancel.DetachedIsAbandoned | pkg/agent/cancel.go:285-303 | a detached frame is sent only for an abandoned turn |
| Cancel.NoGracefulAfterAbort | pkg/agent/turn.go:466-513 | in a turn that is hard-aborted no graceful request is accepted any more; that a hard abort does abort it is `Cancel.AbortTakesEffect` |
| Cancel.AbortTakesEffect | pkg/agent/cancel.go:258-272 | on every path, after the hard stage of a request that reaches the turn or a hard abort from outside, the turn is hard-aborted for good and the number of accepted graceful requests never grows again |
| Cancel.AcceptedIsGraceful | pkg/agent/turn.go:466-487 | on every path a turn is interrupted exactly if it has accepted a graceful request, and no write is suppressed before a request has come to its last stage |
| Cancel.FinishStopsStages | pkg/agent/cancel.go:237-303 | once the turn is finished, a request that has not yet found it alive behind its graceful frame sends no hard frame, and one not past the check behind its hard frame no detached one, in every interleaving |
| Cancel.NoWriteAfterAbandon | pkg/agent/turn.go:596-601 | once a turn is abandoned no writer starts that was not past its check |
| Cancel.CallbackLost | pkg/agent/cancel.go:172-183 | a run in which the turn finishes between claim and registration and the callback never runs |
| Memory.ParseEntryBlock | pkg/agent/memory.go:302-342 | the loop over the header fields computes the entry of the block, if it has a header |
| Memory.SliceableExactly | pkg/agent/memory.go:302-312 | the blocks on which the source slices out of range are exactly those that start with `<!-->` or `<!--->` |
| Memory.ParseLongTermEntries | pkg/agent/memory.go:258-298 | the blocks in order, legacy blocks only before the first header |
| Memory.BlocksPicked | pkg/agent/memory.go:258-298 | which blocks become entries: those not blank that have a header, or stand before every block with one, the latter as legacy entries with the file's mtime and their whole text |
| Memory.HeaderReads | pkg/agent/memory.go:302-342 | a header's last readable time and last category count, one of them is enough, and the rest of the block is the text |
| Memory.HandWritten | pkg/agent/memory.go:258-298 | a file without separators that does not begin with a comment is one legacy entry with its whole trimmed text |
| Memory.Reverse | pkg/agent/memory.go:240-243 | the in-place swaps reverse the entries |
| Memory.Store.AppendLongTerm | pkg/agent/memory.go:148-209 | accepts exactly known categories and non-empty trimmed texts within the limit and without a comment marker, and appends exactly one entry |
| Memory.AcceptableExactly | pkg/agent/memory.go:148-172 | accepted are exactly texts of one of the three categories that are not blank without their NUL bytes and outer space, have at most 4096 runes then, and begin no comment |
| Memory.StripNulKeeps | pkg/agent/memory.go:148-209 | of the text only the NUL bytes go, wherever they stand, and the rest keeps its order |
| Memory.Store.ReadLongTermEntries | pkg/agent/memory.go:215-253 | the cached entries while the mtime has not advanced, else the parsed ones reversed; fresh whenever the cache is valid |
| MemoryFormat.BlockReads | pkg/agent/memory.go:302-342 | a written block reads back as its entry |
| MemoryFormat.AppendThenParse | pkg/agent/memory.go:148-342 | what was appended to an empty file parses back to exactly those times, categories and trimmed texts, in order |
| MemoryFormat.AppendsAndReads | pkg/agent/memory.go:148-253 | over any run of appends and reads every read, cached or not, returns the entries accepted before it newest first, if each accepted write advances the mtime |
| Memory.BuildBudgeted | pkg/agent/memory.go:856-883 | a newest part: at least ten entries, within the budget beyond that, and as long as the budget allows |
| PromptCache.BuildCacheBaseline | pkg/agent/context.go:391-449 | which paths exist, the mtimes of skill files and the latest mtime, each path at the moment of its stat |
| PromptCache.ContextBuilder.SourceFilesChanged | pkg/agent/context.go:459-517 | changed exactly if a path came, went or is newer, or the skill files differ |
| PromptCache.ContextBuilder.BuildSystemPromptWithCache | pkg/agent/context.go:298-336 | a hit exactly if there is a prompt and one of the two checks finds no change, and then the cached prompt; else a miss, which caches what it builds with the stats before its reads |
| PromptCache.CheckExactly | pkg/agent/context.go:459-578 | the check passes if and only if every tracked path is there or gone as at its stat, no file is newer than all seen then, and the skill files and their times are the same |
| PromptCache.HitIsFresh | pkg/agent/context.go:315-328 | a hit is what a build at the moment of the check would give, even with edits during the build, if writes get later mtimes and no path flickers |
| PromptCache.HitExactly | pkg/agent/context.go:484-578 | if writes get later mtimes and the check passes, the texts read are those at the check if and only if no path was there for its read alone |
| PromptCache.Run | pkg/agent/context.go:298-336 | over any run of calls and invalidations every call returns what a fresh build at one of its checks would give, or builds itself |
| PromptCache.FlickerIsStale | pkg/agent/context.go:484-509 | whatever else is tracked, the check sees no change of a path that was there only for its read |
| HookProcess.PendingCalls.FailPending | pkg/agent/hook_process.go:468-487 | every open call gets the failure and is closed, in any order |
| HookProcess.NextInv | pkg/agent/hook_process.go:325-497 | every step of callers, reader and exit keeps the invariant |
| HookProcess.RepliesReachTheirCallers | pkg/agent/hook_process.go:325-446 | in every interleaving a channel gets at most one message and one close, and a reply reaches only the caller with its id, as section 5 of JSON-RPC 2.0 asks |
| HookProcess.SendsAreSafe | pkg/agent/hook_process.go:435-497 | nothing is ever sent on a closed or filled channel, and none is closed twice |
| HookProcess.IdsAreUnique | pkg/agent/hook_process.go:330-334 | no two callers share an id |
| HookProcess.ArrivedIsDelivered | pkg/agent/hook_process.go:325-497 | a reply whose id is open is what its caller gets, whatever happens in between, unless the caller gives up; so is the failure at exit for every call then open |
| HookProcess.WaitingIsOpen | pkg/agent/hook_process.go:325-446 | in every interleaving a caller that waits with an empty channel is still open for its reply, or the reader is about to send it |
| HookProcess.EveryChannelClosed | pkg/agent/hook_process.go:448-497 | when no call is open and the reader is between replies, every channel has been closed exactly once |
| HookProcess.NeverClosedEmpty | pkg/agent/hook_process.go:325-497 | no caller ever finds its channel closed and empty |
| CancelAbuse.Detector.RecordAttempt | pkg/agent/cancel_abuse.go:60-114 | alerts exactly when plain counting since the last alert does, for times that do not go back |
| CancelAbuse.AlertsExactly | pkg/agent/cancel_abuse.go:60-95 | an attempt alerts if and only if, itself included, burstAt attempts of its user and channel lie less than a window back and behind the last alert |
| CancelAbuse.RecordTracks | pkg/agent/cancel_abuse.go:67-93 | pruning keeps what later windows can count |
| CancelAbuse.EvictTracks | pkg/agent/cancel_abuse.go:118-130 | eviction removes exactly the keys whose newest time is older than two windows, and only what no later window counts |

## Left out

- AuditLog.Logger.WriteLine: `Log` and its redaction, the JSON encoding of an `Entry`, the retention sweep and file permissions are not modelled; the payload is any JSON object text.
- AuditLog.Logger.Append: a failed flush is a step of the model, but runs with one are not part of `AuditTraces.RunSound`, because the logger returns before its chain head advances.
- AuditVerify.VerifyFile: cancellation through the context and the wording of reasons; a reason is one of four kinds.
- AuditChain.ComputeEntryHmac: SHA-256, HKDF and the choice of the key; the keyed hash is a parameter.
- Json.ParseValue: the nesting limit of 10000 of encoding/json, and Go's replacement of invalid UTF-8 outside strings.
- Encoder.CanonicalEncode: Go integers and floats reach the printer as number text; formatting a float64 is not modelled.
- Scorer.ExtractJSON: the regular expression that finds a code fence; its match is an input.
- Scorer.ExtractsObject: `NewScore` and `clampAndReport` are settled by reading one comparison.
- Repair.RepairHistory: counters are values handed through instead of fields behind a pointer.
- Recovery.RecoverOrphanedToolCalls: the audit events, and errors of saving the session.
- Hydrate.HydrateAgentHistory: the text of a tool result is an input, as are the session's owner and the set of available agents.
- Compression.Session.ForceCompression: the text of the summary note is a parameter of the number of dropped messages; `summarizeSession` and the estimate for tool definitions are not modelled.
- TurnLoop.RunTurn: model fallback, timeouts and context-overflow retries inside one round, media, streaming, events; the messages the turn writes are kept.
- TurnLoop.RunBatch: after a hook has renamed a tool the fate of the call is an input like any other.
- AuditLog.Logger.Start: a process that aborts at boot when the audit log was asked for and cannot be opened; the logger is degraded then.
- Cancel.TurnState.RequestHardAbort: the contexts of the turn and the provider call that a hard abort also cancels; their effect is a failed or aborted round.
- Cancel.CancelSafe: the duration of the timers; a timer may fire at any moment after it is armed. The `cancel_method` text follows the argument of `Finish` and is not tied to the stage.
- Memory.BuildBudgeted: entries enter with their rune counts; the text itself, SearchEntries and the retrospectives are not modelled.
- PromptCache.ContextBuilder.BuildSystemPromptWithCache: the text of the prompt is a function of the contents read; errors of walking a directory are not modelled, and a check sees one moment.
- HookProcess.RepliesReachTheirCallers: the id counter does not wrap, and what is written to the process is not modelled.
- CancelAbuse.Detector.RecordAttempt: the audit event itself; a clock that goes back is outside the contract.
* The steering queue, routing, policies, MCP, channels, the gateway and the front end.
