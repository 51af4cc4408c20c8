# Verified models of the FinData engines

This project models nine engines of the FinData / BizData backend and proves what they are relied on for.
Each engine is a few modules; nothing here depends on NestJS, Prisma or Postgres, whose tables are
sequences and maps and whose queries are filters and folds.

| engine | files |
|---|---|
| tamper-evident audit log: canonical serializer, hash chain and its checker, locked append under concurrency | `StableJson`, `JsonText`, `AuditChain`, `AuditLog`, `AuditHistory` |
| CSV reader and printer | `Csv`, `UploadCsv` |
| declared-income import, preview and commit | `DeclaredIncome`, `DeclaredAnswers` |
| Base32 over a 32-bit accumulator | `Base32`, `Base32Numbers` |
| reportable-taxpayer query, and its cache with single flight | `ReportableScan`, `ReportableCache` |
| versioned ciphertext, key-rotation sweep, resumable backfill | `Crypto`, `Rotation`, `OldKeys`, `Backfill`, `BackfillResults`, `StagedBackfill` |
| bank-filing importer: concurrent find-or-create against unique indexes | `BankImport`, `LostLinks`, `ImportRecords`, `ImportAnswers` |
| timed access: four-eyes grants, password epochs, reset tokens, step-up sessions | `AccessGrants`, `GrantHistory`, `OpenGrants`, `AccessAnswers`, `Sessions`, `Passwords`, `SignIns` |
| two lifecycles: the enforcement case with its money totals, the timed exam | `Cases`, `Assessments`, `CaseMoney`, `CaseAnswers`, `ExamDraw`, `Exam`, `ExamAnswers` |

How it is built:

- Code that updates state is a class whose methods are proved against a step function (`AuditService`,
  `DeclaredIncomeService`, `ReportableService`, `PiiTable`, `RecordTable`, `ImportDb`, the two access
  services, `AssessmentService`, `CasesService`, `AuthService`); runs are sequences of actions over the same
  step functions, and the main theorems are about every run.
- What an operation answers and writes is also said without its step function, in terms of fields, texts, the
  actions of the run or the batch as a whole: the modules named `...Answers`, and `JsonText`, `AuditHistory`,
  `Base32Numbers`, `OldKeys`, `BackfillResults`, `Passwords` and `SignIns`.
- Where interleaving is the point (audit writers, cache callers, importer workers) an action is the code
  between two awaits. Elsewhere a request is one action.
- SHA-256, AES-GCM, bcrypt, base64, `toISOString`, string case and trimming, and number parsing are function
  parameters. What is assumed of them is written in each contract: a digest is 64 hex digits
  (`AuditChain.Digests`), opening undoes sealing under the same key and base64 has no dot
  (`Crypto.CipherOk`), ASCII letters upper-case as usual (`Base32.AsciiUpper`), distinct times have distinct
  ISO texts (`AuditChain.IsoInjective`). No hash into 64 digits is injective, so theorems about the log say
  "or here are two texts with one digest".
- Random draws, random tokens, IVs and clock readings are inputs; every theorem holds for all of them. A
  clock is arbitrary unless a contract says it is ordered.
- Money is in whole kobo, times in milliseconds (step-up tokens: seconds), exam scores in hundredths. Where
  binary rounding matters - the demand raised with a notice, the dashboard's sums - reading, multiplying and
  adding machine numbers are parameters. Exact conditions assume only that they keep signs
  (`Assessments.KeepsSigns`), error bounds that each operation has a small relative error, for doubles 2 to the
  -53 (`Cases.Accurate`).

## Where the code does not do what is expected of it

Each of these is proved, with the exact condition where there is one.

- An audit entry holding an `undefined` object member is hashed over a member jsonb does not keep, and
  `verify()` rejects the log from there on; a record review without notes is such an entry
  (`StableJson.StoredCopyPrintsAlike`, `AuditLog.NoFork`, `AuditLog.ReviewWithoutNotesIsNotReproducible`).
- `toCsv` does not quote a cell for a carriage return alone, and never quotes headers: a table with a comma, a
  line break or a double quote in a header does not read back (`UploadCsv.ParseUndoesToCsv`,
  `UploadCsv.CarriageReturnSplitsARow`).
- Upper-casing before the alphabet lookup turns some non-alphabet characters into letters
  (`Base32.IgnoredExactlyWhenNoLetter`).
- A preview counts rows the database will refuse: those with too large an amount, and those with a U+0000 in
  their notes or source (`DeclaredIncome.PreviewEqualsCommit`, `DeclaredIncome.PreviewEqualsCommitOnColumns`).
- A month label `YYYY-00` counts towards the first quarter (`ReportableScan.MonthsOfQuarter`).
- Key rotation erases a ciphertext it cannot decrypt (`Crypto.ReencryptKeepsOrErases`,
  `Rotation.SweepKeepsData`).
- The backfill's query takes text like `vx.1` for a ciphertext, its own test does not. In a row that an
  indexes-only run visits and a later full run then skips, such text stays in the clear, where one full run
  alone would have encrypted it (`StagedBackfill.IndexesFirst`, `StagedBackfill.DisguisedValueStaysClear`).
- A clash on the company number alone leaves a filing row without a taxpayer although its BVN is usable
  (`LostLinks.NoLostLink`, `LostLinks.CompanyNumberLosesALink`).
- An approved grant that is not redeemed in time still counts as open: it answers every further request of
  its officer for that scope until somebody revokes it (`OpenGrants.LapsedApprovalLocksOut`). The schema
  comment (`backend/prisma/schema.prisma:449-470`) also says the approver is never the requester and that
  grants expire; the code allows self-approval and never sets EXPIRED. The model follows the code.
- Submitting after the exam's deadline is accepted and recorded as SUBMITTED, but nothing saved after the
  deadline counts (`Exam.ExamIntegrity`). With fewer than ten active questions the full mark is out of reach
  (`Exam.ScoreBounds`).
- A demand need not be its tax plus its penalty: each is rounded on its own, and at the seeded 10 per cent a tax
  of 0.45 is demanded as 0.45 plus 0.05 makes 0.49 (`Assessments.NoticeAddsUp`,
  `Assessments.TenPercentLosesAKobo`). At that rate only a tax that ends in 5 kobo can fail
  (`Assessments.TenPercentAddsUp`).
- The dashboard's recovered total drops when a recovered case is closed (`CaseMoney.ClosingDropsRecovered`).
- The comment at `backend/src/modules/auth/auth.service.ts:202-207` says a step-up token lives ten minutes; it
  lives five. The one at `:373-378` says a completed reset forces a change at the next login; the code clears that
  flag, as its own comment further down explains (`Passwords.StoredPassword`).

Two properties hold because of what surrounds the code:

- Text decrypts to what was encrypted exactly when the active key id has no dot
  (`Crypto.DecryptUndoesEncrypt`); both key providers mint only the ids 1 to 20 and "dev"
  (`backend/src/common/services/key-provider.ts:101-118`, `:205-215`), so it always does.
- A cached set is never old as long as the caller that launched a query is resumed before time passes, which is
  what the event loop does (`ReportableCache.PromptRunsReturnRecentSets`). If the clock jumps or the process is
  suspended just then, a caller may join a query that finished 60 s ago
  (`ReportableCache.ReturnedSetIsRecentScan`, `ReportableCache.LateCallerGetsOldSet`).

## Model

| member | source | states |
|---|---|---|
| Csv.ParseCsv | backend/src/modules/declared-income/declared-income.service.ts:297-333 | the one-pass loop with its look-ahead and index jumps computes the reader `Parse`, whose laws are the next rows |
| Csv.RunLines | backend/src/modules/declared-income/declared-income.service.ts:303-329 | from any reader state at a row start, reading printed lines appends exactly their non-blank rows |
| Csv.ParseUndoesPrint | backend/src/modules/declared-income/declared-income.service.ts:297-333 | for any grid, any legal choice of quoting per cell, any mix of LF, CRLF and CR, with or without a byte-order mark and final newline, the reader gives the grid minus its blank rows (section 2 of RFC 4180) |
| Csv.ParseUndoesPrintExactly | backend/src/modules/declared-income/declared-income.service.ts:297-333 | that round trip holds if and only if every cell is legally quoted and no U+FEFF of the data is printed first |
| Csv.ParseConserves | backend/src/modules/declared-income/declared-income.service.ts:302-332 | every occurrence of every character except the double quote is either in a returned cell or was read as a delimiter outside quotes |
| UploadCsv.ToCsv | backend/src/modules/iris-upload/import-plan.ts:240-245 | the printer's text is the header line and one line per record in RFC 4180 form, with the cells it quotes and LF between lines |
| UploadCsv.ParseUndoesToCsv | backend/src/modules/iris-upload/import-plan.ts:240-245 | for every table, reading the printed text returns its non-blank rows if and only if no header holds a double quote, comma or line break, no unquoted cell holds a carriage return, and the text does not start with U+FEFF |
| UploadCsv.ParsedWeight | backend/src/modules/declared-income/declared-income.service.ts:297-333 | of any text whatever: the quotes a printer would need for the cells the reader finds - two for a cell that needs them, two for each one it holds - are no more than the quotes in the text, plus one |
| UploadCsv.QuotedHeaderNeverReadsBack | backend/src/modules/iris-upload/import-plan.ts:240-245 | a table with a double quote in any header never reads back |
| UploadCsv.CarriageReturnSplitsARow | backend/src/modules/iris-upload/import-plan.ts:241-241 | a concrete record the printer leaves unquoted and the reader splits in two |
| StableJson.CancelPrint | backend/src/common/services/audit.service.ts:26-33 | unique readability: a canonical text can be cut off whatever follows it in one way only |
| StableJson.StringifyIsPrint | backend/src/common/services/audit.service.ts:26-33 | serializing with sorted keys is printing the canonical tree: sorting texts and sorting members agree |
| StableJson.StringifyInjective | backend/src/common/services/audit.service.ts:26-33 | two values serialize alike if and only if they are the same JSON value up to key order, undefined/null/non-finite, and Date/ISO string |
| StableJson.StoredIsMeaning | backend/src/common/services/audit.service.ts:105-106 | the value a jsonb column keeps is the value serialized if and only if no object member is undefined |
| StableJson.StoredCopyPrintsAlike | backend/src/common/services/audit.service.ts:26-33 | a copy read back with its keys in any order serializes as the original if and only if no object member was undefined |
| JsonText.StringifyDenotes | backend/src/common/services/audit.service.ts:26-33 | the serializer's text is JSON for its value by the grammar of RFC 8259: strings read back through their escapes (section 7), arrays in order, objects with their members in the order of their keys |
| AuditChain.Verify | backend/src/modules/audit/audit.service.ts:16-38 | the checker's loop accepts exactly the rows that form a chain, reports the head hash, and otherwise the first broken link with the reason that applies |
| AuditChain.PayloadInjective | backend/src/common/services/audit.service.ts:37-51 | two payload texts are equal if and only if all hashed fields and the timestamps are |
| AuditChain.UniqueSplit | backend/src/common/services/audit.service.ts:53-55 | the hashed text `prevHash + payload` determines both parts, empty first link included |
| AuditChain.SameDigestSamePrefix | backend/src/modules/audit/audit.service.ts:23-36 | in two accepted logs, rows with one digest sit at the same position and have the same history, unless the hash collides |
| AuditChain.HeadHashFixesLog | backend/src/modules/audit/audit.service.ts:16-38 | two accepted logs with one head hash have the same length and the same hashed fields in every row, or exhibit two texts with one digest |
| AuditLog.AuditService.FindLatest | backend/src/common/services/audit.service.ts:73-76 | the head is a row of greatest timestamp, none on an empty table |
| AuditLog.AuditService.Log | backend/src/common/services/audit.service.ts:64-117 | one row is appended, linked to the head and hashed over the entry, and stamped with the clock's time if that is after the last row, else one millisecond after it |
| AuditHistory.EveryRowIsOneAppend | backend/src/common/services/audit.service.ts:64-117 | over any interleaving there is one row per commit; each carries the entry of the append right before that commit, links and hashes it, and is stamped with the clock reading of that append, or one millisecond after the row before where the clock had not moved past it |
| AuditHistory.PayloadIsTheEntry | backend/src/common/services/audit.service.ts:37-51 | what is hashed is JSON for an object of the entry's seven fields and its time, an absent one null |
| AuditHistory.WriterGetsThrough | backend/src/common/services/audit.service.ts:64-111 | whenever the lock is free, a writer can take it, read the head, append and commit, and its row is then the last and the lock free again |
| AuditHistory.AbortFrees | backend/src/common/services/audit.service.ts:71-116 | a transaction that fails writes nothing and frees the lock |
| AuditLog.StepKeepsInv | backend/src/common/services/audit.service.ts:70-112 | every lock, read, append, commit or abort of any writer keeps: timestamps strictly increase, each row links to the one before, and only the lock holder has a pending row, which extends the current head |
| AuditLog.ReachableInv | backend/src/common/services/audit.service.ts:64-117 | that invariant holds after every interleaving of any number of writers |
| AuditLog.OrderedResultIsTable | backend/src/modules/audit/audit.service.ts:17-18 | with strictly increasing timestamps every result of the ordered query is the table in append order |
| AuditLog.NoFork | backend/src/common/services/audit.service.ts:64-117 | after any interleaving under any clock the ordered rows are accepted by the checker if and only if no committed entry held an undefined member, short of a collision between what was written and what was stored |
| AuditLog.ReviewWithoutNotesIsNotReproducible | backend/src/modules/data-records/data-records.service.ts:159-159 | the entry of a review without notes is hashed over a text its stored copy does not give |
| Base32.Encode | backend/src/common/services/totp.ts:11-19 | the loop over the overflowing accumulator emits the five-bit groups of the input's bits, the last one padded with zeros |
| Base32.Decode | backend/src/common/services/totp.ts:21-32 | the loop emits the eight-bit groups of the letters' bits, dropping fewer than eight left over |
| Base32.ShiftInPending | backend/src/common/services/totp.ts:14-28 | losing bits off the top of the 32-bit word never touches the bits not yet emitted |
| Base32Numbers.EncodingIsTheNumber | backend/src/common/services/totp.ts:11-19 | the text is A to Z and 2 to 7 only, of the least length, and read as digits in base 32 it is the number the bytes are in base 256, followed by the padding's zero bits |
| Base32.DecodeInvertsEncode | backend/src/common/services/totp.ts:11-32 | any text with the letters of the encoding, in any spelling, decodes to the encoded bytes |
| Base32.RoundTrip | backend/src/common/services/totp.ts:11-32 | decoding gives the bytes back, from the lower-cased text too, and n bytes make ceil(8n/5) letters (section 6 of RFC 4648) |
| Base32.IgnoredExactlyWhenNoLetter | backend/src/common/services/totp.ts:21-28 | a character can be inserted anywhere without changing the result if and only if upper-casing it yields no alphabet letter |
| DeclaredIncome.DeclaredIncomeService.Write | backend/src/modules/declared-income/declared-income.service.ts:225-250 | a create or update changes its own key, or throws and changes nothing, for whatever reason the database has |
| DeclaredIncome.DeclaredIncomeService.Upsert | backend/src/modules/declared-income/declared-income.service.ts:219-254 | the end of the loop body updates what exists and creates what does not, keeping what the row leaves blank; in a preview it only looks |
| DeclaredIncome.DeclaredIncomeService.ProcessRows | backend/src/modules/declared-income/declared-income.service.ts:170-280 | the import loop leaves the table and returns the report of the specification run, in preview and in commit |
| DeclaredAnswers.BatchOutcome | backend/src/modules/declared-income/declared-income.service.ts:182-275 | in terms of the batch alone: each taxpayer and year gets what its first row leaves - the amount to the kobo, its own source and notes or else the batch's or those stored - or stays as it was; each row is reported with the first of its problems, or counted as created or updated by whether the table held its key before |
| DeclaredIncome.PreviewEqualsCommit | backend/src/modules/declared-income/declared-income.service.ts:170-280 | preview changes nothing; its report equals the commit's if and only if no write of the commit throws, whatever makes it throw, and the commit reports one error more for each that does |
| DeclaredIncome.PreviewEqualsCommitOnColumns | backend/src/modules/declared-income/declared-income.service.ts:184-254 | over the real columns that is: every row that passes the checks has a finite amount of at most eighteen digits and no U+0000 in its notes or its source |
| DeclaredIncome.ImportAccounts | backend/src/modules/declared-income/declared-income.service.ts:170-280 | created, updated and skipped sum to the rows, each (taxpayer, year) is written at most once, and no other key changes |
| DeclaredIncome.SeenKeysSettled | backend/src/modules/declared-income/declared-income.service.ts:212-217 | a key once seen keeps its row to the end of the batch |
| DeclaredIncome.ReimportChangesNothing | backend/src/modules/declared-income/declared-income.service.ts:170-280 | importing the same rows again creates nothing, repeats the errors and leaves the table as it is |
| ReportableScan.MonthsOfQuarter | backend/src/common/services/reportable.service.ts:112-118 | a month label folds into a quarter of its year exactly when it is one of its three months, or month 00 for the first quarter |
| ReportableScan.ReportableIff | backend/src/common/services/reportable.service.ts:107-133 | a taxpayer is in the result if and only if some group key's sum meets the threshold of its type |
| ReportableScan.WhoIsReportable | backend/src/common/services/reportable.service.ts:112-138 | a taxpayer is reportable if and only if it is an individual with a quarter whose inflows reach the individual threshold, or a corporate with one whose inflows reach the corporate threshold; government bodies never are |
| ReportableScan.LabelsApart | backend/src/common/services/reportable.service.ts:117-123 | labels that are no months share a quarter only with themselves |
| ReportableScan.MonthIsInAQuarter | backend/src/common/services/reportable.service.ts:117-123 | a month from 00 to 12 counts in a quarter of its own year |
| ReportableScan.GrainInvariant | backend/src/common/services/reportable.service.ts:85-147 | splitting a record into labels of its quarter, or merging them, never changes the result |
| ReportableScan.OpenedNeverMatter | backend/src/common/services/reportable.service.ts:125-127 | account-opening records never change the result |
| ReportableScan.AddingRemovesNobody | backend/src/common/services/reportable.service.ts:107-133 | adding records with no negative inflow removes nobody |
| ReportableScan.YearWithinAll | backend/src/common/services/reportable.service.ts:98-133 | with no negative inflow a year's result is contained in the unscoped one |
| ReportableCache.ReportableService.BeginCall | backend/src/common/services/reportable.service.ts:62-76 | a call answers from a memo younger than 60 s, else joins the running query, else registers a new one, and changes nothing else |
| ReportableCache.ReportableService.FinishScan | backend/src/common/services/reportable.service.ts:144-146 | a finished query memoises its set and time for its key and changes nothing else |
| ReportableCache.ReportableService.SettleCall | backend/src/common/services/reportable.service.ts:77-81 | the launcher removes the entry of its key and keeps every memo |
| ReportableCache.CallAnswered | backend/src/common/services/reportable.service.ts:62-82 | a call is answered from a memo less than 60 s old without a query, else waits for the running query of its scope, else launches one; nothing else changes |
| ReportableCache.FinishAnswered | backend/src/common/services/reportable.service.ts:140-142 | a finished query stores its own set under its scope with the time, and nothing else |
| ReportableCache.ResumeAnswered | backend/src/common/services/reportable.service.ts:75-81 | a resumed caller gets its query's set or error, and only the launcher clears the entry of its scope |
| ReportableCache.StepKeepsInv | backend/src/common/services/reportable.service.ts:62-82 | every call, await, finish, failure and resumption keeps the system invariant linking memo, running queries and waiting callers |
| ReportableCache.SingleFlight | backend/src/common/services/reportable.service.ts:62-82 | in every interleaving at most one query runs per key, the entry a launcher deletes is its own, and every entry has a launcher that will still delete it |
| ReportableCache.NothingStuck | backend/src/common/services/reportable.service.ts:77-81 | once every caller is resumed, failures included, no entry is left |
| ReportableCache.ReturnedSetIsRecentScan | backend/src/common/services/reportable.service.ts:62-82 | every returned set is the plain query on one snapshot; it finished less than 60 s before the call if and only if the caller did not join a query already done |
| ReportableCache.PromptRunsReturnRecentSets | backend/src/common/services/reportable.service.ts:62-82 | in every interleaving where no time passes between a query finishing and its launcher being resumed, the query behind every returned set finished less than 60 s before the call |
| ReportableCache.LateCallerGetsOldSet | backend/src/common/services/reportable.service.ts:70-81 | a concrete run in which the clock jumps or the process is suspended just there, and a caller is handed a set that finished 60 s before its call |
| Crypto.DecryptUndoesEncrypt | backend/src/common/services/crypto.service.ts:88-122 | decrypting an encryption gives the text back if and only if the active key id has no dot; the payload never needs re-encryption |
| OldKeys.V2Opens | backend/src/common/services/crypto.service.ts:99-112 | a payload tagged with the id of any key in the set, sealed under that key, decrypts to its text whatever key is active, and is due exactly if that key is not the active one |
| OldKeys.V1Opens | backend/src/common/services/crypto.service.ts:114-119 | a legacy payload sealed under key 1, or dev if there is no 1, or the active key if there is neither, decrypts to its text whatever key is active, and is due |
| OldKeys.UnknownKeyOpensNothing | backend/src/common/services/crypto.service.ts:103-110 | a payload tagged with an id outside the set decrypts to nothing |
| OldKeys.EncryptsUnderActive | backend/src/common/services/crypto.service.ts:88-96 | encryption writes a payload tagged with the active id and sealed under the active key |
| Crypto.ReencryptKeepsOrErases | backend/src/common/services/crypto.service.ts:137-152 | re-encryption leaves nothing due and keeps the decrypted value, except that it erases exactly the due ciphertexts that no longer decrypt to something |
| Rotation.PiiTable.SweepRow | backend/src/modules/governance/governance.service.ts:41-47 | one row's patch rotates exactly the columns that are due, and no other row changes |
| Rotation.PiiTable.Sweep | backend/src/modules/governance/governance.service.ts:34-50 | the offset-paged loop visits each row once, rotates it, and counts the rows that were due |
| Rotation.ReencryptPii | backend/src/modules/governance/governance.service.ts:30-77 | both tables are rotated; scanned is their size and migrated the number of rows that were due |
| Rotation.SweepKeepsData | backend/src/modules/governance/governance.service.ts:30-77 | a sweep keeps the decrypted value of every column, erasing none, if and only if every due ciphertext decrypts to something |
| OldKeys.SweepMigrates | backend/src/modules/governance/governance.service.ts:30-77 | whatever key of the set a column was sealed under, legacy payloads included, after the sweep it is the same text sealed under the active key; columns under the active key, in the clear or null stay |
| Rotation.SecondSweepMigratesNothing | backend/src/modules/governance/governance.service.ts:30-77 | after a sweep nothing is due, and a second sweep migrates 0 and changes nothing |
| Backfill.RecordTable.BulkUpdate | backend/scripts/backfill-record-identifier-indexes.ts:134-163 | the batch UPDATE leaves the table that applying each row's patch would leave |
| Backfill.StatementIsPatches | backend/scripts/backfill-record-identifier-indexes.ts:146-158 | one UPDATE joined on unnested arrays with COALESCE equals the per-row patches one by one |
| Backfill.PageComplete | backend/scripts/backfill-record-identifier-indexes.ts:82-92 | a page misses no pending row up to its last id, and an empty page means none is left |
| Backfill.RecordTable.Batch | backend/scripts/backfill-record-identifier-indexes.ts:93-117 | one batch fixes every row up to the page's last id and touches none beyond; a dry run touches none |
| Backfill.RecordTable.Run | backend/scripts/backfill-record-identifier-indexes.ts:78-118 | the loop terminates, visits each pending row up to its cursor once, has fixed exactly those, and uninterrupted leaves none above |
| BackfillResults.RunLeaves | backend/scripts/backfill-record-identifier-indexes.ts:97-113 | in every record a run looks at, an identifier that decrypts to something and had no index or an empty one has in its own index column the keyed digest of just that; an index that was there stays; a full run leaves what was in the clear sealed under the active key; other records are untouched |
| BackfillResults.IndexTellsApart | backend/scripts/backfill-record-identifier-indexes.ts:99-104 | two records get the same BVN index if and only if the digests of their BVNs agree |
| Backfill.SecondVisitChangesNothing | backend/scripts/backfill-record-identifier-indexes.ts:97-112 | visiting a fixed row again changes nothing |
| Backfill.InterruptedThenResumed | backend/scripts/backfill-record-identifier-indexes.ts:78-118 | in one mode: however often the script is stopped, after any batch each time, and started again, the run that gets through leaves a table one run could have left, and what was done is not rewritten |
| Backfill.RunsAgree | backend/scripts/backfill-record-identifier-indexes.ts:97-112 | any two runs over a table agree row by row up to random IVs, and no decrypted value changes |
| Backfill.OnlyUnusableLeft | backend/scripts/backfill-record-identifier-indexes.ts:49-57 | after a run an identifier is still pending if and only if it was and is empty or does not decrypt, a phone number if and only if it was and is empty |
| StagedBackfill.IndexesFirst | backend/scripts/backfill-record-identifier-indexes.ts:12-24 | a complete indexes-only run and then a complete full run leave a table one full run could have left, if and only if no row holds text that looks encrypted to the query alone and that the first run leaves the full run no reason to visit |
| StagedBackfill.AnyRunsThenFull | backend/scripts/backfill-record-identifier-indexes.ts:12-24 | whatever runs came before, in either mode and stopped anywhere, a full run that gets through a table without such text leaves one a single full run could have left |
| StagedBackfill.DisguisedValueStaysClear | backend/scripts/backfill-record-identifier-indexes.ts:50-58 | a concrete identifier the two stages leave in the clear and one full run would not |
| BankImport.StepKeepsInv | backend/scripts/import-bank-filings.ts:83-123 | every find, create, conflict and second find of any worker keeps the unique indexes, and a refused create still has its match ahead of its remaining lookups or clashed on the company number |
| LostLinks.NoLostLink | backend/scripts/import-bank-filings.ts:83-123 | in every interleaving, with other writers, a written row with a usable identifier is linked to a taxpayer sharing one; it is not linked if and only if its own create failed in the database, or clashed on its company number alone and none of its second lookups found anybody |
| LostLinks.CompanyNumberLosesALink | backend/scripts/import-bank-filings.ts:115-122 | a run in which two filings of one company leave the second, with a usable BVN, without a taxpayer |
| ImportRecords.ImportDb.FindUnique | backend/scripts/import-bank-filings.ts:89-91 | a lookup finds a match if there is one, and under the unique index it is the only one |
| ImportRecords.ImportDb.FindByIdentifiers | backend/scripts/import-bank-filings.ts:89-91 | the three lookups find the first match in the order BVN, TIN, NIN, or prove nobody shares an identifier |
| ImportRecords.ImportDb.IsRefused | backend/scripts/import-bank-filings.ts:94-115 | a create is refused exactly when some taxpayer holds one of its unique values |
| ImportRecords.ImportDb.FindOrCreateTaxpayer | backend/scripts/import-bank-filings.ts:83-123 | alone, a match wins in the order BVN, TIN, NIN; otherwise the taxpayer is created, unless its company number is taken or the database fails; indexes stay unique |
| ImportRecords.ImportDb.DeleteMany | backend/scripts/import-bank-filings.ts:202-208 | the clean-up leaves the other batches' and submissions' records, in order |
| ImportAnswers.RecordsCarryTheirLinks | backend/scripts/import-bank-filings.ts:213-280 | in every interleaving the records are those there were and one per finished row, with its submission, kind, money and count, linked to the taxpayer that row ended on |
| ImportAnswers.FirstMatchIs | backend/scripts/import-bank-filings.ts:88-90 | the lookup takes a taxpayer with the row's BVN, if there is none one with its TIN, else one with its NIN |
| ImportAnswers.RefusedIs | backend/scripts/import-bank-filings.ts:94-117 | a new taxpayer is refused exactly when its BVN, TIN, NIN or company number is in use |
| ImportRecords.RunRecords | backend/scripts/import-bank-filings.ts:215-283 | a run moves no earlier record, and a complete run adds exactly one record per row, links aside |
| ImportRecords.InflowConserved | backend/scripts/import-bank-filings.ts:252-257 | when every row is written, inflow grows by the sum of the TRANSACTION amounts |
| ImportRecords.RunThenClear | backend/scripts/import-bank-filings.ts:202-209 | however far a tagged run got, clearing its batch leaves what it started from |
| ImportRecords.RerunConverges | backend/scripts/import-bank-filings.ts:202-284 | re-running a tagged batch after any earlier run leaves the records of one complete run, links aside, and all other records as they were |
| AccessGrants.AccessAssignmentService.AssertAccess | backend/src/modules/access/access-assignment.service.ts:23-65 | access passes exactly for an admin role with an assignment in force for the named provider, else case |
| AccessGrants.AccessAssignmentService.Grant | backend/src/modules/access/access-assignment.service.ts:68-122 | a grant makes at most one assignment, for an active admin and an existing scope, and reuses one in force |
| AccessGrants.AccessAssignmentService.Revoke | backend/src/modules/access/access-assignment.service.ts:125-143 | a withdrawal dates one assignment once; repeating it changes nothing |
| AccessGrants.AccessGrantTokenService.Request | backend/src/modules/access/access-grant-token.service.ts:68-96 | a request returns the open grant of its officer and scope, or adds one pending grant if there is none, or refuses and changes nothing |
| AccessGrants.AccessGrantTokenService.Approve | backend/src/modules/access/access-grant-token.service.ts:99-140 | an approval turns one pending grant into an approved one with the token's digest and a deadline 60 minutes ahead, or refuses and changes nothing |
| AccessGrants.AccessGrantTokenService.Redeem | backend/src/modules/access/access-grant-token.service.ts:146-180 | a redemption opens one session on one matching approved grant, answers with the end of a running one, or refuses and changes nothing |
| AccessGrants.AccessGrantTokenService.AssertActiveSession | backend/src/modules/access/access-grant-token.service.ts:186-197 | the check passes exactly when the officer has a redeemed, unrevoked grant for the scope that ends later |
| AccessGrants.AccessGrantTokenService.Revoke | backend/src/modules/access/access-grant-token.service.ts:200-212 | a revocation ends one grant and clears its digest; repeating it changes nothing |
| AccessAnswers.RequestAnswered | backend/src/modules/access/access-grant-token.service.ts:68-96 | field by field: the reasons for a refusal in order, the open grant if there is one, else a new pending grant |
| AccessAnswers.ApproveAnswered | backend/src/modules/access/access-grant-token.service.ts:99-120 | field by field: the refusals, and the digest, approver and deadline of 60 minutes an approval writes |
| AccessAnswers.RedeemAnswered | backend/src/modules/access/access-grant-token.service.ts:146-180 | field by field: the refusals, the session of eight hours a redemption opens by its deadline, and the running one it repeats |
| AccessAnswers.SessionAnswered | backend/src/modules/access/access-grant-token.service.ts:186-197 | a check passes exactly on a redeemed grant of that officer and scope, not revoked, whose session ends later |
| AccessAnswers.RevokeAnswered | backend/src/modules/access/access-grant-token.service.ts:200-212 | revoking a grant, and withdrawing an assignment, date it once and leave everything else |
| AccessAnswers.AssignAnswered | backend/src/modules/access/access-assignment.service.ts:68-122 | field by field: the refusals in order, the assignment in force if there is one, else a new one |
| AccessAnswers.ProtocolCompletes | backend/src/modules/access/access-grant-token.service.ts:68-197 | an assigned admin who asks, is approved by a super admin and redeems the minted token with the password within the hour gets a session, and it holds until exactly eight hours later |
| GrantHistory.RunExplained | backend/src/modules/access/access-grant-token.service.ts:68-212 | in every run each grant's row is explained by the actions that requested, approved, redeemed and revoked it, revoked exactly if one of them was an entitled revocation |
| GrantHistory.GrantSafety | backend/src/modules/access/access-grant-token.service.ts:68-212 | in every run, under any clock, a session check passes only if the officer requested the grant while assigned, a super admin approved it afterwards, it was then redeemed with the password and the minted token within 60 minutes, less than 8 hours ago, and nobody revoked it |
| GrantHistory.AssignmentEarned | backend/src/modules/access/access-assignment.service.ts:68-143 | every assignment was made by an admin with a reason for a then active admin, and is revoked exactly if an admin withdrew it since |
| OpenGrants.SecondOpenGrant | backend/src/modules/access/access-grant-token.service.ts:78-86 | in every run, under any clock: of two grants of one officer and scope that are both open at a time, the later was created by a request whose clock was past that time |
| OpenGrants.OneOpenGrant | backend/src/modules/access/access-grant-token.service.ts:78-86 | so an officer has at most one open grant per scope, unless some request read a clock ahead of the present one |
| OpenGrants.DeadlinesSetOnce | backend/src/modules/access/access-grant-token.service.ts:99-212 | over any run the approval, the redemption deadline, the session's end and a revocation are never rewritten |
| OpenGrants.RevokeCutsOff | backend/src/modules/access/access-grant-token.service.ts:200-212 | right after a revocation no session check of that officer and scope passes, at any later time |
| OpenGrants.MintedTokenRedeems | backend/src/modules/access/access-grant-token.service.ts:146-174 | the minted token, however typed, opens a session until exactly 60 minutes after approval, lasting exactly 8 hours, unless another grant of the scope carries its digest |
| OpenGrants.LapsedApprovalLocksOut | backend/src/modules/access/access-grant-token.service.ts:78-86 | once an approval has lapsed, until somebody revokes it every request is answered with it and no session check passes |
| OpenGrants.RevokeUnlocks | backend/src/modules/access/access-grant-token.service.ts:68-90 | after revoking it, the next valid request creates a pending grant |
| ExamDraw.Shuffle | backend/src/modules/assessment/assessment.service.ts:431-438 | for any draws the in-place shuffle is a permutation |
| ExamDraw.ShuffleOptions | backend/src/modules/assessment/assessment.service.ts:440-447 | for any draws the options are a bijective rearrangement and the returned index is the right option, or -1 if there was none |
| ExamDraw.RandomRows | backend/src/modules/assessment/assessment.service.ts:136-142 | a random selection with a limit gives that many distinct rows of the candidates, or all there are |
| ExamDraw.PickQuotas | backend/src/modules/assessment/assessment.service.ts:133-143 | the loop over topics gives distinct active rows meeting each quota as far as the bank allows, at most the sum of the quotas |
| ExamDraw.DrawRows | backend/src/modules/assessment/assessment.service.ts:127-153 | the draw gives min(10, active) distinct active questions with every topic's quota met as far as the bank allows |
| ExamDraw.DrawQuestions | backend/src/modules/assessment/assessment.service.ts:127-171 | the attempt's questions are such a draw, each with its options shuffled and nothing chosen |
| Exam.ScoreBounds | backend/src/modules/assessment/assessment.service.ts:188-192 | part 2 is five points per right answer, the total is the sum of the rounded parts, between 0 and 100, and 100 exactly for a full form and ten right answers |
| Exam.AssessmentService.CandidateLogin | backend/src/modules/assessment/assessment.service.ts:54-70 | a login resumes the participant's one attempt, closing it if its time is up, or creates it from a valid draw |
| Exam.AssessmentService.GetState | backend/src/modules/assessment/assessment.service.ts:71-74 | looking at an attempt closes it exactly when it is open and its time is up |
| Exam.AssessmentService.SavePart1 | backend/src/modules/assessment/assessment.service.ts:76-81 | details are merged over the earlier ones while the sitting is open, else refused |
| Exam.AssessmentService.FinalizeAttempt | backend/src/modules/assessment/assessment.service.ts:188-200 | closing stores the status, the time and the scores of what the attempt holds, and nothing else |
| Exam.AssessmentService.SaveAnswer | backend/src/modules/assessment/assessment.service.ts:83-95 | a save changes the choice of that question only, while the sitting is open and the choice is an option; otherwise it is refused or keeps what was chosen |
| Exam.AssessmentService.Submit | backend/src/modules/assessment/assessment.service.ts:98-103 | a submission closes an open attempt with its scores, and changes a closed one in nothing |
| ExamAnswers.ScoresAreMarks | backend/src/modules/assessment/assessment.service.ts:188-192 | the scores are fifty points for the validly filled fields in proportion, to the nearest hundredth, five for each right answer, and their sum |
| ExamAnswers.LoginAnswered | backend/src/modules/assessment/assessment.service.ts:54-69 | a code resumes its participant's attempt, closing it if overdue, or starts one due in five minutes |
| ExamAnswers.GetStateAnswered | backend/src/modules/assessment/assessment.service.ts:71-74 | looking closes an overdue attempt with its marks and changes no other |
| ExamAnswers.SavePart1Answered | backend/src/modules/assessment/assessment.service.ts:76-81 | details are merged, later ones winning, exactly while the attempt is open and in time |
| ExamAnswers.SaveAnswerAnswered | backend/src/modules/assessment/assessment.service.ts:83-95 | a choice that is an option of an asked question is stored, exactly while the attempt is open and in time |
| ExamAnswers.SubmitAnswered | backend/src/modules/assessment/assessment.service.ts:98-103 | a submission closes an open attempt with its marks, in time or not, and leaves a closed one |
| ExamAnswers.DrawIs | backend/src/modules/assessment/assessment.constants.ts:26-32 | a draw takes four active questions on tax and two each on the other three topics, or all there are, ten in all, or all there are, none twice |
| Exam.SittingKept | backend/src/modules/assessment/assessment.service.ts:54-200 | over any run an attempt's deadline, questions, option order and right answers never change, and nothing at all once it is closed |
| Exam.SavedUpTo | backend/src/modules/assessment/assessment.service.ts:74-120 | at every point of a run, under any clock, an attempt holds the last valid choice per question and the merged details saved before its submission or the first look at it past its deadline, and is open exactly until then |
| Exam.AllMarked | backend/src/modules/assessment/assessment.service.ts:181-200 | in every run closed attempts carry the scores of what they hold and no participant has two attempts |
| Exam.ExamIntegrity | backend/src/modules/assessment/assessment.service.ts:54-200 | the whole claim for one attempt in any run under any clock: min(10, active) distinct questions, deadline five minutes after creation, contents exactly what was saved in time, every such save before the deadline, a choice right exactly when it is the bank question's right option wherever the shuffle put it, open exactly until submission or the first look past the deadline, scores of just that within 0..100, for the participant who logged in, who has no other |
| Cases.CasesService.Transition | backend/src/modules/cases/cases.service.ts:497-586 | a transition refuses and changes nothing, or moves one case and writes exactly the fields of its new state |
| Cases.CasesService.Assign | backend/src/modules/cases/cases.service.ts:588-598 | an assignment changes the assignee of one existing case only |
| Cases.CasesService.ProcessDeadlines | backend/src/modules/cases/cases.service.ts:605-627 | the two-pass sweep dismisses exactly the overdue objections and counts them |
| Cases.CasesService.GroupByStatus | backend/src/modules/cases/cases.service.ts:84-88 | the grouped rows are one per state that occurs, each with the count and sums of its cases |
| Cases.CasesService.Reduce | backend/src/modules/cases/cases.service.ts:97-104 | adding up the rows of any set of states in machine numbers, in any order, gives the case-by-case count and its amounts up to nine roundings, whatever their signs |
| CaseAnswers.TransitionAnswered | backend/src/modules/cases/cases.service.ts:497-573 | field by field: the three refusals, and what each move writes - notice with its dates and figures, token, deadline, recovery, resolution - and what it leaves |
| CaseAnswers.SweepAnswered | backend/src/modules/cases/cases.service.ts:605-622 | the sweep dismisses exactly the objections past their deadline and keeps every other field and case |
| CaseAnswers.StatsAre | backend/src/modules/cases/cases.service.ts:94-104 | the dashboard's totals as sums over the shown cases: all, open and dismissed; the estimates of those not recovered, dismissed or closed; the recoveries of the recovered and settled; all estimates |
| Cases.CaseLife | backend/src/modules/cases/cases.service.ts:33-43 | over any run a case moves along the map only, so its state changes at most seven times; its token, notice and response deadline stay once written; the notice is there from NOTICE_ISSUED to RECOVERED and not before, the resolution date exactly in the three final states, the deadline during an objection and never before one |
| Assessments.NoticeAddsUp | backend/src/modules/cases/cases.service.ts:529-535 | for any machine arithmetic that keeps signs, a notice's total is its tax plus its penalty to the kobo if and only if no midpoint between two kobo separates the machine's penalty from the rest of its sum |
| Assessments.AddsUpAwayFromMidpoints | backend/src/modules/cases/cases.service.ts:529-535 | checkable before the notice: if the exact penalty keeps seven roundings away from every midpoint between two kobo, tax and penalty are the exact ones to the kobo and the total is their sum |
| Assessments.TenPercentLosesAKobo | backend/src/modules/cases/cases.service.ts:529-535 | with the double product and sum for 0.45 at 10 per cent, the notice says 45 and 5 and 49 kobo |
| Assessments.TenPercentAddsUp | backend/src/modules/cases/cases.service.ts:529-535 | at 10 per cent every tax up to a hundred billion naira that does not end in 5 kobo gives a notice that adds up |
| Assessments.RecoveryDefaultsToEstimate | backend/src/modules/cases/cases.service.ts:562-565 | a recovery with no amount books the estimate, not the demand, to the kobo exactly when the estimate's machine number is nearest to it, dates the case, and touches no other |
| Assessments.AssessmentHolds | backend/src/modules/cases/cases.service.ts:509-556 | every notice of any run was issued by one transition of a reviewed case that was no limited company, on the estimate of that moment; its tax is that estimate, and its total tax plus penalty, each exactly under the stated rounding condition |
| Assessments.LlcNeverAssessed | backend/src/modules/cases/cases.service.ts:523-528 | a case opened for a limited company, and still taken for one by every later scan of it, never reaches a notice or any state beyond one |
| Assessments.OnlyLapsedObjections | backend/src/modules/cases/cases.service.ts:605-622 | in any run a sweep dismisses an objection if and only if the window in force when the accepted transition filed it has passed, and touches no other case |
| Cases.CasesService.GetStats | backend/src/modules/cases/cases.service.ts:76-128 | the dashboard's counts are those of the cases, and its amounts, added up as machine numbers from the grouped rows, are the case-by-case totals up to nine roundings |
| CaseMoney.ShownToTheKobo | backend/src/modules/cases/cases.service.ts:97-104 | rounded to the kobo, an amount shown is the case-by-case total, as long as the amounts behind it are below 2.3 trillion naira (for doubles) |
| CaseMoney.MoneyConserved | backend/src/modules/cases/cases.service.ts:23-30 | of the exact totals of non-negative estimates: over any run of transitions, assignments and sweeps the number of cases and the total estimate stay, and revenue at risk never rises, under any filter |
| CaseMoney.DashboardConserved | backend/src/modules/cases/cases.service.ts:76-128 | of the machine sums shown: before and after any such run the dashboard shows, to the kobo, the same total estimate, and a revenue at risk that is no higher |
| CaseMoney.StatusCountsAddUp | backend/src/modules/cases/cases.service.ts:94-95 | the counts of the nine states sum to the number of cases |
| CaseMoney.AtRiskAfterTransition | backend/src/modules/cases/cases.service.ts:97-99 | of the exact totals: a transition lowers revenue at risk by the case's estimate exactly when it leaves the active states |
| CaseMoney.ClosingDropsRecovered | backend/src/modules/cases/cases.service.ts:100-102 | of the exact totals: closing a recovered or settled case takes its amount out of the recovered total |
| Sessions.AuthService.Login | backend/src/modules/auth/auth.service.ts:26-58 | a login mints one token of the account's current epoch, or refuses and changes nothing |
| Sessions.AuthService.ChangePassword | backend/src/modules/auth/auth.service.ts:185-200 | a change with the right password and at least eight characters sets password and epoch of that account only |
| Sessions.AuthService.RequestPasswordReset | backend/src/modules/auth/auth.service.ts:326-370 | a request adds one token, good for an hour, exactly for an active account of that address whose new digest is not taken, and tells nobody whether there is one |
| Sessions.AuthService.BurnTokens | backend/src/modules/auth/auth.service.ts:429-437 | exactly the account's unused tokens become used |
| Sessions.AuthService.Reauthenticate | backend/src/modules/auth/auth.service.ts:208-251 | a re-authentication mints one step-up token anchored now, for an active staff account with password and second factor, or nothing |
| Sessions.AuthService.ResetPassword | backend/src/modules/auth/auth.service.ts:381-453 | a reset with an unused token of its kind, not past its hour, sets the password and burns every outstanding token of the account; otherwise nothing changes |
| Sessions.AuthService.RenewStepUp | backend/src/modules/auth/auth.service.ts:258-276 | a renewal of an unexpired token within eight hours of its anchor mints a token with the same claims and five more minutes |
| Passwords.StoredPassword | backend/src/modules/auth/auth.service.ts:185-200 | over every run an account's hash, epoch and forced-change flag are those its last accepted change carried - its owner's, a reset token's, an administrator's - or else its creation |
| SignIns.AccountIs | backend/src/modules/users/users.service.ts:11-30 | an account's kind and address are those it was created with, and it is active and has a second factor as last set |
| SignIns.LoginFollowsHistory | backend/src/modules/auth/auth.service.ts:26-62 | after any run a login is accepted if and only if the account was last left active, the password compares with the hash of its last accepted change, and the second factor is given where it was last switched on; it mints one token of that change's epoch |
| SignIns.ChangeFollowsHistory | backend/src/modules/auth/auth.service.ts:185-200 | after any run a password change is accepted if and only if the new one is long enough and the current one compares with that hash; it then writes the new one |
| SignIns.ResetLinkWorks | backend/src/modules/auth/auth.service.ts:326-440 | the link mailed to an active account sets its password, and no other's, exactly within the hour and for eight characters or more |
| SignIns.ResetFollowsLink | backend/src/modules/auth/auth.service.ts:379-415 | after any run a reset is accepted if and only if its link is of some account, unused and in its hour, and the new password is long enough |
| SignIns.NobodyIsMailed | backend/src/modules/auth/auth.service.ts:333-343 | a request for an address without an active account changes nothing and says nothing |
| SignIns.TakenTokenRefused | backend/src/modules/auth/auth.service.ts:344-348 | a reset token whose digest is taken is refused |
| SignIns.StrangerChangesNothing | backend/src/modules/auth/auth.service.ts:185-187 | nobody changes a password that is not there, or through the other kind's door |
| SignIns.GuardAnswered | backend/src/common/strategies/jwt-staff.strategy.ts:17-36 | a guard lets a token pass exactly if it is of its kind and of an active account of that kind not changed after the token's epoch |
| SignIns.StepUpFollowsHistory | backend/src/modules/auth/auth.service.ts:208-249 | after any run a re-authentication is accepted exactly for an active staff member's current password and second factor, and its token serves its scope and provider for exactly five minutes |
| SignIns.RenewalServes | backend/src/modules/auth/auth.service.ts:258-276 | a session is renewed for five minutes at a time exactly until eight hours after it began |
| Sessions.LastChangeIs | backend/src/modules/auth/auth.service.ts:185-200 | the last password change since a login was made with the old password, an unused token of the account within its hour, or by an administrator, and nothing after it changed the password |
| Sessions.ValidUnlessChangedLater | backend/src/common/strategies/jwt-staff.strategy.ts:17-36 | in every run, whatever the clock does, each token was minted by a login with its account's password, and the guard accepts it if and only if the account is active and the last change since, if any, is stamped no later than the token's epoch |
| Sessions.ValidExactlySinceLastChange | backend/src/common/strategies/jwt-staff.strategy.ts:17-36 | on a strictly advancing clock, in every run, the guard accepts a minted token if and only if the account is active and its password was not set again since the login that minted it |
| Sessions.StepUpChains | backend/src/modules/auth/auth.service.ts:208-276 | however often renewed, a step-up token keeps the subject, scope, provider and anchor of one re-authentication, and expires before that plus 8 h 5 min |
| Sessions.VerifiedStepUp | backend/src/modules/auth/auth.service.ts:278-293 | an accepted step-up check traces back to its staff member's re-authentication for that scope, less than 8 h 5 min ago |
| Sessions.EveryResetAccounted | backend/src/modules/auth/auth.service.ts:326-453 | in every run a reset token was asked for by one request for an active account, and is burnt exactly if its account completed a reset since |
| Sessions.EachResetItsOwnRequest | backend/src/modules/auth/auth.service.ts:381-453 | every completed reset used a token requested for the account's address at most an hour earlier and after the account's previous completed reset |

## Left out

- Csv.ParseUndoesPrintExactly: assumes no unquoted cell holds a double quote. Such a cell shifts the reader's quoting against the printer's for the rest of the file, which may or may not read back.
- Csv: `processCsv`'s header aliases and identifier checks, `resolveMapping` and `applyMapping`; they are table lookups.
- StableJson.StringifyInjective: functions, symbols, BigInt, invalid dates and Decimal objects are not modelled; keys sort by character, and lone surrogates, which JSON.stringify escapes, are not distinguished from other characters.
- AuditChain.HeadHashFixesLog: agrees or exhibits a collision, because no function into 64 hex digits is injective.
- AuditLog: an append that throws outside its transaction, which the code only logs; it leaves no row.
- Base32: `verifyTotp`'s window and `hotp` are left out; they compare digests the model has no access to.
- DeclaredIncome: `parseFloat` and `parseInt` are parameters; the wording of the messages and the audit entry are left out.
- ReportableCache.ReturnedSetIsRecentScan: assumes a clock that does not go backwards, as every run of that module does; a caller's private copy of the set is a value here.
- Rotation: rows added or removed by others while the offset-paged sweep runs.
- Backfill: rows written by others during a run, and the progress output; the model names the ids in order as integers.
- LostLinks.NoLostLink: the workers of a pool are values of a state machine, not objects; batches of 200 that follow each other are among the interleavings of one pool. Record fields other than submission, kind, amounts, batch and link are not modelled.
- OpenGrants.OneOpenGrant: requests are atomic; two simultaneous requests that both find no open grant could each create one.
- AccessGrants: the mail with the token, and the audit entries.
- Exam.ExamIntegrity: requests are atomic; a save that read the attempt before it was closed and writes after that is not modelled. Removing a participant, which deletes the attempt, and login tokens are left out.
- ExamDraw: choices are integers; a fractional choice, which the code would store, is not modelled.
- Exam.ScoreBounds: scores are exact hundredths; binary floating point before rounding is not modelled.
- Cases: the assessment-basis snapshot, the notice reference and the document agents are left out. An objection filed by a taxpayer's platform is the same transition.
- Cases.CasesService.GetStats: amounts so large that a double overflows, which the numeric(18,2) columns cannot hold, are not modelled.
- CaseMoney.MoneyConserved: stated of the exact totals; `CaseMoney.DashboardConserved` is the statement about what is shown.
- Assessments.LlcNeverAssessed: assumes no later scan changes the case's tax basis to another one, which the code's upsert can do.
- Sessions.ValidExactlySinceLastChange: the expiry of access tokens is not modelled; it only refuses more.
- Sessions.EachResetItsOwnRequest: requests are atomic; two simultaneous uses of one reset token are not modelled.
- Sessions: authenticator codes and one-time recovery codes enter as a yes or no; the role and provider claims are left out. A step-up token is never checked against later changes of its account, and neither is the model's.
- Key discovery from the environment, the detection engine, the statutory service, evidence bundles, mail, the web front end and the plain CRUD services are not part of this model.
