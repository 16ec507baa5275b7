# Verified model of the paro evidence harness

paro's benchmark and regression harness decides whether what the engine produced may be believed.
This project models the parts of that harness whose correctness is not visible in any single
function, and proves what each part is there to guarantee. `dafny verify dfyconfig.toml` checks all
of it.

| part | modules |
|---|---|
| numeric oracle: one-to-one row matching, all Welford/Chan schedules of a bag, exact moments | `NumericMatching`, `Bits`, `Schedules`, `Envelope`, `ExactMoments` |
| JOB data download: a journal that survives a crash at any step | `JobJournal`, `JobDownload` |
| run output: cells, byte leases, attempts, acceptance, terminal and poisoned states | `CampaignState`, `CampaignLaws`, `CampaignAccounts`, `CampaignLifecycle`, `CampaignPromises`, `CampaignWrites`, `CampaignLimits`, `RunOutput`, `Runs` |
| result contracts: ORDER of neighbours, canonical digest streams, exact numbers | `OrderContract`, `ExactValues`, `Numerals`, `Texts`, `JsonText`, `Evidence`, `DigestStream`, `Bags` |
| bag-semantics oracle: joins, group counts, domain evidence | `BagOracle`, `DomainEvidence` |
| text machinery: SQL splitter, transcript cell codec, id alpha-renaming | `SqlGrammar`, `SqlSplitter`, `CellCodec`, `IdScanner`, `IdForms`, `IdNormalizer` |
| sample binding: executor skeleton, payload builder, exactly-once check | `SampleBinding`, `BenchmarkPayload` |
| shared definitions | `Wrappers` |

Code that works by changing things is modelled as classes and loops: `NumericMatching.Matcher`,
`Schedules.Search`, `JobDownload.Root` and `RunOutput.Run` update their fields in place, and the
scanners, joins and builders are loops proved against functions whose laws are the lemmas.
Everything the environment decides is a parameter: server responses, failing writes and encoded
sizes, float operators, evaluation of an order expression, character classes, exceptions of a query.
What an operation means is stated without its own helpers: statements against a grammar of SQL pieces,
order against numbers and NULLs, evidence against a JSON reader, files against their bytes.
A crash is the end of a run prefix: the steps are those that reach the disk, and a restart begins
from whatever disk a prefix left.

## What the proofs found

The code is modelled as it is. Where a promise does not hold of it, the project states the input
and the exact condition.

* A crash between staging and renaming the very first manifest leaves a root that `download`
  refuses as foreign. `JobJournal.RestartableUnlessStranded`: a root is refused exactly when nothing
  but staged manifest writes has happened. `JobJournal.FirstWriteCanStrand` is the run.
* A cell id joins query case and arm with two dashes, and both may contain dashes, so a cell can
  accept an attempt begun for other coordinates. `CampaignLimits.AcceptanceIsOwnExactly`: over two
  arms this happens in some run if and only if one arm ends with two dashes and the other arm and has
  at most 93 characters. `CampaignLimits.ForeignAcceptance` gives the run for any two pairs of
  coordinates that share a cell id, and `CampaignLimits.ForeignExample` an instance.
* A run completed before any cell exists accepts a later registration and then is Completed with an
  unaccepted cell: `CampaignLimits.LateRegistration` is the run, and
  `CampaignLimits.CompletionWithoutCells` the exact condition.
* A counter of rows uses Python equality, and evidence does not: the two part exactly for a boolean
  and the float it equals (`DigestStream.PythonEqualDiffers`). Under one schema they agree
  (`DigestStream.CountersAreBags`).
* When a row has fewer raw values than normalized texts, its encoder writes the rest without
  protecting reserved tokens: the texts `NULL` and `(empty)` come back as SQL NULL and as the empty
  string. `CellCodec.RowRoundTrip` gives the exact condition.
* `filter_domain` skips a filter whose condition key equals the evidence's, and joins use a key of
  their own, so a filter named `equality_join` after a join is never applied
  (`DomainEvidence.ReservedCondition`, with the exact condition in `DomainEvidence.FilterIsExactWhen`).
* The error formatter takes the first line of an exception's text and fails on an empty text, so a
  cancellation without text leaves the query runner although it is no interrupt
  (`SampleBinding.SilentCancellationEscapes`); `SampleBinding.RunQuery` states exactly what escapes.

## Model

| member | source | states |
|---|---|---|
| `NumericMatching.AssertNumericBijection` | benchmark/corpora/numeric_result_contract.py:121-153 | accepts exactly when the lists have equal length and some one-to-one pairing gives every actual row a reference row that admits it: finite floats between both ends of an interval, exact cells equal and no NaN; a refused row is the first whose prefix has no pairing |
| `NumericMatching.Matcher.Augment` | benchmark/corpora/numeric_result_contract.py:141-149 | success seats the row and keeps every seated row seated on its edges; failure changes nothing, and all edges of the row and of the rows holding visited targets end in visited targets |
| `NumericMatching.SeatRows` | benchmark/corpora/numeric_result_contract.py:140-153 | the rows before the result have a pairing, and with the failing row added there is none |
| `NumericMatching.FailureIsHallViolator` | benchmark/corpora/numeric_result_contract.py:141-153 | after a failed search the visited targets and the rows holding them, with the failing row, are a Hall violator |
| `NumericMatching.HallViolatorRefutes` | benchmark/corpora/numeric_result_contract.py:151-153 | more rows than targets they can reach rules out every pairing |
| `NumericMatching.MatchEdges` | benchmark/corpora/numeric_result_contract.py:131-138 | a target is an edge of a row exactly when the reference row admits the row cell by cell |
| `NumericMatching.MatchesAdmitted` | benchmark/corpora/numeric_result_contract.py:30-32 | the cell test of the code is the place of a finite float between the ends, on the number line, infinities and NaN included |
| `NumericMatching.PairingsAreBijections` | benchmark/corpora/numeric_result_contract.py:121-153 | pairings of edge lists are the one-to-one matchings of rows, both ways |
| `Bits.NextSubmask` | benchmark/corpora/numeric_result_contract.py:91-105 | `(left - 1) & mask` is a submask below `left` with no submask in between, so the loop meets every one once |
| `Bits.XorIsComplement` | benchmark/corpora/numeric_result_contract.py:91-93 | `mask ^ left` selects exactly the rest of a submask |
| `Schedules.Search.States` | benchmark/corpora/numeric_result_contract.py:80-106 | for any operators the memoised search returns exactly the results of all update and merge trees over the masked values |
| `Schedules.Search.UpdateStates` | benchmark/corpora/numeric_result_contract.py:85-90 | exactly the results of trees whose last step is an update |
| `Schedules.Search.MergeStates` | benchmark/corpora/numeric_result_contract.py:91-105 | adds exactly the results of trees whose last step is a merge, with either formula, over every split |
| `Schedules.ReachableByAStep` | benchmark/corpora/numeric_result_contract.py:80-106 | every result of a tree arises from an update or a merge of results for smaller masks |
| `Schedules.StepsAreReachable` | benchmark/corpora/numeric_result_contract.py:80-106 | every result the search adds is the result of a tree |
| `Envelope.ScheduleEnvelope` | benchmark/corpora/numeric_result_contract.py:62-118 | declines exactly the listed bags; a single value is its mean; otherwise both ends of the variance range are variances of schedules, both ends of the other range are the root of a schedule's variance over the mean, and no schedule lies outside either |
| `Envelope.Bounds` | benchmark/corpora/numeric_result_contract.py:115-118 | the range holds every image and its ends are images |
| `Envelope.VariancesAreSchedules` | benchmark/corpora/numeric_result_contract.py:112 | the variances computed are those of all schedules of the whole bag |
| `Envelope.PresentIsBag` | benchmark/corpora/numeric_result_contract.py:70-72 | exactly the whole numbers of the input are kept, each as often as it occurs |
| `ExactMoments.EnvelopeIsTheSample` | benchmark/corpora/numeric_result_contract.py:42-118 | over exact reals no bag is invalid and the envelope is the point of `sample_moments`: its centre is the mean, its variance the sample variance, and its coefficient times the mean is the root of the variance |
| `ExactMoments.ExactIsIeee` | benchmark/corpora/numeric_result_contract.py:62-118 | exact arithmetic with a square root meets what the envelope asks of float operators |
| `ExactMoments.SchedulesCollapse` | benchmark/corpora/numeric_result_contract.py:42-59 | over exact reals every schedule has the true count, the mean and the sum of squared distances from it, and its variance is the closed form of `sample_moments` |
| `ExactMoments.SchedulesAreExact` | benchmark/corpora/numeric_result_contract.py:83-105 | every tree over any values ends in the count, the mean and the sum of squared deviations from that mean of the values it consumed |
| `ExactMoments.MergeKeepsMoments` | benchmark/corpora/numeric_result_contract.py:96-104 | either merge, fused or not, of true moments has the true moments of both parts |
| `ExactMoments.DeviationsAreSquared` | benchmark/corpora/numeric_result_contract.py:42-59 | the closed form of `sample_moments` is the sum of squared distances from the mean |
| `JobJournal.RunsAreSound` | benchmark/corpora/job_setup.py:200-311 | after any steps and crashes every recorded table has a published file with the recorded and released size, digest and identity, and every published file is recorded or belongs to a validated journal entry |
| `JobJournal.StepKeepsSound` | benchmark/corpora/job_setup.py:200-311 | each single step keeps that invariant |
| `JobJournal.SoundIsIntact` | benchmark/corpora/job_setup.py:195-197 | in a sound root the bytes of every recorded table have the size and digest of its record and of the release |
| `JobJournal.CommittedIsForever` | benchmark/corpora/job_setup.py:262-311 | a committed table keeps its record and its bytes in every continuation |
| `JobJournal.HeldIsForever` | benchmark/corpora/job_setup.py:200-311 | a table once validated stays held: journalled as validated or committed |
| `JobJournal.RestartableUnlessStranded` | benchmark/corpora/job_setup.py:235-236 | a crash point can be restarted from exactly when it is not inside the first manifest write |
| `JobJournal.FirstWriteCanStrand` | benchmark/corpora/job_setup.py:38-55 | a run whose crash leaves a sound root that `download` refuses |
| `JobDownload.SoundIsRecoverable` | benchmark/corpora/job_setup.py:173-229 | on a sound root the pending record passes its check and `recover_pending` has nothing to raise |
| `JobDownload.Root.RecoverPending` | benchmark/corpora/job_setup.py:200-229 | raises exactly on unrecoverable roots, for a changed or unexpected published file and for a missing or changed partial, told from the bytes, and then changes nothing; otherwise the journal is cleared, unfinished work forgotten and validated work committed |
| `JobDownload.Root.Transfer` | benchmark/corpora/job_setup.py:284-289 | the partial file holds the concatenated blocks and nothing else changes |
| `JobDownload.Root.FetchTable` | benchmark/corpora/job_setup.py:267-311 | succeeds exactly when the response is complete and fits the release, and then the table is published and recorded; otherwise only its journal entry remains |
| `JobDownload.Root.EnsureTable` | benchmark/corpora/job_setup.py:262-311 | one turn of the table loop: a published file whose bytes its record does not describe is refused and nothing changes; verified if present, fetched if absent |
| `JobDownload.Root.FetchMissing` | benchmark/corpora/job_setup.py:262-311 | the loop ends with every declared table committed, and never fails on a sound root served in full |
| `JobDownload.Root.Download` | benchmark/corpora/job_setup.py:232-311 | success leaves exactly the declared tables of this corpus and release, each with the recorded and released bytes; a root is called foreign exactly when it cannot be restarted from; whatever happens, no retained record is dropped or changed |
| `JobDownload.RecoveryRetains` | benchmark/corpora/job_setup.py:173-229 | recovery keeps every retained record as it was, from any root that passes the prefix checks |
| `JobDownload.EnsuringRetains` | benchmark/corpora/job_setup.py:262-311 | so does fetching a table again whose file is gone: its bytes must be the retained ones |
| `JobDownload.RestartAfterCrash` | benchmark/corpora/job_setup.py:232-311 | from every crash point but the stranded one, a restart against a server that answers completes |
| `CampaignLaws.StepAdvances` | benchmark/harness/run_output.py:1024-1059 | status moves only from Running to one terminal status and on to Incomplete; poison stays and comes with Incomplete |
| `CampaignLaws.AfterPublishCell` | benchmark/harness/run_output.py:367-379 | a payload write is refused, half done with unknown publication, or committed and charged; nothing else |
| `CampaignLaws.AfterRegister` | benchmark/harness/run_output.py:1076-1194 | a registration appends exactly the new cell within budget, or only records a failure, or changes nothing |
| `CampaignLaws.AfterBegin` | benchmark/harness/run_output.py:943-987 | a new attempt gets a fresh directory and a durable Running record before it is indexed |
| `CampaignLaws.AfterSeal` | benchmark/harness/run_output.py:463-505 | a seal needs a Running record, replaces it durably and then updates the index |
| `CampaignLaws.OrdinalIsFirst` | benchmark/harness/run_output.py:943-987 | the ordinal of a new attempt is free and every smaller one is taken; none is found only when all are taken |
| `CampaignAccounts.StepKeepsBooks` | benchmark/harness/run_output.py:1314-1395 | every operation keeps each cell's written bytes equal to its live files and within its lease, the total equal to the sum, and the leases within the registered budget |
| `CampaignAccounts.CommitKeepsBooks` | benchmark/harness/run_output.py:1338-1361 | a commit charges the replacement of a file exactly to its cell and to the campaign |
| `CampaignAccounts.RegisterKeepsBooks` | benchmark/harness/run_output.py:1134-1194 | a new lease fits the recomputed campaign budget and owns no bytes yet |
| `CampaignAccounts.TotalIsBounded` | benchmark/harness/run_output.py:75-99 | written bytes stay within the registered budget, and that within 64 MiB |
| `CampaignLifecycle.RunsAreGood` | benchmark/harness/run_output.py:463-1059 | in every state of every run: exact books, index entries backed by durable records, and while Completed every attempt Completed and every cell accepted |
| `CampaignLifecycle.RunsBind` | benchmark/harness/run_output.py:1000-1059 | between any two states of a run: monotone status, frozen payload after poison, acceptance written once |
| `CampaignLifecycle.StepKeepsCompletion` | benchmark/harness/run_output.py:1024-1059 | no begin, seal, accept or register step breaks what a Completed run promises |
| `CampaignLifecycle.StepKeepsRecords` | benchmark/harness/run_output.py:943-1022 | every operation keeps the attempt index in agreement with the records on disk and acceptances in agreement with the index |
| `CampaignLifecycle.PoisonFreezesStep` | benchmark/harness/run_output.py:1307-1361 | after a capacity failure or an unknown publication no payload byte appears, changes or is charged |
| `CampaignLifecycle.StepAcceptsOnce` | benchmark/harness/run_output.py:1000-1022 | an accepted attempt id never changes and cells keep their place |
| `CampaignLimits.CompletionWithoutCells` | benchmark/harness/run_output.py:1036-1059 | exactly when a run completed without cells can lose its promise to a later registration |
| `CampaignLimits.LateRegistration` | benchmark/harness/run_output.py:1024-1194 | a run that completes at once, registers a cell and ends Completed with a cell nobody accepted |
| `CampaignLimits.CellIdIsInjective` | benchmark/harness/run_output.py:206-230 | unless one arm ends with two dashes and the other, a cell id determines its coordinates |
| `CampaignLimits.ArmsCollideExactly` | benchmark/harness/run_output.py:206-230 | two different arms share a valid cell id for some query cases if and only if one ends with two dashes and the other and has at most 93 characters |
| `CampaignLimits.RunsAcceptOwn` | benchmark/harness/run_output.py:1000-1022 | in every run whose arms cannot be confused, the accepted attempt of a cell was begun for exactly its coordinates |
| `CampaignLimits.RunsAreNamed` | benchmark/harness/run_output.py:206-230 | in every state of every run the coordinates of all cells and attempts are valid names |
| `CampaignLimits.AcceptanceIsOwnExactly` | benchmark/harness/run_output.py:1000-1022 | some run over two arms ends with a cell whose accepted attempt is not its own if and only if the arms can be confused |
| `CampaignLimits.ForeignAcceptance` | benchmark/harness/run_output.py:1000-1022 | for any two pairs of coordinates with one cell id, a run from the initial state in which the cell of one accepts a completed attempt of the other and has none of its own |
| `CampaignLimits.ForeignExample` | benchmark/harness/run_output.py:1000-1022 | such a run exists for the arms `c` and `b--c` |
| `CampaignState.FindCell` | benchmark/harness/run_output.py:1219-1223 | the first cell with the id, or none |
| `CampaignState.UpsertIsUpdate` | benchmark/harness/run_output.py:1476-1512 | an update replaces the entry of its own source and attempt or appends one |
| `CampaignPromises.PublishCellPromise` | benchmark/harness/run_output.py:367-379 | a successful publication met every check, put the file in place and charged exactly the difference within the lease; a failed one changed nothing, or closed the run with at most that file in place |
| `CampaignPromises.RegisterPromise` | benchmark/harness/run_output.py:1076-1194 | success means that the contract is held and asking again changes nothing; failure has one of three reasons, each with its own effect |
| `CampaignAccounts.BudgetPerCell` | benchmark/harness/run_output.py:1157-1182 | an empty campaign registers 52000 bytes, and each cell adds its lease, its index entries, lines for attempts and samples, its captures, and an entry for a new arm |
| `CampaignPromises.PreparePromise` | benchmark/harness/run_output.py:316-357 | what is prepared can be published right away unless the disk fails; what is not prepared was refused without effect or was too large and closed the run |
| `CampaignPromises.AcceptPromise` | benchmark/harness/run_output.py:1000-1022 | an acceptance names a completed attempt of the coordinates, can be repeated and never replaced |
| `CampaignPromises.SealPromise` | benchmark/harness/run_output.py:463-505 | a seal is in the record and in the index, and no second seal has any effect |
| `CampaignPromises.FinalizePromise` | benchmark/harness/run_output.py:1024-1059 | a run gets exactly the ending asked for and nothing else moves; it fails from Running exactly for Running or an unfinished Completed, and a terminal run only repeats its own ending |
| `CampaignPromises.PublishCellGoes` | benchmark/harness/run_output.py:316-379 | a payload is published exactly when the run is running and open, the target is the one observed, it has room in lease, budget and limit, and the disk works |
| `CampaignPromises.SealExactly` | benchmark/harness/run_output.py:463-505 | a seal is given exactly for a Running record, an ending, a complete payload if Completed, and room in the control reserve |
| `CampaignPromises.AcceptExactly` | benchmark/harness/run_output.py:1000-1022 | an attempt is accepted exactly when it is the first of its coordinates with the id, completed, and the cell has accepted no other |
| `CampaignPromises.BeginExactly` | benchmark/harness/run_output.py:943-987 | an attempt begins exactly on a running run with valid names, a free ordinal, no record in its place and room in the control reserve |
| `CampaignWrites.PublishedOverWhatWasSeen` | benchmark/harness/run_output.py:1338-1395 | in every run, a write prepared in one state and published in a later one replaces exactly the file it was prepared against |
| `CampaignWrites.RunsRenew` | benchmark/harness/run_output.py:1338-1395 | between two states of a run no file disappears, and every file that is not as it was is newer than the first state |
| `RunOutput.Run.MarkCapacityExceeded` | benchmark/harness/run_output.py:1414-1436 | the omission is counted, the registration says whether that is known on disk, at most the index file changes, and no later payload write, registration, sealing or ending has any effect |
| `RunOutput.Run.MarkPublicationUnknown` | benchmark/harness/run_output.py:1438-1474 | no file changes, and no later payload write, registration, sealing or ending has any effect |
| `RunOutput.Run.CommitControlWrite` | benchmark/harness/run_output.py:1363-1378 | fine exactly when the target is as observed, may be written, fits the reserve and the disk works; then the record is in place, nothing else moved and the reserve is charged the difference; a rejection changes nothing unless the manifest failed to persist |
| `RunOutput.Run.PublishControlWrite` | benchmark/harness/run_output.py:286-302 | succeeds exactly when such a commit does and the run is running or the record may come later; a refusal before the commit has no effect, a failed commit poisons the run with at most that file changed |
| `RunOutput.Run.PrepareCellWrite` | benchmark/harness/run_output.py:316-357 | a prepared write matches the target as it is and can be published unless the disk fails; none means no effect or an oversized payload that closed the run |
| `RunOutput.Run.CommitCellWrite` | benchmark/harness/run_output.py:1338-1361 | when fine the file is in place and charged to its cell within lease and limit; otherwise nothing changed, the run is closed, or exactly this file reached the disk |
| `RunOutput.Run.PublishCellWrite` | benchmark/harness/run_output.py:367-379 | succeeds exactly when all checks are met and the disk works; then the file is in place with the exact charge; on a running run every failure closes it, with at most that file in place |
| `RunOutput.Run.RegisteredCell` | benchmark/harness/run_output.py:1219-1223 | the loop finds the first cell with the id |
| `RunOutput.Run.RegisterCell` | benchmark/harness/run_output.py:1076-1194 | success: the cell is held under this contract and a repetition changes nothing; refusal: not registrable and no effect, over the campaign limit and closed, or enrolled with a manifest that did not persist |
| `RunOutput.BudgetOf` | benchmark/harness/run_output.py:1157-1182 | the accumulated campaign budget is the declared sum |
| `RunOutput.Run.CloseRegistration` | benchmark/harness/run_output.py:1065-1074 | sealing changes nothing else, and after success every registration is refused without effect; it fails only on a poisoned run or a manifest that did not persist |
| `RunOutput.Run.Begin` | benchmark/harness/run_output.py:943-987 | succeeds exactly under its conditions; the attempt takes the first free ordinal of its source, its Running record is in place before it is indexed, and cells and charges stay as they were |
| `RunOutput.Run.UpdateAttempt` | benchmark/harness/run_output.py:1476-1512 | the loop updates or appends the entry |
| `RunOutput.Run.SealAttempt` | benchmark/harness/run_output.py:463-505 | succeeds exactly under its conditions; then the Running record and the index entry are replaced, and every further seal of the attempt is refused without effect |
| `RunOutput.Run.AcceptAttempt` | benchmark/harness/run_output.py:1000-1022 | succeeds exactly under its conditions; names a completed attempt of the coordinates, changes only the acceptance, can be repeated and refuses every other attempt |
| `RunOutput.Run.FinalizeRun` | benchmark/harness/run_output.py:1024-1059 | the loops decide exactly whether the run may complete; the status becomes the ending asked for and nothing else moves; the refusals are exact, and a terminal run only repeats its ending |
| `RunOutput.Run.Perform` | benchmark/harness/run_output.py:463-1512 | every call of a disciplined caller on the owner keeps exact books, honest records and the promises made in earlier states |
| `OrderContract.OrderValues` | benchmark/corpora/bound_result_contract.py:429-442 | accepts exactly when every two rows are in order: equal keys, or at the first key that differs the earlier row has the NULL or value that goes first; otherwise it names the first neighbour with a value that goes before its predecessor's, or of another kind |
| `OrderContract.CheckNeighbours` | benchmark/corpora/bound_result_contract.py:431-442 | the loop over adjacent rows against the order of all pairs |
| `OrderContract.CompareNeighbours` | benchmark/corpora/bound_result_contract.py:432-441 | the loop over keys with its early break is the lexicographic comparison |
| `OrderContract.CompareTransitive` | benchmark/corpora/bound_result_contract.py:432-441 | precedence by direction and NULL placement is transitive, across kinds of values too |
| `OrderContract.CompareAntisymmetric` | benchmark/corpora/bound_result_contract.py:432-441 | only identical keys tie, and exchanging the rows exchanges the verdict |
| `OrderContract.CompareMeans` | benchmark/corpora/bound_result_contract.py:432-441 | the comparison of two rows is decided by the first values that differ, by direction and NULL placement |
| `OrderContract.NumbersInOrder` | benchmark/corpora/bound_result_contract.py:429-442 | a column of numbers is in order exactly when it never falls, or never rises if descending, with the NULLs together at their end |
| `OrderContract.TextsInOrder` | benchmark/corpora/bound_result_contract.py:429-442 | the same for texts |
| `Texts.TextLessMeans` | benchmark/corpora/bound_result_contract.py:438 | a text is less than another exactly when it is a proper prefix or has the smaller character at the first difference |
| `OrderContract.OrderedBagsAgree` | benchmark/corpora/tpcds_result_contract.py:227-280 | two ordered results with equal bags have one key sequence, equal bags before every peer boundary and equal bags in every peer group |
| `ExactValues.ExactNumber` | benchmark/corpora/exact_result_value.py:26-38 | the digit loop and normalisation give the reduced fraction of the decimal's value |
| `ExactValues.CoefficientMeans` | benchmark/corpora/exact_result_value.py:30-33 | the digits are read in base ten |
| `ExactValues.TrailingZero` | benchmark/corpora/exact_result_value.py:29-38 | a zero more behind the digits, with the exponent one less, is the same number |
| `ExactValues.ReducedIsCanonical` | benchmark/corpora/exact_result_value.py:21-38 | reduced fractions of equal rationals are identical |
| `ExactValues.ExactNumbersAreCanonical` | benchmark/corpora/exact_result_value.py:26-38 | two decimals share an exact number exactly when they are numerically equal |
| `JsonText.DumpIsPrefixCode` | benchmark/corpora/exact_result_value.py:85-87 | written JSON values can be told apart whatever follows them, with all string escapes |
| `JsonText.ReadsBack` | benchmark/corpora/exact_result_value.py:85-87 | every written JSON value reads back with a reader after RFC 8259, and what follows it is left over |
| `Evidence.ValueReadsBack` | benchmark/corpora/exact_result_value.py:67-82 | a canonical scalar reads back from its tagged evidence: exact numbers from their numerals, floats from their hexadecimal text |
| `Evidence.RowReadsBack` | benchmark/corpora/exact_result_value.py:67-87 | a canonical row reads back from its evidence, whatever follows it |
| `Numerals.NumeralHasValue` | benchmark/corpora/exact_result_value.py:73-75 | a written integer has its value |
| `Evidence.EvidenceInjective` | benchmark/corpora/exact_result_value.py:67-82 | canonical scalars have equal evidence exactly when they are equal, float hexadecimal included |
| `Evidence.EvidenceIsPrefixCode` | benchmark/corpora/exact_result_value.py:67-87 | the evidence of a canonical row determines the row whatever follows it |
| `DigestStream.StreamsAgreeWithBags` | benchmark/corpora/tpcds_result_contract.py:215-249 | the hashed streams of two results are equal exactly when the results are equal as multisets |
| `DigestStream.StreamInjective` | benchmark/corpora/tpcds_result_contract.py:242-249 | the NUL and newline framing is uniquely decodable |
| `DigestStream.OneListing` | benchmark/corpora/tpcds_result_contract.py:242-249 | sorting a counter by evidence leaves one possible list |
| `DigestStream.MultisetStream` | benchmark/corpora/tpcds_result_contract.py:215-249 | counting, sorting and framing produce that stream |
| `DigestStream.CountRows` | benchmark/corpora/tpcds_result_contract.py:215-216 | the counter holds the multiplicity of every row |
| `DigestStream.SortedItems` | benchmark/corpora/tpcds_result_contract.py:244-248 | all items of the counter, strictly ascending by evidence |
| `DigestStream.SequenceStreamInjective` | benchmark/corpora/tpcds_result_contract.py:219-224 | the stream of an ordered result determines its rows and their order |
| `DigestStream.SchemaEquality` | benchmark/corpora/exact_result_value.py:67-82 | under one schema Python equality of canonical values is identity |
| `DigestStream.PythonEqualDiffers` | benchmark/corpora/exact_result_value.py:67-82 | canonical values are equal in Python without being the same exactly for a boolean and the float it equals |
| `DigestStream.RowSchemaEquality` | benchmark/corpora/tpcds_result_contract.py:215-216 | rows of one schema are equal in Python exactly when they are the same row |
| `DigestStream.CountersAreBags` | benchmark/corpora/tpcds_result_contract.py:215-239 | counters of rows of one schema are equal exactly when the rows are equal as multisets |
| `DigestStream.StreamsAgreeWithCounters` | benchmark/corpora/tpcds_result_contract.py:215-249 | under one schema two hashed streams are equal exactly when the counters are |
| `DigestStream.MixedKindsDiffer` | benchmark/corpora/exact_result_value.py:71-77 | across schemas it is not: True and 1.0 are equal with different evidence |
| `BagOracle.InnerJoin` | benchmark/harness/e8_oracle.py:126-136 | the nested loops produce the join, in order |
| `BagOracle.JoinMultiplicity` | benchmark/harness/e8_oracle.py:126-136 | a pair occurs as often as the product of its rows' multiplicities if their keys match, and never on NULL |
| `BagOracle.JoinCardinality` | benchmark/harness/e8_oracle.py:126-165 | the size of an inner join is the sum over non-NULL keys of the products of group counts |
| `BagOracle.GroupsGiveTheSize` | benchmark/harness/e8_oracle.py:126-165 | the same in terms of the two dictionaries `group_count` returns |
| `BagOracle.LeftOuterJoin` | benchmark/harness/e8_oracle.py:139-155 | the loop produces the outer join with NULL rows for unmatched inputs |
| `BagOracle.OuterJoinAddsUnmatched` | benchmark/harness/e8_oracle.py:139-155 | as bags it is the inner join and one padded row per unmatched left row |
| `BagOracle.GroupCount` | benchmark/harness/e8_oracle.py:158-165 | the dictionary holds exactly the occurring keys with their counts |
| `DomainEvidence.ChainsAreExact` | benchmark/harness/e8_oracle.py:54-123 | any tree of filters and joins whose evidence is ObservedFull has exactly the values of the same tree on rows |
| `DomainEvidence.FilterIsExactWhen` | benchmark/harness/e8_oracle.py:91-104 | one filter keeps evidence exact if and only if its condition is new or excludes nothing |
| `DomainEvidence.FullExactlyWhenObserved` | benchmark/harness/e8_oracle.py:62-117 | evidence stays full exactly when every base was observed; partial or model evidence is never upgraded |
| `DomainEvidence.JoinValues` | benchmark/harness/e8_oracle.py:107-136 | the joined rows have the common non-NULL values of both columns |
| `DomainEvidence.ReservedCondition` | benchmark/harness/e8_oracle.py:91-117 | a filter that borrows the join's condition keeps full evidence that is wrong |
| `SqlSplitter.SplitStatements` | benchmark/harness/executor.py:1047-1123 | every script is spelled by bare characters, comments and quoted pieces, and for every spelling the statements are the trimmed, non-empty texts between bare semicolons, with every other piece whole |
| `SqlSplitter.TakeTurn` | benchmark/harness/executor.py:1058-1116 | the branches of one turn are one transition of a five-mode scanner |
| `SqlSplitter.CutsAtSemicolons` | benchmark/harness/executor.py:1047-1123 | a spelled script is cut exactly at its bare semicolons |
| `SqlSplitter.PassesPiece` | benchmark/harness/executor.py:1058-1116 | a comment, a quoted text with doubled quotes or a quoted name is taken whole, closed or open at the end |
| `SqlGrammar.EveryScriptIsSpelled` | benchmark/harness/executor.py:1047-1123 | every text is spelled by some pieces of the grammar |
| `SqlSplitter.ResplitIsStable` | benchmark/harness/executor.py:1047-1123 | splitting the statements again, joined with newline and semicolon, returns them |
| `SqlSplitter.StatementsSurvive` | benchmark/harness/executor.py:1047-1123 | so does any list of trimmed, quiet statements that a newline closes |
| `SqlSplitter.SplitGivesStatements` | benchmark/harness/executor.py:1047-1123 | every statement is trimmed and not empty, and each semicolon in it lies in a quote or comment |
| `SqlSplitter.ChunksCover` | benchmark/harness/executor.py:1047-1123 | the raw pieces joined with semicolons are the script |
| `CellCodec.RowRoundTrip` | regress/harness/comparator.py:811-822 | a row of at least one cell comes back from its line if and only if no reserved text lacks its raw value |
| `CellCodec.FetchedRowRoundTrip` | regress/harness/comparator.py:442-822 | with all raw values every row comes back |
| `CellCodec.CellRoundTrip` | regress/harness/comparator.py:442-466 | NULL, the empty string and every normalized text come back, reserved words included |
| `CellCodec.FallbackRoundTrip` | regress/harness/comparator.py:820 | a text without raw value comes back if and only if it is no reserved token |
| `CellCodec.FallbackLosesReserved` | regress/harness/comparator.py:820 | the text NULL without raw value comes back as SQL NULL |
| `CellCodec.TextRoundTrip` | regress/harness/comparator.py:979-1014 | decoding undoes the four sequential replacements, which leave no tab or line break |
| `CellCodec.WireForm` | regress/harness/comparator.py:979-985 | backslash, tab, newline and carriage return are written as two characters, every other character as itself |
| `CellCodec.EncodeConcat` | regress/harness/comparator.py:979-985 | texts are encoded character by character |
| `CellCodec.TokensRoundTrip` | regress/harness/comparator.py:735 | splitting at tabs undoes joining with tabs |
| `CellCodec.DecodeText` | regress/harness/comparator.py:988-1014 | the index loop decodes from the left |
| `CellCodec.EncodeRow` | regress/harness/comparator.py:811-822 | the loop joins the tokens of all cells |
| `CellCodec.EmptyRow` | regress/harness/comparator.py:811-822 | a row of no cells reads back as one empty string |
| `IdScanner.ParseCovers` | regress/harness/normalizers.py:21-32 | the tokens of a line spell the line |
| `IdScanner.ReplacedParse` | regress/harness/normalizers.py:199-208 | a line whose ids are replaced by other digits parses to the replaced ids |
| `IdScanner.BothAreSane` | regress/harness/normalizers.py:21-32 | both regular expressions meet what the laws ask of an id syntax |
| `IdForms.LogicalIdsAreFound` | regress/harness/normalizers.py:32 | wherever `logical_node_id=` starts a word, or the quoted key stands with any blanks around its colon, the digits after it are an id of the line |
| `IdForms.CteIdsAreFound` | regress/harness/normalizers.py:21 | wherever `CTE Index:` starts a word, the digits after it that end a word are an id of the line |
| `IdForms.OnlyIdsAreFound` | regress/harness/normalizers.py:21-32 | every id found has one of these leads and consists of digits |
| `IdNormalizer.NormalFormsAreCanonical` | regress/harness/normalizers.py:199-220 | with equal text around the ids, two plans normalize equally exactly when one one-to-one renaming relates their ids across all lines |
| `IdNormalizer.NumbersAreCanonical` | regress/harness/normalizers.py:201-206 | numbers by first appearance agree exactly for lists related by a renaming |
| `IdNormalizer.NumberedByFirstAppearance` | regress/harness/normalizers.py:201-206 | a new id gets one more than the number of ids before it, and a known id the number it got first |
| `Numerals.DecimalsHaveValue` | regress/harness/normalizers.py:206 | a written number has its value and no leading zero |
| `IdNormalizer.LogicalIsIdempotent` | regress/harness/normalizers.py:199-208 | normalizing logical ids twice changes nothing |
| `IdNormalizer.Normalize` | regress/harness/normalizers.py:199-220 | the loops over lines and matches with one growing dictionary; each line is kept around its ids, and the ids of all lines together become the written numbers of their first appearance |
| `SampleBinding.RunQuery` | benchmark/harness/executor.py:256-397 | what escapes, exactly; otherwise the samples are those up to the first that ended badly, each receipt is the one observed for the sample in its place, the error is the first thing that went wrong and none exactly when nothing did |
| `SampleBinding.SilentCancellationEscapes` | benchmark/harness/executor.py:1126-1129 | an error without text escapes when receipts are off and is contained when they are on |
| `SampleBinding.RunWorkload` | benchmark/harness/executor.py:126-196 | what escapes, exactly; otherwise one coherent result for every planned query: queries are run up to the first timeout and keep their samples, receipts, errors and verdicts, slow ones fail, and the rest are skipped |
| `SampleBinding.BindQuery` | benchmark/harness/reporter.py:144-211 | binds exactly when the result is plausible, the ids suffice and no receipt already carries other coordinates; then receipts are kept and the next planned ids are taken in order |
| `SampleBinding.BoundQueryKeeps` | benchmark/harness/reporter.py:144-211 | a query keeps its own receipts in order, the rest are uncovered, and its ids are the next planned ones |
| `SampleBinding.BindWorkload` | benchmark/harness/reporter.py:118-241 | the cursor loop binds query after query, and on success has moved by the planned number of every query |
| `BenchmarkPayload.BuildPayload` | benchmark/harness/reporter.py:58-247 | builds the bound payload exactly when every query can be bound and the ids are used up |
| `BenchmarkPayload.EverySampleIsBound` | benchmark/harness/reporter.py:144-247 | coherent results of the registered queries always give a payload that binds the ids in order, keeps every receipt and passes the check |
| `BenchmarkPayload.CheckPayload` | benchmark/harness/receipt_contract.py:546-605 | accepts exactly when receipts carry the cell's coordinates and every registered id occurs exactly once |
| `BenchmarkPayload.RunBenchmark` | benchmark/runner.py:555-592 | whatever happens to the queries, if nothing escapes the payload exists, binds every registered id in order and passes the check; each sample has the receipt observed for it whenever there was one, and none has a verified receipt of another |

## Left out

- IEEE rounding: the float operators of the schedule search are any functions (`Envelope` assumes that comparison is a weak order and that roots and quotients of valid numbers are numbers); exactness is proved over the reals.
- `sample_moments` beyond mean and variance: the rounding of its square root and quotient is not modelled.
- `Evidence.EvidenceIsPrefixCode`: works on characters; UTF-8 and SHA-256 are not modelled, so the laws are about the hashed text and not about digests.
- `OrderContract.OrderValues`: the evaluation of an order expression on a row is a parameter that may fail; binding of SQL expressions and numeric coercions are not modelled.
- `JobJournal.RunsAreSound`: a manifest write is two steps, staged and renamed; fsync, permissions and other writers in the directory are not modelled, and contents are compared through an arbitrary digest function.
- `RunOutput.Run.MarkPublicationUnknown`: the marker file and the copy of the manifest on disk are not modelled; a failed persist is a parameter.
- `RunOutput.Run.SealAttempt`: the verdict on the published payload document is a parameter.
- `RunOutput.Run.RegisterCell`: calls are atomic; interleavings of callers inside methods that hold no lock are not modelled.
- `CampaignState.UpsertIsUpdate`: file generations are a counter, so two writes within one clock tick are never confused; the attempt index number is not modelled because it is recomputed at seal time.
- `CampaignOutput`, `CorpusOutput` and the campaign summary documents: adapters over the operations modelled here.
- `IdScanner.ParseCovers`: digits, white space and word characters are parameters; the regular expressions are modelled as leads followed by digits rather than by a general matcher.
- `SqlSplitter.SplitStatements`: white space is a parameter that contains the newline and none of the characters the scanner acts on.
- `CellCodec.CellRoundTrip`: the normalization of a value to text is a parameter; the transcript format around rows is not modelled.
- `BenchmarkPayload.CheckPayload`: only the binding part of the validator; the field-by-field validation of receipts and documents is not modelled.
- `SampleBinding.RunQuery`: memory, RSS and timing measurements only appear as stages that may raise.
- The engine crates, servers, processes and connections, bootstrap statistics, command line and Markdown rendering: foreign calls, I/O or single-branch code that would only add easy members.
