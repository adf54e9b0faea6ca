# Tag governance: a verified model

This project models the stateful parts of the AWS tag governance service: the remediation protocol that web callers
and queue workers run on one shared record, change sets (plan, batch, apply, undo) over a live tag store,
protected-tag baselines with automatic revert, the scanner that reads Terraform tag maps, and the smaller state
machines for exemptions, propagation and suggestions.

`dafny verify dfyconfig.toml` checks everything.

## How the model is laid out

**Remediation** (`Timestamps`, `TimestampLaws`, `StateStore`, `Protocol`, `ProtocolRuns`, `ProtocolWitnesses`,
`ProtocolExemptions`, `RemediationEngine`, `Worker`). `Protocol` is a transition system for one action: the shared
record, a clock, and any number of calls, each at one of its steps. An event lets time pass, starts a web call or
delivers a queue message, crashes a call, or lets one call take its next step against a store that serves the request,
drops it, or applies it and loses the reply. `ProtocolRuns` proves what holds over every run, `ProtocolExemptions`
that exempt actions are never executed. `RemediationEngine` and `Worker` are the two client loops as imperative code;
a call that nobody interferes with is proved to do exactly what the protocol's steps do, and such a sequence of steps
is proved to be a run. The store compares lease texts, as the source does; `Timestamps` proves that this is time
order.

**Change sets** (`Governance`, `GovernanceLaws`, `GovernanceEngine`, `Compliance`, `TagStore`, `Batching`, `Targets`,
`Plans`, `PlanLaws`, `PlanTokens`, `ChangeSets`, `ApplyLaws`, `ChangeSetTable`, `UndoLaws`). Tag dictionaries keep
their order, because the normaliser lets the first key of each meaning win. `GovernanceEngine` is the evaluation as
loops, proved against a definition of each kind of violation; `GovernanceLaws` says what that definition reports, rule
by rule, and `PlanLaws` what a plan item says. `Batching` proves that grouped and chunked calls have the effect of one
write per resource. `ChangeSetTable` holds apply and undo as methods over the cloud and the table; `ApplyLaws` says
from the plan alone what apply writes and records, `UndoLaws` what undo promises key by key, under any interference
and any set of failing calls.

**Drift** (`Drift`, `DriftLaws`, `DriftBound`, `DriftExemptions`, `DriftMonitor`). A machine for one resource: live
tags, baseline, and the queue of change events, with outside changes, writes of the app, scans and handled events as
steps. `DriftMonitor` is the detector and the baseline scan as methods over the cloud, proved against the machine.

**Terraform** (`TerraformLexer`, `TerraformTags`, `TerraformComments`, `TerraformExpressions`), **exemptions**
(`Exemptions`, `ExemptionLaws`), **propagation** (`Propagation`, `PropagationLaws`) and **suggestions**
(`Suggestions`, `SuggestionLaws`) each stand alone. `Text` and `Wrappers` are shared helpers. The `...Laws` modules
state results in terms of the data alone, without the definitions that the methods and their contracts share.

## What the code does not guarantee

The proofs led to some properties one might expect but which the code does not have. Each has a counterexample in the
project, and the exact condition where there is one.

- Overlapping executions do not imply that the later claim found an expired lease. After a takeover the stale worker's
  report reopens the record under the new holder, because the outcome update checks only the status, and a third call
  can then claim it in the ordinary way (`OrdinaryClaimMayOverlap`). Exact: two calls hold the action at once in a run
  if and only if some claim of the run takes over a live holder (`OverlapExactly`).
- A web claim neither sets nor clears `lease_until`, so a lease left behind by a worker that reported in time lets
  another worker take the action from a web caller at once (`LeftoverLeaseTakesOverCaller`).
- A mutation can run after the record is terminal: a worker that stalls between its claim and its mutation still
  enters it after another worker took over and completed the action (`MutationMayRunLate`). Exact: a terminal record
  lets no mutation start any more if and only if no call is between its claim and its entry into the mutation, and
  ends all writing if and only if no call is between its claim and its outcome (`LateMutationExactly`). Both always
  hold in runs where no claim takes over a live holder, so also without queue workers
  (`NoLateMutationWithoutTakeover`, `WebOnlyNoLateMutation`).
- A queue message can be deleted while its action is unfinished. Exact, for every step of a call and every store
  fault: when a worker reports a final outcome and the store drops the report or the record is FAILED_RETRYABLE, or
  when a worker closes an exhausted action out and the store drops that (`UnsafeDeletionExactly`; one run for each:
  `DeletionMayBeUnsafe`, where every request is served, `DroppedReportDeletes`, `DroppedCloseOutDeletes`).
- A valid plan can add a violation: exactly when it adds a canonical key next to a live alias of it, or blanks a
  required value that counts (`ValidPlanKeepsComplianceExactly`; one plan for each: `ValidPlanMayConflict`,
  `ValidPlanMayBlank`).
- Automatic revert can undo a write of the app. Tags the app sets, with only settled events pending, survive when no
  exemption covers the events (`OwnWriteSurvives`). With exemptions they need not: an exempt event of an earlier write
  makes the earlier value the accepted one, and the event of the later write is then reverted
  (`ExemptionUndoesOwnWrite`). Exact: live tags survive if and only if the event of the write is exempt or no key it
  changed is overruled, that is, told of with another value by an exempt pending event; the baseline survives as well
  if and only if every overruled key is changed by the write and that event is exempt (`OwnWriteSurvivesExactly`).
- Automatic revert can undo a removal by the app: with only settled events pending and without exemptions, exactly
  when a pending event is about a removed live key, which is then learnt again and put back
  (`OwnRemovalIsRevertedExactly`, `RemovalIsUndone`).
- Without exemptions, needless revert calls, which write the value that is there, are made after a setting by the app
  exactly when a pending event tells of another value (`NeedlessRevertExactly`, `TwoOwnWritesRevertNeedlessly`).
- There can be more reverts than outside changes. The bound is proved for orderly runs: no exemptions, the app sets no
  protected key to what a pending event of its own contradicts, removes none that a pending event has a value for, and
  no scan learns a key whose absence a pending event of the app's own tells of
  (`DriftBound.RevertsNeverExceedChanges`). Without the condition on scans two removals and one outside change can
  give two reverts (`ScanCanCauseMoreReverts`); without the one on removals, or the one on settings, there can be a
  revert and no outside change at all (`RemovalCanCauseRevert`, `TwoOwnWritesRevertNeedlessly`). In runs where the app
  removes nothing, scans need no condition (`RevertsWithoutRemovals`).
- An exemption request with an empty scope field gets past the conflict check next to one where the field is absent,
  and then neither applies (`EmptyFieldMakesTwins`, exact condition in `TwinsAppearExactly`).
- A `//` comment is a comment for the brace scanner but plain text for the entry splitter. What a map with such notes
  reads as is exact for all notes whose quotes and brackets close (`ReadsAsPieces`). It reads back as intended exactly
  when the notes speak of no keys but the map's own, and the last word on each key, be it its value or a note after
  it, is the intended value (`NotedMapReadsBackExactly`, `LastWord`); when the notes speak of none of its keys,
  exactly when they speak of no tag at all and every value with a note beside it is unknown anyway, and not made known
  by a quote that ends the note (`UnrelatedNotesReadBackExactly`, `ValueKeptExactly`; for plain notes
  `PlainNotesReadBackExactly`). A comment on a line of its own does no harm if white space follows the slashes and no
  comma cuts it (`SpacedCommentIsSilent`, `SpacedPairIsSilent`). Otherwise a plain note makes a value unknown
  (`SlashCommentHidesValue`), a pair commented out after a comma becomes a tag (`NoteMakesTag`) or, with the key of
  its own entry, the last word (`NoteRepeatsPair`), a bare key commented out without a space becomes a tag named with
  the slashes (`CommentedLineMakesTag`), a note in quotes becomes part of the value (`NoteJoinsValue`), and an open
  bracket in a note swallows the next entry (`OpenNoteSwallowsNext`).
- A value that is an expression should count as present but unknown. It does, except when the expression starts and
  ends with a quote and has no interpolation in between: then the text between these quotes is taken for the value
  (`ExpressionReadsExactly`; `ChoiceLooksKnown` is a choice between two strings).

## Model

| member | source | states |
|---|---|---|
| Timestamps.TextOrderIsTimeOrder | src/governance/state.py:341-350 | For all instants, comparing `isoformat()` texts is comparing times, both directions, also when only one text shows microseconds |
| TimestampLaws.FieldsAreTheDate | src/governance/state.py:341-350 | Year, month, day and time of an instant are those of the calendar, counted in closed form from 1 January of year 1 |
| TimestampLaws.IsoFormatShowsFields | src/governance/state.py:341-350 | The text shows them in figures at their places, microseconds only if there are any, and the UTC offset |
| Text.StripMeans | src/changesets.py:104-115 | Stripping takes white space off both ends and all of it; the 29 white-space characters are listed one by one |
| StateStore.MemoryStateStore.Create | src/governance/state.py:326-331 | Creates exactly when the id is new; otherwise nothing changes |
| StateStore.MemoryStateStore.Claim | src/governance/state.py:333-362 | Succeeds exactly when the status is one of those named, or a worker finds the lease expired in time, and attempts are left; the text comparison is proved to be the time comparison |
| StateStore.MemoryStateStore.Update | src/governance/state.py:364-378 | Succeeds exactly when the status is the expected one and the transition is allowed; nothing else is compared |
| Protocol.Reachable | src/governance/remediation.py:86-152 | The protocol invariant (attempts equal granted claims, outcomes earned, at most one exhaustion, one audit) holds in every state of every run |
| ProtocolRuns.OverlapExactly | src/governance/state.py:333-362 | Two calls hold the action at once in a run if and only if some claim of the run takes over a live holder through the expired lease |
| ProtocolRuns.WebOnlyExclusive | src/governance/state.py:333-362 | In runs without queue workers no two calls ever hold the action, with no assumption on time |
| ProtocolRuns.TimelyWorkersExclusive | src/governance/state.py:194-246 | If only workers hold claims and each stops holding by the end of its lease, no two ever hold together |
| ProtocolRuns.MutationsBounded | src/governance/remediation.py:118-152 | In every run the tag mutation is executed at most `attempt_count` times, and that is at most the maximum |
| ProtocolRuns.TransitionsBounded | src/governance/remediation.py:223-257 | No run changes the record more than 2 * max + 1 times after creating it |
| ProtocolRuns.TerminalAbsorbs | src/governance/state.py:364-378 | A terminal record never changes again and no claim is granted any more, whatever stale calls still do |
| ProtocolRuns.NoLateMutation | src/governance/remediation.py:86-109 | Once the record is terminal, only calls granted their claim before can still execute the mutation, and if there is none, nothing executes any more |
| ProtocolRuns.LateMutationExactly | src/governance/remediation.py:223-248 | In every continuation, a terminal record lets no further mutation start if and only if no call is between its claim and its entry into the mutation, and ends all writing if and only if no call is between its claim and its outcome |
| ProtocolRuns.NoLateMutationWithoutTakeover | src/governance/remediation.py:223-257 | In runs where no claim takes over a live holder, a terminal record ends the mutations of all calls, those under way included |
| ProtocolRuns.WebOnlyNoLateMutation | src/governance/remediation.py:86-152 | In runs without queue workers a terminal record ends the mutations of all calls |
| ProtocolRuns.OutcomesJustified | src/governance/remediation.py:119-148 | COMPLETED needs an execution that succeeded, FAILED one that failed for good or exhausted attempts; exhaustion is audited at most once |
| ProtocolRuns.OneRecord | src/governance/state.py:326-331 | A record once created never disappears and keeps its fingerprint |
| ProtocolRuns.MismatchChangesNothing | src/governance/remediation.py:86-109 | A web call with another payload for the same key never changes the record, never executes, and can only end in a mismatch, a store error or a crash |
| ProtocolRuns.OnePayload | src/governance/remediation.py:46-109 | Whoever executes does so with the payload the record was created for |
| ProtocolRuns.DeletedOnlyWhenDone | src/governance/remediation.py:202-263 | With a working store a message is deleted only for a terminal action: always after finding it done or exhausted, and after an own report in runs without a takeover of a live holder |
| ProtocolRuns.UnsafeDeletionExactly | src/governance/remediation.py:202-263 | For every step of a call and whatever the store does with the request: it deletes the message of an unfinished action exactly when it is a worker's final report that the store drops or that finds the record waiting for a retry, or a worker's close-out that the store drops |
| ProtocolRuns.KeptExactly | src/governance/remediation.py:202-263 | For every step of a call and whatever the store does: a worker keeps its message exactly when it cannot read the action, or was refused the claim to an action that is neither finished nor exhausted, or reports a failure to be retried |
| ProtocolRuns.ClaimedAtReading | src/governance/state.py:194-246 | A worker that stalls before its claim may be judged by any time since: the claim is granted on that time, and the lease ends 300 seconds after it |
| ProtocolExemptions.ExemptNeverExecuted | src/governance/remediation.py:65-109 | An action created by a call for an exempt resource stays SKIPPED_EXEMPT in every state of every continuation, claimed by no call and executed by none |
| ProtocolExemptions.OtherwiseExecutable | src/governance/remediation.py:65-109 | An action created by a call for a resource that is not exempt is executed when a worker gets to it, if any attempt is allowed |
| ProtocolWitnesses.OrdinaryClaimMayOverlap | src/governance/remediation.py:138-148 | A run in which an ordinary claim overlaps a holder |
| ProtocolWitnesses.MutationMayRunLate | src/governance/remediation.py:223-248 | A run in which the action is COMPLETED after one execution and a stalled worker then executes it again |
| ProtocolWitnesses.DeletionMayBeUnsafe | src/worker.py:191-214 | A run with a working store in which a message is deleted although its action still waits for a retry |
| ProtocolWitnesses.DroppedReportDeletes | src/governance/remediation.py:257-263 | A run in which the store drops a successful report, the action stays IN_PROGRESS and the message is deleted |
| ProtocolWitnesses.DroppedCloseOutDeletes | src/governance/remediation.py:236-238 | A run in which the store drops a close-out, the action stays FAILED_RETRYABLE without attempts and the message is deleted |
| ProtocolWitnesses.LeftoverLeaseTakesOverCaller | src/governance/state.py:356-360 | A run in which a lease left by a punctual worker lets another worker take over a web caller at once |
| RemediationEngine.AloneIsARun | src/governance/remediation.py:86-152 | Steps of one call without interference, from any state, are a run of the protocol with that result |
| RemediationEngine.RemediationEngine.ClaimAndRun | src/governance/remediation.py:111-148 | Claim, execution, report or exhaustion leave exactly the record, audit trail and place the protocol's steps leave |
| RemediationEngine.RemediationEngine.ProcessSync | src/governance/remediation.py:32-152 | The record, audit trail and reply are exactly those of the protocol's web call; an invalid request changes nothing |
| RemediationEngine.RemediationEngine.ProcessAsync | src/governance/remediation.py:202-263 | The record, audit trail and delete decision are exactly those of the protocol's worker call |
| RemediationEngine.SyncByCases | src/governance/remediation.py:32-152 | A web call without interference, case by case on the record it meets and the exempt flag: the record and the audit records it leaves, and when it executes |
| RemediationEngine.AsyncByCases | src/governance/remediation.py:202-263 | The same for a worker call: what it executes or takes over, the lease of 300 seconds it sets, and whether the message may be deleted |
| Worker.DeletesExactlyWhenDone | src/governance/remediation.py:202-263 | A worker call without interference deletes its message exactly when it leaves a terminal action |
| Worker.ProcessMessage | src/worker.py:69-138 | A message may go exactly when it is a health check or its action is terminal afterwards; done actions stay done |
| Worker.RunBatch | src/worker.py:191-214 | The messages before the shutdown are handled in order, and exactly those are deleted that may go right after their own handling: health checks, and remediations whose action is then terminal |
| Worker.GoneMeans | src/worker.py:191-214 | A deleted message may still go at the end of the batch, and messages of actions that were terminal before are deleted |
| Worker.GoneMessages | src/worker.py:36-138 | The deleted messages in terms of their fields: version "1", job id, job type, correlation id and payload, and a health check or an action that is completed, failed or skipped after its own call |
| TerraformLexer.CloseIsFirstBalance | src/cli/parsers.py:63-82 | The brace found is the first closing brace outside strings and comments at which the depth balances; -1 exactly when there is none |
| TerraformLexer.MatchBrace | src/cli/parsers.py:63-82 | The nested loops find exactly that brace |
| TerraformLexer.SplitEntries | src/cli/parsers.py:85-117 | The buffer loop produces exactly the entries of the recursive splitter, blank ones dropped, the rest stripped |
| TerraformTags.ParseTags | src/cli/parsers.py:170-183 | The tag map read is the one the reader function defines, or none when the brace is not closed; what that function reads is the subject of the next rows |
| TerraformTags.ReadsAsPieces | src/cli/parsers.py:63-127 | What a printed map reads as, for any layout with any comment lines around entries, quoted or bare keys, quoted, plain or computed values, any strings and notes whose quotes and brackets close, and any text that follows: the pairs in the pieces of its entries |
| TerraformTags.RoundTrip | src/cli/parsers.py:63-127 | A printed map without `//` notes reads back as printed, whatever braces, commas, newlines or comment marks its strings hold, with quoted keys or bare ones over the listed alphabet, with quoted values, numbers, true and false, or expressions of nested brackets and strings that do not both start and end with a quote, with any number of `#` comment lines around entries, with or without a final separator, and whatever text follows; expressions and values with an interpolation become unknown |
| TerraformTags.BareCharacters | src/cli/parsers.py:180 | The characters of a bare key are the listed letters, digits and five marks, and no others |
| TerraformTags.OtherKeysGiveNoTag | src/cli/parsers.py:180 | An entry whose unquoted part before the first sign has any other character gives no tag |
| TerraformTags.ReadKeysAreBare | src/cli/parsers.py:180-182 | Every key read without quotes is made of those characters and starts its entry |
| TerraformTags.UnquotedReads | src/cli/parsers.py:120-127 | A value without quotes is read as it is if and only if it is a decimal number, true or false, and is unknown otherwise |
| TerraformTags.MeantIs | src/cli/parsers.py:122-124 | A value in quotes is unknown exactly when an interpolation starts in it |
| TerraformTags.AssignedMeans | src/cli/parsers.py:180 | What follows the sign and its white space is the value text, and one white-space character if there is nothing else |
| TerraformTags.IntendedExactly | src/cli/parsers.py:170-183 | With distinct keys the map read back holds every printed pair and nothing else |
| TerraformComments.FirstPieceReads | src/cli/parsers.py:85-127 | An entry with any note always gives its own key the value text, with what of a `//` note sticks to it |
| TerraformComments.ValueKeptExactly | src/cli/parsers.py:85-127 | A value with a `//` note beside it is read as intended if and only if it is unknown anyway and the note does not end in a quote, or has an interpolation before that quote |
| TerraformComments.NotedMapReadsBackExactly | src/cli/parsers.py:85-127 | A map of distinct keys with `//` notes that close reads back as intended if and only if the notes speak of no other keys and the last text on each key gives its intended value |
| TerraformComments.LastWord | src/cli/parsers.py:85-127 | That last text is the last note or entry after the value that speaks of the key, and without one the value as it is read with its note |
| TerraformComments.UnrelatedNotesReadBackExactly | src/cli/parsers.py:85-127 | When the notes speak of none of the map's own keys, it reads back if and only if no note speaks of a tag and every value with a note beside it is read as intended |
| TerraformComments.SpacedCommentIsSilent | src/cli/parsers.py:85-127 | A `//` comment on its own line speaks of no tag if white space follows the slashes, no assignment sign comes first, and nothing in it separates entries |
| TerraformComments.PlainNotesRead | src/cli/parsers.py:85-127 | With plain `//` notes beside values, and comment lines that speak of no tag, exactly the printed keys are read, and exactly the values with a note become unknown |
| TerraformComments.PlainNotesReadBackExactly | src/cli/parsers.py:85-127 | Such a map reads back as intended if and only if the values with a note are unknown anyway |
| TerraformComments.SlashCommentHidesValue | src/cli/parsers.py:85-127 | A plain `//` note beside a value makes it unknown and adds no tag |
| TerraformComments.NoteMakesTag | src/cli/parsers.py:85-117 | A pair commented out after a comma is read as a tag |
| TerraformComments.NoteRepeatsPair | src/cli/parsers.py:85-117 | With the key of its own entry it is the last word: the map reads back if and only if it has the intended value |
| TerraformComments.CommentedLineMakesTag | src/cli/parsers.py:85-117 | A bare key commented out on its own line becomes a tag whose name starts with the slashes |
| TerraformComments.NoteJoinsValue | src/cli/parsers.py:120-127 | A note in quotes becomes part of the value, which is then wrong and not unknown |
| TerraformComments.OpenNoteSwallowsNext | src/cli/parsers.py:85-127 | A note with an open bracket swallows the next entry: its tag is lost and its text becomes part of the value |
| TerraformExpressions.ExpressionReadsExactly | src/cli/parsers.py:120-135 | A map with an expression for a value, of any nesting, reads as unknown, except when the expression starts and ends with a quote and has no interpolation between: then as the text in between |
| TerraformExpressions.ChoiceLooksKnown | src/cli/parsers.py:120-127 | For all strings: a choice between two strings whose condition starts with a string is read as a known value |
| Governance.CanonicalIdempotent | src/governance/normalizer.py:48-62 | The canonical key of a canonical key is itself |
| GovernanceLaws.CanonicalMeans | src/governance/normalizer.py:48-62 | A key means itself if it is in the schema, else the last rule with that alias, else the first rule that differs in case only, else itself |
| Governance.NormIsFirst | src/governance/normalizer.py:15-46 | The normalised dictionary gives each canonical key the value of the first key with that meaning, and no other keys |
| Governance.NormIsDict | src/governance/normalizer.py:15-46 | Normalised keys are distinct and canonical |
| GovernanceEngine.TagNormalizer.constructor | src/governance/normalizer.py:6-13 | The alias map built by the loops is the one in which a later alias wins |
| GovernanceEngine.TagNormalizer.GetCanonicalKey | src/governance/normalizer.py:48-62 | The lookup loop returns the canonical key |
| GovernanceEngine.TagNormalizer.Normalize | src/governance/normalizer.py:15-46 | The loop's dictionary is the normalised one, and a conflict is reported exactly for each meaning with more than one key, with all of them in order |
| GovernanceEngine.ValidateRequired | src/governance/validators.py:8-20 | Reports exactly the required schema keys that are absent or blank |
| GovernanceEngine.ValidateTags | src/governance/validators.py:23-84 | Reports exactly the tags with a disallowed value, a wrong format or an unknown key |
| GovernanceEngine.Evaluate | src/governance/engine.py:27-84 | The violations are exactly those the definition names, for full and partial checks and extra required keys; compliant exactly when there are none; warnings exactly in warn mode; rule by rule, value by value and key by key as in GovernanceLaws.EvaluationRight |
| GovernanceLaws.EvaluationRight | src/governance/validators.py:8-84 | For each normalised tag: a bad value is reported exactly when no allowed one of its rule equals it, a bad format exactly when the pattern does not match, an unknown key exactly when no rule has it and it is not reserved, a missing one exactly when it is required and no value is filled, a conflict exactly when two keys mean the same |
| GovernanceLaws.WarningsRight | src/governance/engine.py:27-84 | In warn mode the warnings are exactly the unknown keys, otherwise there are none |
| Compliance.UpdateView | src/changesets.py:140-141 | After a canonical update each meaning keeps its keys, gains itself if new, and takes the new value unless another live key comes first |
| Compliance.ChangesView | src/changesets.py:131-139 | A key is changed exactly when the requested value differs and it is new or overwriting is on |
| Compliance.ValidPlanKeepsComplianceExactly | src/changesets.py:119-152 | A valid plan adds no violation if and only if no change adds a key beside a live alias or blanks a required value that counts |
| Compliance.ValidPlanMayConflict | src/changesets.py:119-152 | For every key and alias: a valid plan that adds the key to a resource with the alias adds a conflict |
| Compliance.ValidPlanMayBlank | src/changesets.py:119-152 | For every required key: a valid plan that overwrites its value with a blank one makes it missing |
| Compliance.CanonicalLiveTagsStayCompliant | src/changesets.py:119-152 | On canonical live keys, a valid plan of non-blank values never adds a violation |
| TagStore.Cloud.RecordWrite | src/protected_tags.py:108-124 | The baseline of the resource takes exactly the protected keys of the write; other resources keep theirs |
| TagStore.Cloud.RecordWrites | src/protected_tags.py:127-133 | The same for every listed resource and for no other |
| Batching.TagBatches | src/changesets.py:181-188 | Items are split by account, region and payload: no key twice, no item left out, each group complete and in order |
| Batching.RunTagging | src/changesets.py:191-214 | Every resource is in exactly one call of at most twenty of one place and payload; the number of calls is the fewest that allows; tags and baselines are as if each non-failed item were written alone; an item is marked failed exactly when its resource failed |
| Targets.MergeMeans | src/changesets.py:102-116 | Merging asks, for each resource and key, for the last value any target gives it |
| Targets.MergeHas | src/changesets.py:102-116 | The merged targets are exactly the resources named with at least one tag |
| Targets.ValidateTargets | src/changesets.py:96-116 | Refused exactly when there are none, too many, or one has no ARN, no tags or an unusable key; otherwise the merged targets |
| Targets.BadTargetMeans | src/changesets.py:104-114 | A target is refused exactly when its stripped ARN does not start with arn:, it has no tags, or a stripped key is empty or starts with aws: in any case |
| Plans.BuildPlan | src/changesets.py:119-152 | One item per merged target in order, with changes, prior values, skipped keys, violations and compliance before and after as defined |
| PlanLaws.PlanItemMeans | src/changesets.py:119-152 | From the schema and the requested and live tags alone: which keys are changed, from what and to what, which are skipped, what is reported about the request, whether anything is reported about the live tags, and what is reported about the tags after the changes |
| Plans.SkippedMeans | src/changesets.py:134-136 | A key is reported as skipped exactly when it has another value and overwriting is off, with both values |
| Plans.PlanKeepsCompliance | src/changesets.py:140-151 | A valid item with safe changes that is compliant before is planned to be compliant after |
| PlanTokens.TokenSaysChangesExactly | src/changesets.py:155-157 | Two plans have the same token if and only if each item of one has an item of the other for the same resource, with the same keys, new values and prior values, and the reverse |
| PlanTokens.TokenIgnoresOrder | src/changesets.py:155-157 | The token does not depend on the order of distinct targets |
| PlanTokens.PreviewIsFaithful | src/changesets.py:225-230 | With an accepted token the applied plan has, resource by resource, the previewed keys, new values and prior values, and the same items are invalid |
| ChangeSets.PlanUndo | src/changesets.py:357-371 | The loop sorts the written keys into those to restore, to remove, and in conflict |
| ChangeSets.RunOptional | src/changesets.py:191-214 | At most one call per resource takes effect on exactly the resources that have one and do not fail |
| ChangeSetTables.ChangeSetTable.Apply | src/changesets.py:217-261 | Errors, in particular a rejected token, change nothing; otherwise exactly the valid, changing, non-failing items are written and one change set with their prior values is recorded; both are also said from the plan alone |
| ApplyLaws.AppliedAsPlanned | src/changesets.py:225-245 | From the plan alone: a key of a planned resource takes its planned value exactly when nothing is wrong with the item, it changes that key and its call does not fail; every other key and resource is as before |
| ApplyLaws.RecordsAsPlanned | src/changesets.py:232-244 | Each item is recorded in order with its prior and new values, as invalid, unchanged, failed or successful |
| ApplyLaws.StatusMeans | src/changesets.py:264-269 | The status is decided by whether some item succeeded and whether some item failed |
| ChangeSetTables.ChangeSetTable.Undo | src/changesets.py:343-398 | Errors change nothing; otherwise tags, baselines, the undo record and the undone mark are exactly those of restoring what still has its written value |
| UndoLaws.UndoTouchesExactly | src/changesets.py:343-398 | After any interference, each written key goes back to its prior value or absence exactly when its live value is still the written one and the call succeeds; every other key of every resource stays |
| UndoLaws.UndoAfterInterference | src/changesets.py:343-398 | The prior value is the one from before the apply |
| UndoLaws.UndoAfterApplyIsIdentity | src/changesets.py:343-398 | Undo right after apply restores every tag of every resource, for any set of failed applying calls |
| UndoLaws.CompleteUndoRestoresAll | src/changesets.py:295-298 | An undo recorded as UNDONE has restored every written key |
| UndoLaws.UndoneExactly | src/changesets.py:295-298 | An undo is recorded as UNDONE if and only if every written key still had its written value and no call failed, and as UNDO_PARTIAL otherwise |
| UndoLaws.UndoRecordsMean | src/changesets.py:353-384 | The undo records exactly one item for every written resource: the keys restored and removed are those whose written value is still there, the others are conflicts with what was found, and the result says whether a needed call failed, some key was put back, all were in conflict, or nothing had been written |
| UndoLaws.ApplyReachesPlannedTags | src/changesets.py:140-146 | A written resource ends with exactly the tags its plan was judged by |
| UndoLaws.ApplyKeepsBaselineInStep | src/changesets.py:210-214 | After an apply the baseline of each written protected key is its live value |
| UndoLaws.UndoKeepsBaselineInStep | src/changesets.py:210-214 | After an undo the baseline of each protected key put back is its live value, or both are absent |
| Drift.HandledEventsLeaveBaselineValues | src/protected_tags.py:172-245 | In revert mode with successful reverts, over any run, once no event is left every baselined key has its baseline value |
| DriftBound.RevertsNeverExceedChanges | src/protected_tags.py:224-245 | In orderly runs without exemptions, removals by the app included, reverts never exceed outside changes, and pending events that no outside change accounts for will be no drift |
| DriftBound.ScanCanCauseMoreReverts | src/protected_tags.py:136-245 | Two removals by the app, one outside change and one scan in between give two reverts |
| DriftBound.RemovalCanCauseRevert | src/protected_tags.py:187-230 | A setting and a removal of the same key by the app give a revert without any outside change |
| Drift.RevertsWithoutRemovals | src/protected_tags.py:224-245 | In runs without exemptions where the app only sets tags, none against a pending event, reverts never exceed outside changes, whatever is scanned when |
| Drift.PendingEventsDrain | src/protected_tags.py:172-245 | Without exemptions two handled events per pending one empty the queue, with at most one revert each, and live tags then agree with the baseline |
| Drift.EchoIsAFixpoint | src/protected_tags.py:187-203 | The event of a revert is no drift and changes nothing |
| Drift.OwnWriteIsQuiet | src/protected_tags.py:187-203 | The event of the app's own write, alone in the queue, is no drift and teaches nothing |
| Drift.OwnWriteSurvives | src/protected_tags.py:187-245 | Without exemptions, and with settled events pending, handling everything after the app has set tags changes no live tag and no baseline entry |
| DriftExemptions.OwnWriteJudged | src/protected_tags.py:205-245 | What any mix of exempt and other events leaves of every live tag and baseline entry after the app has set tags while settled events were pending |
| DriftExemptions.OwnWriteSurvivesExactly | src/protected_tags.py:205-245 | In revert mode with successful reverts, the live tags survive if and only if the event of the write is exempt or the write changed no key that an exempt pending event overruled; tags and baseline survive if and only if every overruled key is one the write changed and its event is exempt |
| DriftExemptions.ExemptionUndoesOwnWrite | src/protected_tags.py:205-233 | Two writes of the app and an exemption for the event of the first: the second write is undone |
| Drift.NeedlessRevertExactly | src/protected_tags.py:187-230 | Without exemptions a needless revert call is made on the way if and only if a pending event tells of another value of a protected key that was set |
| Drift.TwoOwnWritesRevertNeedlessly | src/protected_tags.py:187-230 | Two writes of the app in a row make such a call without any outside change |
| Drift.OwnRemovalIsRevertedExactly | src/protected_tags.py:187-230 | Without exemptions, and with settled events pending, removing tags leads to a revert if and only if a pending event is about a removed live protected key |
| Drift.SettingThenRemovingIsQuiet | src/protected_tags.py:187-230 | The two calls of an undo, setting some keys and removing others, are not reverted when their events are handled without exemptions |
| Drift.RemovalIsUndone | src/protected_tags.py:187-230 | A key removed by the app while an event about it is pending is learnt again and put back |
| Drift.BaselineProvenance | src/protected_tags.py:108-157 | An existing baseline entry changes only by a write of the app or an accepted exempt change; every new value was written or seen in that very step |
| Drift.BaselineOnlyGrows | src/protected_tags.py:136-157 | Over whole runs of scans, outside changes and non-exempt events the baseline only gains entries |
| DriftMonitors.ScanOnlyFillsGaps | src/protected_tags.py:136-157 | A scan keeps every baseline entry and gives a missing protected key the first value listed for it |
| DriftMonitors.DriftMonitor.SeedBaselines | src/protected_tags.py:136-157 | The scan loop leaves exactly those baselines, and touches nothing when drift handling is off |
| DriftMonitors.DriftMonitor.HandleTagChangeEvent | src/protected_tags.py:172-245 | Status, live tags and baseline are exactly those of the machine's step, and no other resource is touched; status, tags and baseline are also said key by key from the event, the mode and the baseline |
| DriftLaws.HandledMeans | src/protected_tags.py:183-233 | Key by key: only protected keys told of with another value or none than the baseline are put back, in revert mode, without an exemption and by a call that works; they are accepted under an exemption; protected keys without a baseline are learnt |
| DriftMonitors.DriftMonitor.JudgeAndAct | src/protected_tags.py:193-233 | A revert is one call for the resource alone with the baseline values of the drifted keys; an exempt change is accepted into the baseline |
| Exemptions.TwinsAppearExactly | src/governance/exemptions.py:81-92 | An event gives two active exemptions one meaning exactly when it creates one that is there with a field empty instead of absent |
| Exemptions.PlainScopesHaveNoTwins | src/governance/exemptions.py:61-114 | In every run of requests with absent or non-empty fields, revocations and passing time, active exemptions have pairwise distinct scopes |
| Exemptions.CoveredMeansDecided | src/governance/exemptions.py:123-158 | Then a resource is exempt exactly when an active exemption matches it: the conflict branch cannot be reached |
| Exemptions.EmptyFieldMakesTwins | src/governance/exemptions.py:81-92 | With an empty field the check is passed and the resource is not exempt at all |
| Exemptions.ExemptionManager.CreateExemption | src/governance/exemptions.py:61-105 | Refused exactly for an unsupported scope, an overlong reason, an unreadable expiry or an active exemption with the same scope, in that order; otherwise one active record is added |
| Exemptions.ExemptionManager.RevokeExemption | src/governance/exemptions.py:107-114 | The exemption is inactive afterwards and all others are as before; unknown ids are refused |
| Exemptions.ExemptionManager.IsExempt | src/governance/exemptions.py:123-158 | Returns the match of strictly highest rank; none exactly when there is no such match |
| ExemptionLaws.OneExempts | src/governance/exemptions.py:176-189 | One exemption of each of the five kinds exempts exactly the resources whose fields are the ones it gives |
| ExemptionLaws.MoreSpecificDecides | src/governance/exemptions.py:123-158 | Of two exemptions that cover a resource id decides before type with environment, type, account with environment and account, in whatever order they were made |
| ExemptionLaws.RefusedExactly | src/governance/exemptions.py:61-90 | A request is refused exactly for a scope that is none of the five kinds, a reason of more than 1000 characters or an unreadable expiry, or an active exemption with the same scope |
| ExemptionLaws.ExemptWhileActive | src/governance/exemptions.py:160-174 | An exemption once created holds up to and including its expiry, for ever without one, and no longer once revoked |
| Propagation.FindingsFor | src/propagation.py:337-355 | The loops report, in order, the findings the definition names |
| Propagation.FindingsMean | src/propagation.py:337-355 | A tag finding is reported exactly for each child with a missing or different value, with exactly those keys |
| PropagationLaws.FindingsSayWhatIsLacking | src/propagation.py:64-76 | A child has a finding exactly when it lacks an inherited tag, that is, a parent tag with a value whose key is not reserved, not excluded and allowed; the finding names exactly the missing and different ones, with both values |
| Propagation.FixPlan | src/propagation.py:460-473 | The targets and operations are those of all findings, later ones winning |
| PropagationLaws.LastFindingWins | src/propagation.py:460-473 | The targets give a key of a child what the last finding that says something of it says, different values only with overwrite |
| Propagation.OpsAreAllConfig | src/propagation.py:460-473 | Every configuration fix of every parent is passed on once and in order |
| Propagation.OverwriteConvergesExactly | src/propagation.py:460-473 | Writing the targets with overwrite leaves no tag finding if and only if relations that share a child agree |
| Propagation.KeepingFillsGaps | src/propagation.py:460-473 | Without overwrite no existing value changes and nothing stays missing |
| Propagation.KeepingLeavesMismatchesExactly | src/propagation.py:460-473 | Without overwrite exactly the old mismatches remain if and only if relations that share a child agree on the keys it lacks |
| Suggestions.SuggestionIndex.constructor | src/suggestions.py:74-88 | The nested counters equal direct counts of members and votes over all resources |
| Suggestions.EvidenceIsADirectScan | src/suggestions.py:90-104 | For an indexed resource the counts used equal direct counts over all other resources, they add up to the voters, and voters never exceed members |
| Suggestions.ScoresAreDirectScans | src/suggestions.py:90-113 | The score of every value equals the one computed by direct scans |
| Suggestions.CountsAddUp | src/suggestions.py:100-101 | The counts of all values add up to the number of voters |
| Suggestions.IndexedEvidenceIsPlausible | src/suggestions.py:90-113 | For every indexed resource no signal has more voters than members |
| Suggestions.SuggestionIndex.Score | src/suggestions.py:90-113 | Exactly the valid values with a vote of a counting signal are scored, each as defined, and together at most the available weight when no signal has more voters than members |
| Suggestions.Rank | src/suggestions.py:120 | At most `limit` distinct scored values, best first, and none left out scores more than one listed |
| Suggestions.SuggestionIndex.Suggest | src/suggestions.py:90-123 | The suggestions are the best scored values in order, each with the confidence that its score, the available weight and its support give |
| Suggestions.SuggestedValuesAreUsed | src/suggestions.py:90-123 | Every suggested value is valid, and some other resource of a group of this one has it for the key |
| Suggestions.ConfidenceIsAShare | src/suggestions.py:121-123 | A confidence is never negative, at most 0.99, and no more than the value's part of the available weight |
| SuggestionLaws.ShareInNumbers | src/suggestions.py:109-111 | The score a signal gives a value, as a fraction of whole numbers |
| SuggestionLaws.ShareGrows | src/suggestions.py:109-111 | More votes score more, larger groups with the same votes less, and a unanimous group scores the full weight |
| SuggestionLaws.MoreVotesScoreMore | src/suggestions.py:97-113 | A valid value with at least as many votes in every group scores at least as much, and more with more votes in one that counts |
| SuggestionLaws.UnanimousScores | src/suggestions.py:26 | What all other members of a group have scores 5 for a stack, 4 for a cluster, 3 for a name prefix and 1 for account and service |
| SuggestionLaws.SuggestedValuesObeyRules | src/suggestions.py:59-70 | A suggested value is one of the allowed ones, if there are any, and matches the pattern, if there is one |
| SuggestionLaws.VotedValuesAreSuggested | src/suggestions.py:97-120 | Every value that obeys its rule and has a vote is suggested unless the list is full |
| SuggestionLaws.BestFirst | src/suggestions.py:120 | Suggestions are distinct, within the limit and best score first, and no eligible value left out scores more than one listed |
| SuggestionLaws.ConfidenceGrows | src/suggestions.py:121-123 | More score and more support give more confidence, up to 0.99 |
| SuggestionLaws.SmallSamples | src/suggestions.py:121-123 | One vote halves the share of the evidence, three votes leave seven eighths of it |

## Left out

- StateStore.MemoryStateStore.Claim: `now` and `until` are two clock readings given by the caller, because adding the lease is the library's datetime arithmetic.
- Protocol.Reachable: the outcome of the tag mutation is any of its three results; `created_at`, `updated_at`, `claimed_at` and `last_attempt_at` are not part of the record, since no decision reads them.
- TerraformTags.RoundTrip: digits are ASCII, a bare key has no two slashes in a row, which the brace scanner takes for a comment, an expression has no slash or hash outside its strings, and white space or `=` stands between key and expression.
- TerraformTags.ReadsAsPieces: a value without quotes has no `//` note beside it; `//` notes with an open quote or bracket run on into what follows; for them there is the counterexample only.
- GovernanceEngine.Evaluate: lower-casing and regular expressions are uninterpreted functions of the schema; a schema key occurs once.
- Targets.ValidateTargets: targets are typed, so the checks that a target is an object and its tags a dictionary have no counterpart.
- PlanTokens.TokenSaysChangesExactly: the hash is taken to be injective, so the token is the hashed list itself.
- Batching.RunTagging: resources have distinct ARNs, as the merged targets do; a call that raises is one in which every resource fails, and is taken not to have applied.
- Batching.TagBatches: how account and region are read from an ARN is a parameter.
- ChangeSetTables.ChangeSetTable.Apply: operations on Auto Scaling groups and ECS services, error texts, actors, summaries, retention and the audit log; the id is the position in the table.
- ChangeSetTables.ChangeSetTable.Undo: operations other than tags, and two undos of one change set at the same time; reading the live tags and writing them is one step.
- UndoLaws.ApplyReachesPlannedTags: says which tags there are, not in which order the tagging API lists them afterwards.
- Drift.HandledEventsLeaveBaselineValues: events arrive in order and none is lost, and the baseline store does not fail; duplicated or reordered events are not modelled.
- DriftMonitors.DriftMonitor.HandleTagChangeEvent: the exemption lookup is a parameter; notifications, audit records and account and region of the event are left out.
- Exemptions.ExemptionManager.CreateExemption: parsing ISO 8601 texts is a parameter; ids are positions; two creations at the same time are not modelled.
- Propagation.OverwriteConvergesExactly: targets are written as they are, parents keep their tags, and relations come from discovery, which is not modelled.
- Suggestions.SuggestionIndex.Suggest: the order among equal scores, rounding and the reason text; scores are real numbers, and the grouping signals are an uninterpreted function of ARN and tags.
- RemediationEngine.RemediationEngine.ProcessSync: the tag mutation itself (src/tag_writer.py) is an oracle for its outcome, validation of the request and the exemption lookup are parameters, and clock readings plus one lease stay within the range of the datetime type.
- Worker.RunBatch: one received batch; polling, visibility time and the queue's own redelivery are left out, as a message that stays is delivered again in the protocol.
- Liveness: a crash on the last attempt leaves the record IN_PROGRESS for ever, and nothing fences a stale worker.
- DynamoDB's store is covered by the same conditions as the in-memory one in the protocol's steps; its expressions are not parsed.
- Web routes, MCP tools, token verification, cost and savings reports, metrics and the user interface are plumbing over libraries.
- Tallies, caches, leaderboards and the event extractors for tag-on-create would only add easy members.
