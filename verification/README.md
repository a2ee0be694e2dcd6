# A verified model of tetanus's stateful core

tetanus is an agent harness written in Rust. The parts of it modelled here share one shape:
a small amount of state, an explicit transition, and a claim about every run. Each part is
written as the source writes it (a class where the source updates fields, a loop where it
loops, a function where it computes), each method is proved against a specification
function, and the claims are proved about those functions for every input and every run.
`dafny verify dfyconfig.toml` checks the whole project.

## What is modelled

**Durable journals.** Schedules and jobs are each kept in a file that is only appended to,
one record a line, with the newline as the commit, and in a map that is the fold of it.
`Journal` models the file as bytes and the text of a record as a codec that writes no
newline inside a record (JSON, section 7 of RFC 8259, escapes it) and reads back what it
wrote. `Grid` is the recurrence arithmetic, walked one interval at a time and shown equal
to the store's one division. `Scheduling` and `ScheduleStep` are the fold and what each
call decides, and `ScheduleAnswers` says what a poll owes without them;
`ScheduleStore.Store` and `JobStore.Store` are the stores. `ScheduleRuns` and
`JobRuns` are whole runs: calls that return, and crashes that keep any prefix of the bytes
a call was writing, after which the file is opened again. Job runs also crash inside the
open itself. Clocks are arguments and may go backwards; the set of running schedules is
whatever the caller says.

**Settings.** `SettingsTree` and `SettingsEdit` have the document as a nested tree, as flat
dotted keys, and edits of both. `Schemas` is the gate, `Layers` the resolved cache over
four layers, `Watch` the debounce, `Reload` the tick that joins them, and `Environment` the
rule from variable names to keys.

**Composition.** `Registry` is the depth-first start order, `Boot` the calls made by a boot
that may fail half way and by a shutdown, `Effects` the nested scopes that unwind newest
first through panics.

**Spill.** `Utf8` is the syntax of text in section 4 of RFC 3629; `Spill` cuts a preview
out of it and decides whether a replacement is worth making.

**Concurrent steps.** `PromptSlots` has the ACP bridge's one prompt slot and one cancel
mark for each session, and `Sandboxes` the ownership of one remote sandbox. Every step is
what one lock covers, and the laws hold of every interleaving of steps.

`Wrappers`, `Ordering`, `Sequences`, `Decimal`, `Minting` and `DottedKeys` are the vocabulary
these parts share.

## Promises that hold only under a condition

The code keeps each of these less often than its documentation reads, and the model follows
the code. What is proved is the exact condition under which the promise holds.

- `Queue` is documented to hold one fire and let it go when the run ends. A poll that comes
  after the next occurrence releases the held fire and runs that occurrence in one answer,
  so two runs of one schedule start together (`QueueDoubles`, and a run of calls by a
  faithful caller in which it happens, `QueueDoublesReachably`). There are never more than
  two (`RunsAtOnce`).
- Deleting a schedule is documented to stop it. A one-shot whose only fire is held is
  already inactive, so the deletion answers `false`, writes nothing, and the held fire
  still goes out (`DeleteStops`, and a run in which it happens, `DeletedStillFires`).
- `finish` is documented to end a job. It accepts `queued` and `running` as the status, and
  then takes another end for the same job (`FinishIsFinal`, and a run in which it happens,
  `FinishTwice`). Only the law that a job is started and ended once at most (`JobLife`) is
  for callers that settle that job as ended; every other law of job runs is for all calls.
- Removing a key that is not there is documented as no error. It is refused when a leaf
  stands where one of the key's sections would be (`RemoveAbsent`, and a document that shows
  it, `RemoveRefused`).
- The comment on `ceiling` says rounding both cuts down keeps the preview inside the
  budget. Rounding the tail's cut down makes the tail longer, so the preview may overrun by
  up to three bytes (`HeadTailOverrun`, `HeadTailOverruns`), and a payload whose longest
  note fits the cap may be kept inline after all (`ApplyExactly`), also with the policy's
  own words (`KeptByThePolicy`).
- `EffectScope::forget` is documented to keep every effect. A nested scope it holds is
  dropped, and dropping a scope unwinds it (`ForgetRunsNothing`, `ForgetUndoesNested`).
- A job reported gone makes the runtime forget whatever sandbox it holds. That is the one
  the job ran in, over every interleaving, exactly when no sandbox is reported gone a second
  time while another is held (`GoneDropsItsOwn`, and a run that shows it,
  `GoneTwiceDropsALiveOne`).
- `session/load` overwrites the session's record, so one that arrives while a prompt runs
  frees the slot under it (`OpeningFreesTheSlot`, `OpeningDoubles`). The laws about
  interleavings are for clients that do not do this.

## Model

| member | source | states |
|---|---|---|
| Journal.ScanInto | crates/core/src/schedule.rs:622-653 | one pass over the bytes folds exactly the committed records and measures the last record boundary, or refuses the file by the number of the first committed line that is no record |
| Journal.RefusalMeaning | crates/core/src/schedule.rs:639-647 | a journal is refused exactly when some committed line is no record, and the line named is the first such |
| Journal.TruncateHolds | crates/core/src/schedule.rs:236-245 | whatever bytes an open accepts, truncating them to the measured boundary leaves a file that ends on a record boundary and holds the same records |
| Journal.CutRecovers | crates/core/src/schedule.rs:217-259 | an append cut at any byte recovers as the old records followed by exactly the new ones whose newline survived, and is truncated to just those bytes |
| Journal.AppendHolds | crates/core/src/schedule.rs:479-493 | records appended to a whole file decode to the old records followed by the new ones |
| Grid.NextDivides | crates/core/src/schedule.rs:520-528 | the store's one division reaches the instant that walking the grid an interval at a time reaches |
| Grid.LatestDivides | crates/core/src/schedule.rs:531-536 | the same for the latest instant not after the clock |
| Grid.NextIsLeast | crates/core/src/schedule.rs:520-528 | the next instant is on the grid, strictly after the clock, the least such, and at most one interval on once the grid has started |
| Grid.OnGridDivides | crates/core/src/schedule.rs:520-536 | walking meets just the anchor plus whole numbers of intervals |
| Grid.LatestIsGreatest | crates/core/src/schedule.rs:531-536 | the latest instant is on the grid, not after the clock and the greatest such, and there is none exactly when the whole grid lies after the clock |
| Grid.DivisionFits | crates/core/src/schedule.rs:520-528 | with the clock an interval below a ceiling and the anchor below it, no step of the arithmetic passes the ceiling |
| Minting.Mint | crates/core/src/schedule.rs:495-505 | the loop ends on the first counter whose name is free, within one more try than there are ids held |
| ScheduleStore.Store.Open | crates/core/src/schedule.rs:217-259 | an open truncates to the last record boundary and holds the fold of the records before it, or refuses by line number |
| ScheduleStore.Store.Append | crates/core/src/schedule.rs:479-493 | one line is written and memory stays the fold of the file |
| ScheduleStore.Store.Create | crates/core/src/schedule.rs:268-332 | the draft is refused for its first fault in the store's order and nothing is written; otherwise it is recorded under its own id or the first free one, with just its own fields, due at the instant it names or the first of its grid after the clock |
| ScheduleStore.Store.Delete | crates/core/src/schedule.rs:334-347 | an unknown id is refused, an inactive schedule answers false and nothing is written, an active one becomes inactive and holds nothing, all else about it and the others kept |
| ScheduleStore.Store.Poll | crates/core/src/schedule.rs:385-449 | of any store, the fires are every held one that is free and every due one, each decided as the policy says and for the instant owed, in the order owed; every schedule is left field by field as that says, and one record of each fire is written in that order |
| ScheduleAnswers.PollAnswers | crates/core/src/schedule.rs:385-449 | each fire is for the instant held, the instant a one-shot names, or the instant of the grid whose interval the clock falls in; free held fires come first by key, then what is due by instant and key, none missing |
| ScheduleAnswers.OccurrenceIsOwed | crates/core/src/schedule.rs:509-518 | a late fire of a recurrence is for a whole number of intervals after the anchor, at or before the clock and less than an interval before it |
| ScheduleAnswers.PollLeaves | crates/core/src/schedule.rs:539-613 | each schedule after a poll, field by field from the one before: counts, last dispatch, what is held, whether it is active, and the next instant of its grid |
| ScheduleAnswers.HeldIsStored | crates/core/src/schedule.rs:584-586 | what a held decision answers is the instant the schedule holds after the poll |
| ScheduleStore.Store.Due | crates/core/src/schedule.rs:351-360 | the filter of the schedules in key order, which `DueMeaning` reads |
| ScheduleStore.DueMeaning | crates/core/src/schedule.rs:351-360 | the read answers the schedule of every id that is active and not after the clock, once each and in key order |
| SchedulePoll.PollLegal | crates/core/src/schedule.rs:385-449 | every decision a poll records is lawful where it is recorded, and the fires answered are exactly those the records stand for |
| SchedulePoll.PollEffect | crates/core/src/schedule.rs:385-449 | a poll treats each schedule on its own: let go if held and free, then decided if due |
| SchedulePoll.PollSettles | crates/core/src/schedule.rs:385-449 | after a poll nothing is due at its clock, no free schedule holds a fire, and the same poll again answers and records nothing |
| ScheduleLaws.StepPast | crates/core/src/schedule.rs:539-613 | one lawful change delivers only an instant later than everything past, and that instant is past from then on |
| ScheduleRuns.StepRecovers | crates/core/src/schedule.rs:217-259 | after any call or crash the reopened file holds the old records and exactly those whose newline survived, and memory is their fold |
| ScheduleRuns.RunsLawful | crates/core/src/schedule.rs:197-259 | in every reachable state the file is whole, its records are lawful from nothing and everything handed out is past |
| ScheduleRuns.NeverTwice | crates/core/src/schedule.rs:385-449 | over every run of calls and crashes the instants handed out as run or released for one schedule rise strictly, so none is handed out twice |
| ScheduleRuns.GridNeverDrifts | crates/core/src/schedule.rs:596-609 | in every reachable state a recurrence is due at its anchor plus a whole number of intervals, the least such after its creation clock and every clock at which an occurrence was decided, at most one interval past the latest once the grid has started |
| ScheduleRuns.PollAgain | crates/core/src/schedule.rs:385-449 | after a poll that returned nothing is due at its clock, and repeating it changes neither the file nor what was handed out |
| ScheduleOverlap.Accounting | crates/core/src/schedule.rs:564-595 | in every reachable state dispatches are the runs plus the releases, and held fires are the released ones, plus the one held now, plus the one a deletion dropped |
| ScheduleOverlap.HandedOnce | crates/core/src/schedule.rs:385-449 | nothing is handed out that the journal does not count, and without a crash all it counts was handed out |
| ScheduleOverlap.PollTally | crates/core/src/schedule.rs:394-447 | how often one poll delivers one schedule: once for a free held fire and once for a due occurrence the policy lets run |
| ScheduleOverlap.QueueDoubles | crates/core/src/schedule.rs:394-447 | one poll delivers a schedule twice exactly when it holds a fire, is not reported running and is due |
| ScheduleOverlap.QueueDoublesReachably | crates/core/src/schedule.rs:394-447 | a run of calls on any sound codec, by a caller that reports its runs faithfully, after which one poll has two runs of one queueing schedule going |
| ScheduleOverlap.SkipKeepsOneRun | crates/core/src/schedule.rs:424-433 | under the skip policy a caller that reports its runs faithfully never has two runs of one schedule going, over any run with crashes |
| ScheduleOverlap.RunsAtOnce | crates/core/src/schedule.rs:394-447 | with a faithful caller there is never more than one run of a schedule that skips and never more than two of one that queues, over any run with crashes |
| ScheduleOverlap.DeleteStops | crates/core/src/schedule.rs:334-347 | no lawful continuation delivers a deleted schedule exactly when it was active or held nothing |
| ScheduleOverlap.DeletedStillFires | crates/core/src/schedule.rs:334-347 | a run of calls in which a deletion answers false, writes nothing, and the next poll delivers the schedule |
| JobStore.Store.Open | crates/core/src/jobs.rs:195-244 | an open truncates to the boundary and appends one end for every job left live; just those become interrupted, at its clock and with the reason, all else kept |
| JobStore.Store.Repair | crates/core/src/jobs.rs:251-274 | the loop appends one end for each live job in key order; just those become interrupted, with the reason, all else kept |
| JobStore.Store.Enqueue | crates/core/src/jobs.rs:281-309 | a bad kind or id or a duplicate is refused in the store's order and nothing is written; otherwise the job is queued with exactly the fields handed over, under the id given or the first free one |
| JobStore.Store.Begin | crates/core/src/jobs.rs:312-329 | only a queued job starts: it becomes running from the clock on and nothing else about it or the others changes |
| JobStore.Store.Settle | crates/core/src/jobs.rs:332-359 | a job that has ended is refused; any other takes the status and the clock, the detail and output when they are given and its own otherwise, and nothing else changes |
| Jobs.RepairCloses | crates/core/src/jobs.rs:251-274 | a repair is lawful, leaves nothing live, changes only the live jobs and those only to interrupted, and has nothing to do a second time |
| JobRuns.StepRecovers | crates/core/src/jobs.rs:195-244 | after any call, crash or open cut short the file reads as the old records and exactly those whose newline survived |
| JobRuns.RunsLawful | crates/core/src/jobs.rs:195-359 | in every reachable state, whatever statuses were asked for, the file reads as a lawful journal and is whole while it is open |
| JobRuns.JobStory | crates/core/src/jobs.rs:281-359 | over every run each job was queued once, nothing follows its end, every start found it queued, and it stands where its last record leaves it |
| JobRuns.JobLife | crates/core/src/jobs.rs:281-359 | when those who settle a job ask for an end it was queued once, started at most once and ended at most once, in that order, whatever is asked of other jobs |
| JobRuns.EndedForever | crates/core/src/jobs.rs:428-471 | a job that has ended is the same job after any further run of any calls |
| JobRuns.OpenCloses | crates/core/src/jobs.rs:195-274 | after an open nothing is live, jobs that had ended are unchanged, and a second open appends nothing |
| JobRuns.FinishIsFinal | crates/core/src/jobs.rs:332-359 | every later finish of the job is refused, over every run that may follow with its crashes and reopens, exactly when the accepted one asked for an end |
| JobRuns.FinishTwice | crates/core/src/jobs.rs:332-359 | a run in which a queued job is finished as running and then finished again |
| Registry.Walk.Visit | crates/core/src/registry.rs:74-105 | one visit colours and orders exactly as the depth-first rule says, or answers its error |
| Registry.StartOrder | crates/core/src/registry.rs:71-110 | the whole walk, every plugin in key order |
| Registry.VisitedSound | crates/core/src/registry.rs:74-105 | what is being visited stays a chain of dependencies, what is finished stays an order with dependencies first, and an error is true of the graph |
| Registry.OrderSound | crates/core/src/registry.rs:71-110 | there is an order exactly when every dependency is registered and none leads back to itself; it holds every plugin once after all it depends on, and otherwise a plugin really on a cycle or a dependency really absent is named |
| Boot.StartAll | crates/core/src/registry.rs:123-141 | with no failure every plugin starts in the order; otherwise the first failure is answered, everything up to it was asked to start and exactly what started before it to stop, once each and the stops last; no start before and no stop after what the plugin depends on |
| Boot.StopAll | crates/core/src/registry.rs:148-152 | every plugin is stopped in the reverse of the order, and just the stops that failed are answered, in that order |
| Boot.StopEach | crates/core/src/registry.rs:154-166 | every name is stopped whatever the others answer, and the faults are just those of the stops that failed, in the order of the names |
| Boot.RollbackCalls | crates/core/src/registry.rs:123-141 | when a plugin is the first to fail the boot calls start for everything up to it and stop for what started before it, each once, and answers that plugin's fault |
| Boot.RollbackOrder | crates/core/src/registry.rs:123-141 | whether it fails or not a boot starts every plugin after all it depends on and stops it before all it depends on |
| Boot.ShutdownMirrorsBoot | crates/core/src/registry.rs:123-152 | a shutdown stops in the exact reverse of a successful start, each plugin before all it depends on |
| Effects.EffectScope.Unwind | crates/core/src/effects.rs:92-100 | every undo at every depth runs once in the exact reverse of the order all were registered in, whichever panic; the faults are the messages of just the directly held undos that panic, newest first; the scope is left empty |
| Effects.Drop | crates/core/src/effects.rs:34-40 | letting go of a handle runs its undo, or unwinds the scope it stands for and absorbs that scope's faults |
| Effects.EffectScope.Forget | crates/core/src/effects.rs:103-107 | directly held undos are let go without running and nested scopes unwind |
| Effects.NestingIsInvisible | crates/core/src/effects.rs:112-119 | collapsing part of a scope into one handle changes nothing of what runs or when |
| Effects.RegisteredFlat | crates/core/src/effects.rs:65-73 | undos held directly are registered in the order they were kept, each under its own name |
| Effects.NothingLostOrRepeated | crates/core/src/effects.rs:71-100 | over any life of keeping and unwinding, what ran and what is held are together all that was ever kept |
| Effects.DroppedRunsAll | crates/core/src/effects.rs:122-128 | letting go of a scope after any life leaves each undo run exactly as often as it was kept, and unwinding again runs nothing |
| Effects.ForgetRunsNothing | crates/core/src/effects.rs:103-107 | forgetting runs nothing exactly when no nested handle in the scope holds an undo |
| Effects.ForgetUndoesNested | crates/core/src/effects.rs:103-107 | a scope on which forgetting runs an undo |
| SettingsTree.FlattenInto | crates/config/src/file.rs:101-112 | flattening into a document adds exactly the value's own keys over what is there |
| SettingsTree.Parse | crates/config/src/file.rs:84-94 | the sections of the root are flattened one after the other |
| SettingsTree.DocSpells | crates/config/src/file.rs:101-112 | for names a dotted key can spell, the flat document holds exactly the tree's leaves, each under the key its path spells |
| DottedKeys.SegmentsJoin | crates/config/src/write.rs:143-146 | a path survives being joined with dots and cut again |
| DottedKeys.UnderIsPrefix | crates/config/src/schema.rs:175-180 | one key lies under another exactly when its path goes on from the other's |
| SettingsEdit.Update | crates/config/src/write.rs:77-86 | the loop applies the edits in order, none when any is refused, and answers the flat document of the result |
| SettingsEdit.EditedMeans | crates/config/src/write.rs:142-183 | an edit changes the leaves at and under its path and no other, and is refused exactly when a leaf stands at a proper prefix of the path |
| SettingsEdit.EditCommutes | crates/config/src/write.rs:142-183 | editing the tree and flattening is flattening and editing the flat form: refused alike, and otherwise the old document without the key and all under it, with the new value's leaves in place |
| SettingsEdit.EditsCommute | crates/config/src/write.rs:77-86 | the same for a list of edits, refused as a whole |
| SettingsEdit.RefusalNames | crates/config/src/write.rs:142-176 | a refusal names the section in the way, a proper prefix of the path that holds a value, and a key of no names is refused as such |
| SettingsEdit.RemoveAbsent | crates/config/src/write.rs:160-183 | removing a key that is not there is refused exactly when a leaf stands where one of its sections would be, and otherwise changes nothing |
| SettingsEdit.RemoveRefused | crates/config/src/write.rs:160-183 | a document without the key from which removing the key is refused |
| Schemas.Accept | crates/config/src/schema.rs:234-247 | a document is answered as it is exactly when it conforms, and otherwise every fault is carried, the first apart |
| Schemas.FaultsMeaning | crates/config/src/schema.rs:202-226 | exactly these are reported: a value where a section is declared, and otherwise a declared key whose value is not of its kind |
| Schemas.AcceptsExactly | crates/config/src/schema.rs:79-93 | which values each kind takes; a whole kind takes every number that is whole, however it was written |
| Schemas.FaultlessConforms | crates/config/src/schema.rs:202-226 | no fault is reported exactly when no value stands at a section and every declared key holds its kind |
| Schemas.FaultsInOrder | crates/config/src/schema.rs:202-226 | each key is at fault once and the faults come in key order |
| Schemas.DeclaredIsWritable | crates/config/src/schema.rs:175-180 | a document the schema accepts can be edited at every declared key |
| Schemas.SetStaysAccepted | crates/config/src/schema.rs:202-226 | setting a leaf in an accepted document leaves it accepted exactly when the new leaf is no fault of its own |
| Layers.WinnerIsHighest | crates/config/src/lib.rs:153-168 | the answer for a key is the value and name of a layer that holds it and that no holder outranks, and none exactly when nothing holds it |
| Layers.Config.Set | crates/config/src/lib.rs:121-127 | one key of one layer changes and the cache still agrees with the layers at every key |
| Layers.Config.Load | crates/config/src/lib.rs:134-142 | a layer is replaced and the cache still agrees at every key, also those the layer no longer holds |
| Watch.Watcher.Observe | crates/config/src/watch.rs:134-164 | an observation is answered exactly when it differs from what was last reported and has now been seen the quiet count of times running |
| Watch.TrailingRun | crates/config/src/watch.rs:134-164 | what the history predicate counts is the longest run of equal observations at the end |
| Watch.ReportsDiffer | crates/config/src/watch.rs:134-164 | over every history each report differs from the one before it and the first from the baseline |
| Reload.SettledIsReported | crates/config/src/watch.rs:134-164 | a state seen the quiet count of times running, or more, is the one last reported |
| Reload.Recompose | crates/config/src/recompose.rs:45-73 | a document that cannot be read leaves every layer and resolved key alone; any other becomes the file layer, and the keys named are exactly those whose value or owning layer differ, in order and once each |
| Reload.Reloader.Observe | crates/config/src/reload.rs:110-135 | nothing happens unless the document has settled anew; an absent one empties the file layer, one that passes the schema becomes it, and one that cannot be read or does not pass is refused with its faults and changes nothing |
| Reload.FileIsLastApplied | crates/config/src/reload.rs:100-135 | over any run of ticks the file layer is the document of the last applied one, or what the run began with, and no other layer moves |
| Reload.SettledIsInForce | crates/config/src/reload.rs:100-135 | however many bad edits came before, once the document has been still for the quiet count what it holds is in force if it is usable |
| Environment.NamesItsKey | crates/config/src/env.rs:66-82 | the name made for a path of ASCII names in lower case names that path's dotted key |
| Environment.NamedByOnePath | crates/config/src/env.rs:66-82 | every ASCII name in upper case and without dots that is accepted is made so from a path, and from one only |
| Environment.FromVars | crates/config/src/env.rs:50-87 | the last variable naming a key sets it, to its JSON reading or else its text, and no key is set that no variable names |
| Utf8.EncodeStartsWell | crates/core/src/spill.rs:276-298 | every character's encoding is text of the width its first byte says |
| Utf8.StartsWellEncodes | crates/core/src/spill.rs:276-298 | all that the syntax takes as one character encodes one |
| Utf8.CutIsText | crates/core/src/spill.rs:292-298 | text cut at a boundary is two texts |
| Utf8.FloorIsNear | crates/core/src/spill.rs:292-298 | a cut moves down by three bytes at most |
| Spill.FloorAt | crates/core/src/spill.rs:292-298 | the loop ends on the largest boundary at or below the place asked for, or below the end of the text |
| Spill.HeadTailIsText | crates/core/src/spill.rs:276-289 | what is left is text: all of a text within the budget, and of any other the front up to half the budget and the back from the other half on, each cut at the nearest boundary before |
| Spill.AsciiEnds | crates/core/src/spill.rs:276-289 | text of one byte to a character is cut at just those two places |
| Spill.NoticeTells | crates/core/src/spill.rs:267-273 | a note tells the count and names the locator |
| Spill.HeadTailOverrun | crates/core/src/spill.rs:276-289 | the budget is overrun by three bytes at most, and at all exactly when the tail's cut moves further than the head's |
| Spill.HeadTailOverruns | crates/core/src/spill.rs:300-304 | text of four-byte characters keeps four bytes against a budget of three |
| Spill.ReplacementFits | crates/core/src/spill.rs:228-263 | a replacement is made only for a saved payload over the cap, is text, fits the cap, is smaller than the payload, and is the two ends there is room for beside the longest note, a blank line, and a note that counts the rest |
| Spill.ApplyExactly | crates/core/src/spill.rs:228-263 | a saved payload over the cap is replaced exactly when the longest note fits and, with room for a preview, the bytes the tail's cut wins over the head's are no more than the digits by which the count of what lies between the cuts is shorter than that of the whole |
| Spill.KeptThoughNoteFits | crates/core/src/spill.rs:249-263 | such text is kept inline although the longest note leaves room for a preview, when no digit is won back |
| Spill.KeptByThePolicy | crates/core/src/spill.rs:249-273 | with the policy's own words a hundred characters of four bytes are kept inline though the longest note leaves room for a preview |
| Spill.ApplyAscii | crates/core/src/spill.rs:228-263 | for text of one byte to a character, replaced exactly when over the cap, saved and the longest note fits |
| PromptSlots.Bridge.Claim | crates/acp/src/bridge.rs:449-467 | an unknown session and a taken slot are refused, otherwise the slot is taken with no mark on it |
| PromptSlots.Bridge.Cancel | crates/acp/src/bridge.rs:134-154 | a known session is marked and an unknown one left alone |
| PromptSlots.Bridge.Settle | crates/acp/src/bridge.rs:360-401 | the slot is given back and the mark read and cleared at once; a mark outranks the engine's answer, which otherwise is what is told, an interruption as cancelled |
| PromptSlots.Bridge.Load | crates/acp/src/bridge.rs:282-336 | the page loop ends and sends the journal from its start, all of it when pages advance, and registers the session only when the replay did not fail |
| PromptSlots.OneAtATime | crates/acp/src/bridge.rs:449-467 | in every interleaving each session has at most one prompt between claim and settlement, and its slot is taken exactly then |
| PromptSlots.CancelledWhenAsked | crates/acp/src/bridge.rs:360-401 | a prompt is told cancelled exactly when a cancellation arrived after its own claim, otherwise the engine's answer, and no mark is left for the next |
| PromptSlots.OpeningFreesTheSlot | crates/acp/src/bridge.rs:326-335 | a claim after a session is opened again keeps the slot exclusive exactly when no prompt of it was running |
| PromptSlots.OpeningDoubles | crates/acp/src/bridge.rs:326-335 | a lawful history after which opening the session again lets two prompts run in it |
| Sandboxes.RemoteRuntime.Sandbox | crates/coderuntime/src/remote.rs:199-231 | the one held is answered, a closed runtime creates none, and one whose set-up failed is killed and not held |
| Sandboxes.RemoteRuntime.Shutdown | crates/coderuntime/src/remote.rs:276-290 | the runtime is closed and the one held is killed |
| Sandboxes.RemoteRuntime.Forget | crates/coderuntime/src/remote.rs:362-367 | whatever is held is let go |
| Sandboxes.EverySandboxAccounted | crates/coderuntime/src/remote.rs:199-290 | in every interleaving each sandbox ever created has exactly one fate, and at most one is held |
| Sandboxes.UnpreparedFate | crates/coderuntime/src/remote.rs:215-228 | in every interleaving a sandbox whose set-up failed is never held and never given to a run, and its fate is what the rollback came to |
| Sandboxes.PreparedFate | crates/coderuntime/src/remote.rs:199-367 | a prepared sandbox is held until the first report or shutdown after it, and that decides its fate: lost as gone, ended, or not killed at shutdown |
| Sandboxes.GivenWasPrepared | crates/coderuntime/src/remote.rs:199-231 | what is held or was given to a run was prepared by a run that found nothing held |
| Sandboxes.FateWasMade | crates/coderuntime/src/remote.rs:199-231 | every sandbox with a fate was made by a run that found nothing held |
| Sandboxes.ClosedWhenShut | crates/coderuntime/src/remote.rs:276-290 | the runtime is closed exactly when a shutdown has taken the lock |
| Sandboxes.FatesAreFinal | crates/coderuntime/src/remote.rs:199-367 | a fate once settled never changes |
| Sandboxes.ClosedForGood | crates/coderuntime/src/remote.rs:276-290 | nothing is created and nothing is held once a shutdown has taken the lock |
| Sandboxes.GoneDropsItsOwn | crates/coderuntime/src/remote.rs:318-328 | in every interleaving each report of a job gone drops the sandbox the job was in, or nothing, exactly when no sandbox is reported a second time while another is held |
| Sandboxes.OnceIsEnough | crates/coderuntime/src/remote.rs:318-367 | when each sandbox is reported gone at most once, every sandbox let go of was itself reported gone |
| Sandboxes.GoneTwiceDropsALiveOne | crates/coderuntime/src/remote.rs:318-328 | a run in which a sandbox reported twice takes with it one nobody reported |

## Left out

- ScheduleStore.Store.Append: models a write as whole; a write that fails half way with the store still in use leaves a piece of a line the code does not repair, and a failed write is not modelled as an answer. A crash in the middle of a write is modelled, by `ScheduleRuns`.
- JobStore.Store.Append: the same.
- JobRuns.JobLife: is for jobs that are only ever settled as ended. For any calls `JobStory` says what holds.
- ScheduleStore.Store.Open: opens the bytes of a file; making the directory, and a path that cannot be read, are not modelled.
- JobStore.Store.Enqueue: takes the clock as an argument, as every job call does; the code reads it once in each call.
- Grid.DivisionFits: the store counts in 64 bits and the model in unbounded numbers; this lemma says when the two are the same.
- Scheduling.Rule: a recurrence in a journal is taken to have an interval above zero. `create` refuses shorter ones, and a record written by hand with interval zero would divide by zero in the code.
- ScheduleRuns.Runs: starts from an empty file, so every record on it was written by the store. A file with records of another origin is covered by `Store.Open` and the laws of `Journal` only.
- `next_wake`, `get`, `list`, `active` and `live` of the two stores: single filters of the map.
- SettingsEdit.Update: walks the tree by recursion on values where the code moves a mutable cursor down it in place; reading, rendering and publishing the file are not modelled.
- SettingsEdit.EditCommutes: for trees whose names are not empty and hold no dot. Other names make two paths spell one key.
- SettingsTree.Parse: the root is a map already; a root that is not one, text that does not parse and unknown extensions are one `Unusable` content in `Reload`.
- Schemas.Accept: numbers are real, so a number too large to be told whole or not is not modelled; message texts and descriptions, secrecy of fields and `sections_up_to` are left out.
- Watch.Watcher.SettleAfter: is called before the first observation, as a builder.
- Reload.Reloader.Observe: one tick reads one content; the code reads the file twice in one tick when there is a schema.
- Reload.SettledIsInForce: for documents whose content is a matter of their stamp.
- Environment.NamedByOnePath: for names in ASCII. What lower case is outside ASCII is a parameter of the rule, as is the JSON reader of values.
- Registry.StartOrder: registering a plugin, and the refusal of a second one with the same id, are left out; so is the branch of the walk for an id that is not registered, which its callers have already excluded.
- Boot.StartAll: what a start or stop answers is a function of the plugin; the context handed to each start is left out.
- Effects.EffectScope.Unwind: a panic is an answer of the undo that `catch_unwind` would have caught; undos that touch the scope they are in are not modelled.
- Spill.Apply: the store's answer is an argument; naming, opening and streaming an artifact are left out, as is `segment`.
- PromptSlots.OneAtATime: there is no shutdown step, and sessions are opened again only while idle.
- PromptSlots.Bridge.Load: takes events as they are, not the updates made of them, and an engine whose pages are stretches of its journal; the checks on the workspace are left out.
- Sandboxes.EverySandboxAccounted: the provider names no two sandboxes alike. Submitting, polling, cancelling and fetching a job, and the time limits on them, are left out.
- Permission questions of the ACP bridge, requests and notifications, timeouts and futures that are dropped.
- `scoped.rs`, the command line, rendering, the HTTP bridge, process spawning and everything under `web`: plumbing or easy members.
