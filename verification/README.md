# Verified models of the engine's protocols, lowering passes and parsers

This project models the parts of the Bobcat engine that are algorithms of their own, and proves what they promise: the concurrency protocols between its threads, the lowering of decoded stylesheets, its lazily cleaned timer index, the image pipeline's bookkeeping, and its hand-written parsers.

`dafny verify dfyconfig.toml` checks everything. The modules:

- `Alarm`, `AlarmTraces`: the thread that owns a heap of deadlines, and the sleeps that register, are polled again and are dropped, as interleaved atomic steps.
- `FragmentGraph`, `Selectors`, `StyleLowering`, `SheetLowering`, `SelectorText`: the order of imported style fragments, who imports whom, and the rewrite that scopes selectors by `:where([l-css-id="N"])` without changing what they match (`:where()` has zero specificity, section 17 of Selectors Level 4).
- `ScrollMailbox`, `ViewLink`, `FrameFence`: the coalescing mailbox between painter and main, and the counted FIFO with the frame fence around it.
- `Timers`, `TimerDelays`: the timer schedule of a realm, a heap with stale entries behind a plain map, and the nesting clamp (timer initialization steps, section 8.6 of the HTML Standard).
- `Images`, `ImageReports`: requests, jobs, completions and reports of the image pipeline.
- `InstallHold`, `InstallAnswers`: background installs of containers and the loads that wait for them.
- `Jobs`: the job queue of an engine thread.
- `Mime`, `MimeSegments`: media types (sections 4.4 and 4.5 of the WHATWG MIME Sniffing Standard).
- `LynxXml`, `LynxXmlGrammar`, `LynxXmlText`, `Texts`: the parser of Lynx XML, its grammar, and the same grammar spelled out.
- `ZipDirectory`, `ZipWritten`, `ZipExtraction`: the check of a ZIP package's central directory (sections 4.3.12 and 4.3.16 of PKWARE APPNOTE.TXT), and extraction under a size limit.
- `DataUrl`: forgiving base64 (WHATWG Infra Standard) and percent decoding.
- `JpegHeader`: the walk to a JPEG's frame header (Annex B.1.1 and B.2.2 of ITU-T T.81).
- `Options`, `Bytes`: shared types.

Code that runs on one thread and changes things in place is a class or a method with loops, tied to a function of the old state; the theorems are lemmas about that function. Code whose point is what several threads may do at once is a transition system: a state, the atomic steps, and lemmas about every state of every run.

Where the code and what is said of it part, the model follows the code:

- An id that the timer counter hands out again after 2^32 others, over its own leftover heap entry, lets one repeating timer be reported twice in a batch. `Timers.TimerSchedule.TakeDue` states exactly when a batch is right, and `Timers.ReuseIsReached` gets there from a new schedule by arming, clearing and taking alone.
- The end of a view acknowledges frames without their fences. `ViewLink.FenceBrokenOnlyByEnd` says of every run exactly when an acknowledged frame lacks commands: when the view ended while main held a frame fenced behind a command that had not run. `ViewLink.EndAcknowledgesUnapplied` is such a run.
- A load waits for the first of several overlapping installs only. `InstallHold.OneCoverIsNeverOvertaken` holds where one covering hold stands at the look-up, `InstallHold.NoLoadOvertakesItsInstall` names exactly the installs it can overtake, and `InstallHold.OverlapOvertakes` is a run in which it does.
- A segment whose last byte is 0xff lends it to the next JPEG marker. `JpegHeader.ReadsExactlyTheGrammar` has the rule, `JpegHeader.LentPrefixIsRead` an instance.
- A subject that is nothing but a pseudo-element leaves its scope guard on the compound before it; `StyleLowering.GuardStandsOnSubject` says when, and `StyleLowering.OffSubjectGuardLetsOthersIn` that the rule can then apply to an element with no mark.
- With a refinement ratio of one, which the configuration allows, an image drawn at the size it was decoded for is decoded again on every read; `Images.RefinementSettles` says when it is left alone.

## Model

| member | source | states |
|---|---|---|
| Alarm.NoLostWakeup | crates/bobcat-core/src/alarm.rs:277-309 | In every interleaving, a sleep whose last poll returned Pending either has its slot armed, holding that poll's waker and in exactly one of the arrivals, the heap and the alarm thread's hand, or its slot fired and exactly that waker is being woken or was. |
| Alarm.DroppedIsNeverWoken | crates/bobcat-core/src/alarm.rs:311-325 | A slot cancelled by a drop stays cancelled in every later state and is neither woken nor about to be. |
| Alarm.DroppedHoldsNoTask | crates/bobcat-core/src/alarm.rs:312-330 | Once the drop of a cancelled wait has returned, its slot holds no waker. |
| Alarm.ArmedIsHeld | crates/bobcat-core/src/alarm.rs:311-325 | A slot that is still armed belongs to a sleep that stands behind it and has not been dropped, so no live heap entry outlives its future. |
| Alarm.AnsweredOnceAndNotEarly | crates/bobcat-core/src/alarm.rs:65-75 | Each slot is woken at most once, never at a reading of the alarm thread's clock before its deadline, and every fired slot was woken or is being woken. |
| Alarm.PassFiresWhatIsDue | crates/bobcat-core/src/alarm.rs:211-223 | Once a pass stops peeking, every armed slot it had collected has a deadline after the reading of that pass. |
| Alarm.ParkCoversEveryWait | crates/bobcat-core/src/alarm.rs:225-228 | While the alarm thread is parked, an unpark is stored or about to be made, or every armed slot is in the heap and the park ends by its deadline. |
| Alarm.CounterNeverWraps | crates/bobcat-core/src/alarm.rs:240-247 | The subtraction after a sweep never takes the cancellation counter below zero. |
| Alarm.AlarmThreadMoves | crates/bobcat-core/src/alarm.rs:208-230 | Whatever the sleeps do, the alarm thread always has a next step: a peeked entry is there to pop, and a non-empty heap has an earliest one. |
| Alarm.SweepDroppedKeeps | crates/bobcat-core/src/alarm.rs:245 | Dropping an entry whose slot is not armed keeps every promise to every sleep. |
| Alarm.ReplaceKeeps | crates/bobcat-core/src/alarm.rs:288-295 | Storing a new waker in a slot that may already have fired keeps every promise. |
| Alarm.ClaimLostKeeps | crates/bobcat-core/src/alarm.rs:69-75 | The compare-and-swap of a fire can lose only to a cancellation. |
| Alarm.TakeWakerKeeps | crates/bobcat-core/src/alarm.rs:69-75 | A claimed slot still holds a waker, so every won claim wakes somebody. |
| Alarm.SettledStays | crates/bobcat-core/src/alarm.rs:43-50 | Over whole runs, fired stays fired and cancelled stays cancelled. |
| AlarmTraces.ReadyMeansDue | crates/bobcat-core/src/alarm.rs:267-309 | A poll answers Ready only on its own reading of a clock at or past its deadline, or because the alarm thread claimed its armed slot on such a reading of its own. |
| AlarmTraces.PollAnswersItsReadings | crates/bobcat-core/src/alarm.rs:277-309 | A poll answers Ready exactly when one of its readings found its clock at the deadline or its slot fired, and Pending for its own waker exactly when none did. |
| AlarmTraces.CounterIsConserved | crates/bobcat-core/src/alarm.rs:240-247 | Over every run, the cancellations noted are what the counter holds and what the sweeps took off it. |
| AlarmTraces.SweepsWhatIsMostlyDead | crates/bobcat-core/src/alarm.rs:241-244 | A pass sweeps exactly when more cancellations are counted than half of the heap holds, and then looks at all of it. |
| AlarmTraces.SweepDropsTheDead | crates/bobcat-core/src/alarm.rs:245 | A sweep keeps an entry only because it found its slot armed, and drops one only because it found it was not. |
| FragmentGraph.FragmentOrder | crates/bobcat-source/src/lower_style.rs:100-127 | The loop returns a front picked smallest-ready-first, each fragment after all its live imports, and behind it the fragments nothing could release, ascending. |
| FragmentGraph.FirstUnblocked | crates/bobcat-source/src/lower_style.rs:113-117 | The search finds the least id that is neither emitted nor waiting, or there is none. |
| FragmentGraph.OrderIsPermutation | crates/bobcat-source/src/lower_style.rs:100-127 | The order holds every fragment exactly once and nothing else. |
| FragmentGraph.TailReachesCycle | crates/bobcat-source/src/lower_style.rs:96-98 | The fragments put last are exactly those from which an import cycle can be reached. |
| FragmentGraph.ImportsPrecede | crates/bobcat-source/src/lower_style.rs:92-94 | A fragment that cannot reach a cycle comes after every fragment it imports. |
| FragmentGraph.CyclesComeLast | crates/bobcat-source/src/lower_style.rs:96-99 | Fragments that can reach a cycle come after all that cannot, in ascending order. |
| FragmentGraph.OrderUnique | crates/bobcat-source/src/lower_style.rs:92-95 | Two orders that meet the rule are equal: the order depends on the import graph alone. |
| FragmentGraph.Reachable | crates/bobcat-source/src/lower_style.rs:186-192 | The worklist collects exactly what the root reaches through live imports. |
| FragmentGraph.ImportedBy | crates/bobcat-source/src/lower_style.rs:136-149 | Each fragment is mapped to exactly the fragments from which it is reached by zero or more live imports, cycles included. |
| FragmentGraph.SectionOrder | crates/bobcat-source/src/lower_style.rs:182-198 | A section's fragments are the whole order restricted to what the root reaches. |
| FragmentGraph.SectionHoldsReached | crates/bobcat-source/src/lower_style.rs:182-198 | A section holds exactly the fragments its root reaches, once each. |
| FragmentGraph.SectionImportsPrecede | crates/bobcat-source/src/lower_style.rs:182-198 | In the section of a root, every fragment it reaches that reaches no cycle comes after all it imports. |
| Selectors.InsertShrinks | crates/bobcat-source/src/lower_style.rs:151-158 | One more simple selector in any compound of any combinator chain matches a subset of the elements. |
| Selectors.InsertTestsSubject | crates/bobcat-source/src/lower_style.rs:291-303 | Inserted with no combinator behind it, a simple selector is one more test of the matched element itself. |
| StyleLowering.ScopedSelectorText | crates/bobcat-source/src/lower_style.rs:247-289 | The loops write the text of the scoped selector list, each selector's copies together in scope order, and nothing for no selectors. |
| StyleLowering.GuardedCopyIsRedundant | crates/bobcat-source/src/lower_style.rs:155-161 | A guarded copy beside the unguarded selector changes neither the match nor the winning specificity. |
| StyleLowering.ScopingPreservesMeaning | crates/bobcat-source/src/lower_style.rs:151-175 | For all selectors, importers and elements, the emitted list has the same winning specificity on each element as the full list of unguarded and guarded copies. |
| StyleLowering.GuardStandsOnSubject | crates/bobcat-source/src/lower_style.rs:291-320 | The guard tests the matched element exactly when its compound has content or there is no combinator. |
| StyleLowering.LonePseudoElementIsNotGuarded | crates/bobcat-source/src/lower_style.rs:295-297 | The known quirk: behind a combinator, a subject that is only a pseudo-element leaves the guard on the compound before it. |
| StyleLowering.OffSubjectGuardLetsOthersIn | crates/bobcat-source/src/lower_style.rs:291-320 | The converse: for every selector without a guard of its own whose guard is put off the subject there are a document and a reading of its components in which the scoped selector matches an element that carries no mark. |
| StyleLowering.GuardsDiffer | crates/bobcat-source/src/lower_style.rs:162-175 | Two fragments never share a guard: its text determines the number. |
| StyleLowering.ScopedRuleMeaning | crates/bobcat-source/src/lower_style.rs:151-175 | Where guards test the matched element, a rule scoped to importers other than 0 applies exactly to the elements marked with one of them, as the unscoped rule would. |
| SheetLowering.ToPreparsedStyleSheet | crates/bobcat-source/src/lower_style.rs:75-91 | The rules returned are, by index, every rule with selectors once, lowered with its fragment's scopes, fragments in fragment order and rules of a fragment in file order. |
| SheetLowering.ImportedRulesComeFirst | crates/bobcat-source/src/lower_style.rs:92-99 | In such a sheet, for an import that reaches no cycle, every rule that comes from the imported fragment stands before every rule that comes from its importer. |
| SheetLowering.PreparedIsSheet | crates/bobcat-source/src/lower_style.rs:75-91 | What the loops emit is such a sheet. |
| SheetLowering.SheetIsDetermined | crates/bobcat-source/src/lower_style.rs:92-95 | A bundle has exactly one such sheet. |
| SheetLowering.ConvertRules | crates/bobcat-source/src/lower_style.rs:210-237 | The rules of a sheet lower in order, those without a selector list dropped. |
| SelectorText.ScopedTextReadsBack | crates/bobcat-source/src/lower_style.rs:247-289 | For selectors of plain names, the text of a scoped rule read as CSS gives back the scoped selector list, guards and commas included. |
| SelectorText.ListReads | crates/bobcat-source/src/lower_style.rs:239-275 | A selector list's text reads back as exactly the list: every kind of component has its own punctuation. |
| ScrollMailbox.Mailbox.Post | crates/bobcat-core/src/link.rs:439-464 | The contents become the old ones with the pass merged in, and a marker is to be sent exactly when nothing had been posted since the last take. |
| ScrollMailbox.Mailbox.Take | crates/bobcat-core/src/link.rs:470-476 | A take yields, per container, the last entry posted since the take before it with the last present rest among its posts, and the fold of the frame posts. |
| ScrollMailbox.CoalescedIsLatest | crates/bobcat-core/src/link.rs:439-464 | Merging entries one by one leaves, per container, the last one with the last present rest. |
| ScrollMailbox.FramesCovered | crates/bobcat-core/src/link.rs:403-416 | The merged frame post covers the sequence and the fence of every post, and carries the newest clock. |
| ScrollMailbox.FramesAttained | crates/bobcat-core/src/link.rs:403-416 | The merged sequence and the merged fence are each some post's own. |
| ViewLink.AcknowledgedImpliesApplied | crates/bobcat-core/src/link.rs:386-401 | Until the view ends, an acknowledged frame implies that main ran, in order, every counted command sent before any post with a sequence up to it. |
| ViewLink.AppliedPlusQueuedIsSent | crates/bobcat-core/src/link.rs:496-531 | Between bursts, what was applied and the counted messages still queued are exactly what was sent. |
| ViewLink.DrainedLeavesNothingHeld | crates/bobcat-core/src/link.rs:386-401 | Once the FIFO is drained the mailbox is empty, no frame waits for its fence, and every post is done. |
| ViewLink.AtMostOneMarker | crates/bobcat-core/src/link.rs:416-464 | At most one marker is under way, and one is sent or owed whenever the mailbox holds anything. |
| ViewLink.EndBreaksFenceIff | crates/bobcat-core/src/main/page.rs:1146-1156 | Ending a view acknowledges a post ahead of its fence exactly when main holds a frame fenced behind a command that has not run. |
| ViewLink.EndedFenceBrokenIff | crates/bobcat-core/src/main/page.rs:1146-1156 | However an ended view's run goes on, whether an acknowledged frame lacks commands was settled by what main held as it ended. |
| ViewLink.FenceBrokenOnlyByEnd | crates/bobcat-core/src/main/page.rs:616-632 | Over every run, open or ended, some acknowledged post is fenced behind a command that never ran if and only if the view ended while main held such a frame. |
| ViewLink.EndAcknowledgesUnapplied | crates/bobcat-core/src/main/page.rs:1146-1156 | A concrete run in which the end of a view acknowledges a post behind a command that never ran. |
| FrameFence.AcknowledgedFrameHasItsCommands | crates/bobcat-core/src/link.rs:496-546 | Until the view ends, once a frame is acknowledged main has run, in order, every command the embedder sent before it asked for that frame. |
| FrameFence.DrainedFramesAreDone | crates/bobcat-core/src/link.rs:496-531 | Once the FIFO has drained, every frame asked for is acknowledged or about to be, with its commands run. |
| FrameFence.MissingCommandsMeanTheEnd | crates/bobcat-core/src/main/page.rs:1146-1156 | Even over the end of a view, an acknowledged frame lacks a command only if the view ended while main held a frame whose fence had not been reached. |
| Timers.TimerSchedule.AllocateId | crates/bobcat-core/src/timers.rs:211-223 | While an id is free the search ends with one that is not armed and not 0, and every id it passed over is armed. |
| Timers.TimerSchedule.Arm | crates/bobcat-core/src/timers.rs:104-128 | The map gains exactly the new timer, under an id that was not armed; its deadline is the whole milliseconds asked for (the longest delay beyond it, nothing for a negative or non-finite number) after now, and at least 4 ms past nesting level five. |
| Timers.TimerSchedule.Clear | crates/bobcat-core/src/timers.rs:137-139 | The map loses exactly that timer. |
| Timers.TimerSchedule.NextDeadline | crates/bobcat-core/src/timers.rs:141-154 | The answer is the least deadline armed, or none when nothing is armed, and only leftovers leave the heap. |
| Timers.TimerSchedule.TakeDue | crates/bobcat-core/src/timers.rs:164-204 | The map becomes the plain map's (one-shots gone, repeats re-armed), and the report is the plain map's batch exactly when no repeat that is due has a second live entry. |
| Timers.TimerSchedule.PopDue | crates/bobcat-core/src/timers.rs:170-199 | The loop pops exactly the due entries and reports each live one in heap order. |
| Timers.DueBatchUnique | crates/bobcat-core/src/timers.rs:164-204 | One map and one clock reading have one batch: every armed timer that is due, once, by deadline and id. |
| Timers.BatchFromReports | crates/bobcat-core/src/timers.rs:164-204 | For any heap that indexes the map, the reports are the batch exactly when every due repeat has a single live entry. |
| Timers.TakeComplete | crates/bobcat-core/src/timers.rs:164-204 | Popping up to the first entry that is not due leaves nothing due behind. |
| Timers.TakeRearmsMap | crates/bobcat-core/src/timers.rs:200-203 | Putting the held repeats back gives the plain map's result of a take. |
| Timers.ReusedIdReportsTwice | crates/bobcat-core/src/timers.rs:212-223 | A heap in which an id stands again over its own leftover reports one repeat twice. |
| Timers.ReuseIsReached | crates/bobcat-core/src/timers.rs:104-223 | Arming and clearing alone get there from a new schedule: once the id counter has come round, a single armed repeat is reported twice by one take. |
| Timers.StepKeepsPace | crates/bobcat-core/src/timers.rs:293-330 | Every step of a realm keeps the pace of every timer chain, whatever delays its callbacks ask for. |
| Timers.RateBound | crates/bobcat-core/src/timers.rs:104-128 | In every run whose batches are the plain map's (no repeat armed over its own leftover entry), fire k of a chain of nested timers comes at least 4 ms times max(0, k - 6) after its first fire. |
| TimerDelays.FiresNoEarlier | crates/bobcat-core/src/timers.rs:229-245 | In every run, no fire of a timer comes earlier than the whole milliseconds it asked for, after the call that set it or after any fire before it. |
| TimerDelays.SetWaitsAsAsked | crates/bobcat-core/src/timers.rs:109-128 | A timer set by the n-th fire of a chain waits exactly what it asked for, or at least 4 ms once n exceeds five. |
| TimerDelays.RepeatWaitsAsAsked | crates/bobcat-core/src/timers.rs:184-203 | A repeat that fires waits as long again, at the level of that fire. |
| TimerDelays.ClearedNeverFires | crates/bobcat-core/src/timers.rs:137-139 | A cleared timer never fires until its id is set again. |
| TimerDelays.OneShotFiresOnce | crates/bobcat-core/src/timers.rs:184-199 | A timer that does not repeat fires at most once. |
| Images.Pipeline.Request | crates/bobcat-resources/src/images.rs:260-306 | A request answers at once from a bitmap or a failure, joins a load, or starts one; a source that cannot be resolved fails and says so. |
| Images.Pipeline.Apply | crates/bobcat-resources/src/images.rs:341-443 | Applying a completion gives the next state even though the entry is taken out before it is looked at. |
| Images.Pipeline.Service | crates/bobcat-resources/src/images.rs:325-339 | The drain applies the queued completions in order. |
| Images.Pipeline.Read | crates/bobcat-resources/src/images.rs:452-521 | A read answers with the resident bitmap or the restored one, and asks for a refinement only when none is out and the resident one should be replaced. |
| Images.WorkMatchesEntries | crates/bobcat-resources/src/images.rs:132-147 | Over every run a source is loading exactly while one load job is out, its refinement is noted exactly while one refinement job is out, at that size, and each listed document request has a parse out. |
| Images.EveryCompletionIsAwaited | crates/bobcat-resources/src/images.rs:341-443 | The arms of apply that would discard an entry or a request are unreachable. |
| Images.ReportsAreConserved | crates/bobcat-resources/src/images.rs:119-143 | Every request is waiting in its one place or was reported exactly once, and nobody else is reported to. |
| Images.QuietSourceHasAnswered | crates/bobcat-resources/src/images.rs:341-443 | Once no load of its source is out an image request has had exactly one report, and a document request once no parse of it is. |
| Images.OutcomesAreFinal | crates/bobcat-resources/src/images.rs:47-50 | Loaded stays loaded at its size, failed stays failed, known stays known, and no report is taken back. |
| Images.ViewsAgree | crates/bobcat-resources/src/images.rs:341-372 | All views told that a source loaded were told one size, and none is told that it failed. |
| Images.DocumentsStayOut | crates/bobcat-resources/src/images.rs:35-45 | A parsed document is never resident, and no refinement or restore starts for it. |
| Images.RefinementSettles | crates/bobcat-resources/src/images.rs:528-546 | A bitmap decoded at the size it is drawn at is left alone exactly when the configured ratio is above one. |
| Images.NextIsAwaited | crates/bobcat-resources/src/images.rs:341-443 | From the invariant alone, the completion at the head of the queue finds its entry or its request. |
| ImageReports.DocumentsAreToldTheirParse | crates/bobcat-resources/src/images.rs:385-405 | Over every run, a document request is told Parsed or Failed exactly as the completion that answered it went. |
| ImageReports.ImagesAreToldTheirLoad | crates/bobcat-resources/src/images.rs:260-322 | Over every run, an image request is told what its source's entry held when it asked, or how the load it waited for ended. |
| ImageReports.WaitersAreTold | crates/bobcat-resources/src/images.rs:341-384 | When a load ends, everyone who waited for it is told how: its size, its document or its failure. |
| ImageReports.DocumentIsTold | crates/bobcat-resources/src/images.rs:385-405 | When a parse ends, one document request for its source is told how, and waits no more. |
| ImageReports.CompletionsBringTheirPixels | crates/bobcat-resources/src/images.rs:341-443 | A load that brings a bitmap leaves it resident with its size remembered, a refinement replaces it, and one that fails leaves it as it was. |
| ImageReports.BlurredIsReplaced | crates/bobcat-resources/src/images.rs:528-546 | A bitmap smaller than the draw is replaced exactly when the image has more pixels to give. |
| ImageReports.CoveringStays | crates/bobcat-resources/src/images.rs:528-546 | A bitmap that covers the draw is replaced exactly when it is the ratio times too large on both axes. |
| Mime.CollectQuoted | crates/bobcat-resources/src/mime.rs:290-307 | The loop returns the unescaped body and how much it read, also for an unterminated quote and a last lone escape. |
| Mime.ParameterIter.Next | crates/bobcat-resources/src/mime.rs:250-287 | Each call yields the next well-formed parameter of the text and leaves the text behind it, the malformed ones skipped. |
| Mime.Collect | crates/bobcat-resources/src/mime.rs:107-115 | The parameters are those of the text, the first of each name. |
| Mime.Parse | crates/bobcat-resources/src/mime.rs:89-117 | The parser computes the parse of the value, and refuses a malformed essence. |
| Mime.Display | crates/bobcat-resources/src/mime.rs:203-223 | The printer writes the essence and each parameter, quoted and escaped where it is no token. |
| Mime.ParsedIsWellFormed | crates/bobcat-resources/src/mime.rs:80-117 | Whatever is parsed has a lowercase type and subtype of tokens, and distinct lowercase parameter names with values that can be quoted. |
| Mime.EscapedReadsBack | crates/bobcat-resources/src/mime.rs:203-223 | A quoted and escaped value reads back, whatever stands behind its closing quote. |
| Mime.FirstOfEachNameIsKept | crates/bobcat-resources/src/mime.rs:107-115 | Of parameters with one name the first value is kept, and no name is lost. |
| Mime.DisplayedParsesBack | crates/bobcat-resources/src/mime.rs:203-223 | Every well-formed media type parses back from the text it prints as. |
| Mime.RoundTrip | crates/bobcat-resources/src/mime.rs:89-223 | For every text that parses, printing the result and parsing again gives the result. |
| Mime.ParsedExactlyTheWellFormed | crates/bobcat-resources/src/mime.rs:80-117 | The media types some text parses to are exactly the well-formed ones. |
| MimeSegments.UnquotedStandsAlone | crates/bobcat-resources/src/mime.rs:203-223 | A stretch without a quote, well formed or not, never costs the parameters behind its semicolon. |
| MimeSegments.QuotedStandsAlone | crates/bobcat-resources/src/mime.rs:250-326 | A quoted value may hold semicolons and quotes; what follows its closing quote is dropped up to the next semicolon, and nothing else is. |
| MimeSegments.EssenceIsRead | crates/bobcat-resources/src/mime.rs:89-116 | The essence is what stands in front of the first semicolon, without the whitespace around it, its capitals and nothing else made small. |
| MimeSegments.ParsedHasNoCapitals | crates/bobcat-resources/src/mime.rs:89-116 | A parsed essence and parameter names have no capitals. |
| LynxXml.TrimBlank | crates/bobcat-source/src/xml.rs:493-504 | Moving both ends inwards gives the text without blanks at either end. |
| LynxXml.Parser.ConsumeIgnorable | crates/bobcat-source/src/xml.rs:230-255 | The loop stops behind all blanks and comments, or reports the first unterminated comment where it starts. |
| LynxXml.Parser.ConsumeDoctype | crates/bobcat-source/src/xml.rs:257-288 | The doctype is accepted and skipped, or refused where it starts. |
| LynxXml.Parser.ConsumeRootStart | crates/bobcat-source/src/xml.rs:290-322 | The root's version is read, or the tag is refused where it starts. |
| LynxXml.Parser.ConsumeSectionStart | crates/bobcat-source/src/xml.rs:324-368 | A section's opening tag is classified and checked against the slots already filled. |
| LynxXml.Parser.ConsumeSectionBody | crates/bobcat-source/src/xml.rs:370-409 | The closing tag is searched behind a leading CDATA section, and the content is what stands before it. |
| LynxXml.Parser.AssignSlot | crates/bobcat-source/src/xml.rs:480-487 | The slots go on holding exactly the sections read. |
| LynxXml.Parser.Parse | crates/bobcat-source/src/xml.rs:149-224 | The parser computes the parse of the document, with the same failure at the same place. |
| LynxXmlGrammar.PiecesRead | crates/bobcat-source/src/xml.rs:230-255 | Any sequence of blanks and comments is skipped up to what follows it. |
| LynxXmlGrammar.AttributeReads | crates/bobcat-source/src/xml.rs:526-543 | A quoted attribute, with either quote and any blanks around the equals sign, reads as its value. |
| LynxXmlGrammar.BodyReads | crates/bobcat-source/src/xml.rs:370-470 | A raw body without its closing tag, or a CDATA section without its own end, reads as its value. |
| LynxXmlGrammar.BodyFound | crates/bobcat-source/src/xml.rs:370-470 | Every section body that is accepted was written in one of those two ways. |
| LynxXmlGrammar.SectionsRead | crates/bobcat-source/src/xml.rs:187-199 | Sections in any order, with anything ignorable between them, read as their values. |
| LynxXmlGrammar.SectionsFound | crates/bobcat-source/src/xml.rs:187-199 | Every accepted sequence of sections was written so, and no section occurs twice. |
| LynxXmlGrammar.WrittenIsRead | crates/bobcat-source/src/xml.rs:149-224 | Every document written by the grammar parses to exactly the values written. |
| LynxXmlGrammar.ReadWasWritten | crates/bobcat-source/src/xml.rs:149-224 | Every accepted document was written by the grammar, with a main script and no section twice. |
| LynxXmlGrammar.AcceptsExactlyTheGrammar | crates/bobcat-source/src/xml.rs:149-224 | The parser accepts a document with certain values exactly when the grammar writes it with those values. |
| LynxXmlText.AcceptsExactlyWhatIsWritten | crates/bobcat-source/src/xml.rs:149-255 | The parser accepts a text with a document exactly when that text, spelled out literally, is a way to write that document. |
| ZipDirectory.FindEnd | crates/bobcat-source/src/archive.rs:176-182 | The backward search finds the last end record of the whole package, although it looks only at the last 65557 bytes. |
| ZipDirectory.WalkDirectory | crates/bobcat-source/src/archive.rs:195-215 | The walk gives the verdict of the records from the first on. |
| ZipDirectory.ValidateDirectory | crates/bobcat-source/src/archive.rs:168-216 | The verdict is that of the last end record, and a package without one is malformed. |
| ZipDirectory.AcceptsExactlyDirectories | crates/bobcat-source/src/archive.rs:168-216 | A package is accepted exactly when its last end record has zero disk fields, equal counts within the limit, and a range that splits into exactly that many records with distinct names. |
| ZipDirectory.ReportsExactlyRepeats | crates/bobcat-source/src/archive.rs:205-208 | A duplicate is reported exactly when, inside an envelope that fits, the records reach one whose name an earlier one had. |
| ZipWritten.WrittenPackageIsChecked | crates/bobcat-source/src/archive.rs:168-216 | A package written field by field, little-endian, is accepted exactly when it has no more entries than allowed and names no path twice, and is refused with the right reason otherwise. |
| ZipWritten.EndReads | crates/bobcat-source/src/archive.rs:174-192 | The end record's fields read back as they were written. |
| ZipExtraction.ReadMember | crates/bobcat-source/src/archive.rs:88-100 | Reading stops as soon as the package is over its limit, so never more than the limit is kept. |
| ZipExtraction.Extract | crates/bobcat-source/src/archive.rs:69-103 | A package is extracted exactly when every member fits, counting the bytes really read before it; otherwise the first that does not gives the reason. |
| ZipExtraction.FitsExactlyWithinTheLimit | crates/bobcat-source/src/archive.rs:69-103 | The running count bounds the whole: every member fits if and only if what all of them really hand out is within the limit together and each is welcome where it stands; a declared size can refuse a member and never lets one in. |
| ZipExtraction.EveryFileIsWhole | crates/bobcat-source/src/archive.rs:99-101 | With distinct names, each file is its member's whole content. |
| DataUrl.DecodeSextets | crates/bobcat-resources/src/data_url.rs:139-158 | The pass through a 32-bit shift buffer agrees with decoding in groups of four. |
| DataUrl.DecodeForgivingBase64 | crates/bobcat-resources/src/data_url.rs:118-159 | The decoder computes the forgiving decode: whitespace and whole-group padding dropped, then the groups. |
| DataUrl.ShiftedLow | crates/bobcat-resources/src/data_url.rs:151 | Whatever the 32-bit word loses, its last twelve bits are the two sextets last read. |
| DataUrl.EncodingDecodes | crates/bobcat-resources/src/data_url.rs:118-159 | Text that is the encoding of some bytes once its whitespace is gone, padded or not, decodes to those bytes. |
| DataUrl.StrippedAnywhere | crates/bobcat-resources/src/data_url.rs:124-127 | Whitespace inserted anywhere makes no difference. |
| DataUrl.AcceptsExactlySymbols | crates/bobcat-resources/src/data_url.rs:128-159 | Accepted is exactly data of alphabet symbols whose number is not one more than a multiple of four, and n symbols give floor(6n/8) bytes. |
| DataUrl.PercentDecode | crates/bobcat-resources/src/data_url.rs:88-107 | The loop replaces exactly the well-formed escapes. |
| DataUrl.PercentRoundTrip | crates/bobcat-resources/src/data_url.rs:88-116 | Bytes written with every percent sign escaped, and anything else escaped or not, decode to themselves. |
| JpegHeader.SkipFill | crates/bobcat-resources/src/image_header.rs:115-118 | Fill bytes are skipped, all of them. |
| JpegHeader.ProbeJpeg | crates/bobcat-resources/src/image_header.rs:113-150 | The loop computes the size read by the marker walk, and ends on every input. |
| JpegHeader.ReadsTheFirstFrame | crates/bobcat-resources/src/image_header.rs:111-150 | For any standalone markers and segments with any fill bytes, the size read is the first frame header's. |
| JpegHeader.ReadsExactlyTheGrammar | crates/bobcat-resources/src/image_header.rs:113-150 | A size is read from exactly the byte sequences of the marker grammar, and it is the first frame's. |
| JpegHeader.LentPrefixIsRead | crates/bobcat-resources/src/image_header.rs:119-123 | A concrete stream in which a segment ending in 0xff lends its last byte as the prefix of a frame marker that has none. |
| JpegHeader.OwnPrefixesWithoutLending | crates/bobcat-resources/src/image_header.rs:119-123 | Where no segment ends in 0xff, every marker that is read has a prefix of its own. |
| JpegHeader.MarkerTable | crates/bobcat-resources/src/image_header.rs:111-150 | The marker codes told apart are those of table B.1 of ITU-T T.81. |
| InstallHold.CoversWholeSegments | crates/bobcat-resources/src/registry.rs:57-69 | An install covers a URL exactly when the segments of its path begin the segments of the URL's. |
| InstallHold.Registry.Release | crates/bobcat-resources/src/registry.rs:80-83 | A release leaves the other holds, in order. |
| InstallHold.Registry.InstallCovering | crates/bobcat-resources/src/registry.rs:85-92 | The first hold that covers the URL is found, or none covers it. |
| InstallHold.ReleaseEndsOnlyItsOwn | crates/bobcat-resources/src/registry.rs:80-83 | A hold is gone after a release exactly when it had that id. |
| InstallHold.OneCoverIsNeverOvertaken | crates/bobcat-resources/src/sources.rs:264-292 | Where one covering install has its hold in place when a load looks (others may have ended, or be yet to begin), then in every order of release, answer and look-up, once the load is past its wait every covering install placed before its request has made its last registration. |
| InstallHold.LookUpBehind | crates/bobcat-resources/src/sources.rs:264-269 | No load waits for an install or reaches the transport without a look-up behind it. |
| InstallHold.NothingIsRegisteredLate | crates/bobcat-resources/src/lib.rs:829-864 | With one covering hold in place at the look-up, everything its install ever registers was registered before the load went past its wait. |
| InstallHold.NoLoadOvertakesItsInstall | crates/bobcat-resources/src/sources.rs:264-292 | With any number of covering installs, a load can only overtake one whose hold stood when it looked but which it did not wait for. |
| InstallHold.SkippedInstallIsOvertaken | crates/bobcat-resources/src/sources.rs:264-272 | Such a skipped install is overtaken once the one waited for ends well, so the condition cannot be dropped. |
| InstallHold.OverlapOvertakes | crates/bobcat-resources/src/lib.rs:815-864 | A concrete run with two overlapping installs in which a load reaches the transport while the second still registers. |
| InstallHold.LoadsSeeWhatWasInstalled | crates/bobcat-resources/src/sources.rs:259-292 | What the install waited for registered under the load's URL, and nobody wrote over before, is what the load finds at the transport, and a sheet is a waiting stylesheet load's answer. |
| InstallHold.RefusalsAreTheInstalls | crates/bobcat-resources/src/sources.rs:271-283 | A load is refused only with the failure of an install that covers it, or because that install ended without an answer. |
| InstallAnswers.WaitEndsAsTold | crates/bobcat-resources/src/sources.rs:264-292 | A load that takes its answer is refused with message m exactly when its install failed with m, refused without one exactly when the install ended without an answer, and otherwise goes on, a stylesheet by way of looking for a registered sheet. |
| InstallAnswers.PastTheWaitMeansDone | crates/bobcat-resources/src/sources.rs:264-283 | Over runs, a load past its wait, or answered, had waited for an install that ended well. |
| InstallAnswers.StylesheetsAreChecked | crates/bobcat-resources/src/sources.rs:284-290 | A stylesheet that waited looks for a registered sheet before it goes to the transport or is answered. |
| InstallAnswers.ToldWhatItReturned | crates/bobcat-resources/src/lib.rs:838-849 | What the waiting loads are told is what the install returned. |
| InstallAnswers.LooksForTheFirst | crates/bobcat-resources/src/registry.rs:85-92 | A load waits for the first hold that covers it, exactly when there is one. |
| InstallAnswers.AnswersAreRegistered | crates/bobcat-resources/src/sources.rs:284-290 | A load is answered on the spot only with the sheet registered under its URL then. |
| InstallAnswers.ContainersHoldWhatIsBelow | crates/bobcat-resources/src/registry.rs:72-78 | An install holds its container's path and everything below it, with or without a slash at the end of the container's URL. |
| InstallHold.NobodyWaitsForNothing | crates/bobcat-resources/src/lib.rs:843-864 | A waiting load can learn its answer, or the install it waits for still has a step to take. |
| Jobs.BodiesRunOneAtATime | crates/bobcat-core/src/jobs.rs:250-257 | Between the starts of two jobs the first returns, over all interleavings of tasks, jobs and waits. |
| Jobs.JobsStartInPushOrder | crates/bobcat-core/src/jobs.rs:250-257 | The jobs pushed are those started, then those dropped, then those queued, in order and each once. |
| Jobs.PushedDuringStartsAfter | crates/bobcat-core/src/jobs.rs:259-266 | A job pushed while another runs, also in its wait, starts only after that one returned. |
| Jobs.NeverParksOnAJob | crates/bobcat-core/src/jobs.rs:171-181 | While anything is queued, a loop about to select finds a permit, and a parked loop has been woken. |
| Jobs.AnswersTellTheTruth | crates/bobcat-core/src/jobs.rs:276-297 | An answer is absent only if the job did not complete, given exactly if it did, and nobody is left waiting once the thread has ended. |
| Jobs.AnswersAreFinal | crates/bobcat-core/src/jobs.rs:331-339 | An answer that is there never changes: a dropped job is never run. |
| Jobs.EndsOnlySo | crates/bobcat-core/src/jobs.rs:221-266 | The thread ends when a job panics, or where its loop looks whether main is done and finds that it is, and in no other way. |

## Left out

- QuickJS, Stylo, Vello and wgpu, tokio, and the `url`, `zip`, `cssparser` and `rkyv` crates: only what the code here relies on of them is modelled, such as channel order, mutex atomicity, the `Notify` permit and the prefix of a URL path.
- Weak memory in `alarm.rs` and the alignment of clocks: every load, store and compare-and-swap is one step, and every clock reading is arbitrary.
- Alarm: `alarm.rs`, `jobs.rs` and the two ends of the view link are transition systems on values, so that every interleaving is covered; the in-place update of a `Vec` or a `BinaryHeap` inside one critical section is one step on a collection.
- Alarm.CounterNeverWraps: does not relate the cancellation counter to the dead heap entries, because the code does not keep them equal: an entry cancelled while still among the arrivals is subtracted without being removed.
- Timers.TimerSchedule.AllocateId: requires a free id, because with all 2^32 - 1 ids armed the original loops forever.
- Timers.TimerSchedule.Arm: requires a free id, for the same reason.
- Timers.RateBound: is for batches that are the plain map's; a repeat armed over its own leftover entry fires twice in one batch, which no bound survives.
- Timers: clock arithmetic does not overflow here, and a delay is a real number of milliseconds read exactly; the rounding of a double is not modelled.
- SheetLowering.ConvertRules: keyframes children, declarations and font descriptors are carried through as they are; how their text is written is not modelled.
- StyleLowering.ScopedRuleMeaning: is for selectors whose guard tests the matched element; `StyleLowering.GuardStandsOnSubject` says which those are, and `StyleLowering.OffSubjectGuardLetsOthersIn` why the others are out.
- SelectorText.ListReads: is for names of letters, digits, hyphens and underscores, arguments without a closing parenthesis and attributes without an inner bracket; escapes in CSS text are not modelled.
- ViewLink: one painter and one main thread with one channel between them; the painter's drawing, the worker frames and the page's own script are not modelled, and the command counter does not wrap.
- Images: URLs, encoded bytes, formats and pixels are not modelled, a bitmap is its size; decoding, fetching, restoring and eviction may end any way they like, and every job sends its one completion at an arbitrary time.
- Images.Pipeline.Read: the size a hint asks for and the outcome of a restore are parameters; the comparison by ratio is over real numbers rather than single-precision floats.
- Images: the memory cache's choice of what to evict is arbitrary, except that a bitmap just inserted stays.
- InstallHold: the shared cache of stylesheet responses (`cached_style`) and preloading, by which several requests share one load, are not modelled.
- InstallHold: fetching and decoding behind the transport's lookup are not modelled, and image loads, which do not look for holds, are left out.
- Jobs: what a job computes, and the runtime's scheduling of tasks, are arbitrary; dropping the future that awaits an answer changes nothing and has no step.
- Mime: `class`, `sniff`, `from_extension` and `with_parameter` would only add tables.
- LynxXml: positions count characters left to read, where the original keeps byte and UTF-16 offsets; the wording of messages is not modelled.
- ZipDirectory: lengths are unbounded numbers; the checked additions of the original cannot overflow for packages within its own 64 MiB limit.
- ZipExtraction: decompression, entry names as UTF-8 and the path rules are inputs of a member, as the archive reader hands them out.
- DataUrl: splitting a `data:` URL into its media type and its body.
- JpegHeader: the fixed-offset probes of PNG, GIF, WebP and BMP, and the detection of SVG, would only add easy members.
- Overflow of machine words elsewhere: sequence numbers, ids and counters are unbounded numbers unless a row says otherwise.
- `future.rs`, `lifetime.rs`, `native_module.rs`, `container.rs` and the TypeScript packages: latches, map inserts and library URL building.
