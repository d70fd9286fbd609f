# What the agent framework keeps

An agent framework runs other people's models and other people's services on a person's behalf: a model may ask for
anything at any time, services fail half way, several workers and several conversations go on at once, and text arrives
a few bytes at a time. The framework promises that, whatever those do, a job limited to one start is not started twice,
a change is not made twice, nothing is sent that its rules forbid or that the person did not approve, a message is
answered once and in its turn, and nobody is told that something was done when it was not. This project models the code
those promises rest on and proves them.

Models, judges, services, people, clocks and failing stores are arbitrary functions of the moment they are used at, so
every statement holds for all of them.

| file | what it models |
|---|---|
| Values, Outcome | decoded JSON; whether an action did its job, requirements, receipts, the facts told instead of a claim |
| Transcripts, AgentSteps, AgentKeeping, AgentTelling, AgentPace, AgentLoop | the loop around a model with all its guards: the transcript, one call, what every call keeps, what the model is told, when it goes on or stops, the whole run |
| Providers | asking through several providers with rests and retries |
| JobTable, JobQueue, JobRows, JobLimits, JobStore | the leased job queue and inbox queue: statements as steps over rows with histories, fair leasing, sliding caps |
| DuplicatePeople, MergeRows, MergePeople | union-find over shared messenger accounts, and merges that fold people, their rows and their notes |
| LiveReader, LiveDrafts, ReplyWatch | one string field read out of JSON that is still arriving, and the drafts shown from it |
| InputContract, InputPromises | the recursive input check and what it guarantees |
| GateRules, RuleSets, Gates, GateMeanings, GatedRun, GatePromises | a creator's rules, and every gate a call passes before the service sees it |
| ConversationLines, ConversationHost, ConversationPromises | one line and one worker for each conversation, and edits |
| KeepNeeded | the worklist that puts back what an offered action relies on |
| LearnDetails, Learning | what one exchange teaches about a person |

Where the code does not keep what its comments promise, the input that shows it is a lemma and the exact condition is
proved beside it:

- a lease that runs out between the marking and the taking statement lets a job be started once too often
  (`JobQueue.StartedTwiceBetweenStatements`, exactly when: `JobQueue.LeasingKeepsTheLimitExactly` and
  `JobQueue.LeasingFairKeepsTheLimitExactly`);
- extending a lease that ran out can put a person over their share (`JobLimits.LateExtendGoesOver`, exactly when:
  `JobLimits.ExtendKeepsFairExactly`);
- a capability's pin can replace what the agent fixed (`GateRules.TwoFixedAmounts`, exactly when:
  `GateRules.FixedCarriedExactly`);
- "must have run first for the same values" is checked on the call as the model made it, before values are pinned,
  converted or prepared: a call can go out for a value nothing was checked for, and be turned back although the value it
  would send was checked (`GatePromises.CheckedForAnotherPair`, `GatePromises.CheckedAndTurnedBack`; neither happens
  exactly when the values sent are the same as the call's: `GatePromises.WaitsForWhatIsSentExactly`,
  `GatePromises.WaitsOnlyForWhatIsSentExactly`);
- merging a person whose old note was sorted into details into one whose own note was not marks that note as sorted too,
  so it is never sorted and no longer shown (`MergeRows.UnsortedTakenForSorted`, exactly when:
  `MergeRows.SortedMeansSortedExactly`).

Comments in `domain/hydrate.go` (lines 66, 71 and 78) call the person's own approval the first gate, and the once-only
guard and the input check the outermost. The order the code builds is modelled: what must come first, pins, input check,
prepare, rules, time zone, once only, the ability's approval, the person's own, sign-in, journal, service.

## Model

| member | source | states |
|---|---|---|
| Outcome.OutcomeOf | domain/outcome.go:65-90 | An action counts as done exactly when it returned no error, none of the three texts that mean it waits or was declined, and no "changed": false. |
| Outcome.Satisfied | domain/outcome.go:124-143 | The nested search finds that a requirement is met exactly when a record that counts for it was done. |
| Outcome.LastAttempt | domain/outcome.go:145-163 | None exactly when no record counts. |
| Outcome.LastAttemptIsLatest | domain/outcome.go:145-163 | Otherwise it is a record that counts, after which none does. |
| Outcome.FindLastAttempt | domain/outcome.go:145-163 | The search from the end finds it. |
| Outcome.BuildReceipts | domain/outcome.go:210-221 | The loop with its set of seen messages builds the receipts in order, each message once. |
| Outcome.ReceiptsAreTheChanges | domain/outcome.go:210-221 | A line is a receipt exactly when it is the message of a change that went through. |
| Outcome.FactsMatchTheRecord | domain/outcome.go:165-181 | The platform's words say nothing was changed exactly when no change went through; a change with words of its own has all its receipts told. |
| Outcome.FinishExactly | domain/outcome.go:183-206 | A finish is accepted exactly when it says details are needed or it could not be done, or says done and a record that counts was done. |
| Outcome.OutcomeSays | domain/outcome.go:65-90 | What is kept of a result is its own message, and the reason it gives for not being done. |
| Transcripts.WellFormedAnswersEveryCall | domain/loop.go:156-170 | In a well-formed transcript every call of an assistant message is answered before any later message that is not an answer to it. |
| Transcripts.AnswerOpenCalls | domain/loop.go:377-401 | Searching back for the last assistant message with calls and appending answers gives the transcript with its open calls answered. |
| Transcripts.AnswerOpenCallsWellFormed | domain/loop.go:377-401 | Whatever path a turn broke off on, the transcript handed to the wrapping-up call is well formed. |
| AgentKeeping.StepCallFits | domain/loop.go:226-357 | Every branch a call can take (finish, refusal, repeat, limit, failure, superseded, success) keeps the safety of what was done, the memory of it, and a transcript fit for what comes next; an ending it gives is honest. |
| AgentKeeping.AdmitsExactly | domain/loop.go:262-323 | The guards let a call run exactly when its action is known, has a use left, and the same look-up or change has not gone through before. |
| AgentKeeping.RunsExactlyTheAdmitted | domain/loop.go:262-331 | A call invokes its action exactly when it is admitted, once, with that very call. |
| AgentKeeping.StepCallCosts | domain/loop.go:262-357 | A call uses up a use of a known action, or is a failure, or makes no progress. |
| AgentLoop.RoundCosts | domain/loop.go:359-363 | A round makes the measure of what keeps the run going smaller. |
| AgentLoop.HandleCalls | domain/loop.go:226-358 | Going through the calls of one response, each in its turn until one ends the response, keeps all of that, runs nothing the response did not ask for, and tells the model what each call came to. |
| AgentLoop.WrapUp | domain/loop.go:149-181 | Wrapping up asks once more exactly when there is a finish to call, with the open calls answered; it ends with that finish, honestly, exactly when the model finished with words, and otherwise as an error. |
| AgentLoop.Iterate | domain/loop.go:184-363 | One round asks the model once and either ends, wraps up, or goes on with the measure smaller. |
| AgentLoop.Run | domain/loop.go:107-370 | For every model and every result the run ends, within 60 questions to the model for each action and 6 more (and within the step limit and one when there is one); every transcript the model was given answers every earlier call, and tells it all it said and all its calls returned, in order, and of a repeat what that very call returned before; no change or look-up that went through runs again with the same arguments; no action runs over its limit or 15 times; nothing runs that the latest response did not ask for; the model is asked again only after fewer than three failures in a row, fewer than two rounds in a row that ran nothing and at most two refused finishes, and never after a finish that is accepted, which is what the run ends with; it wraps up only for one of those reasons or when its steps are used; and it ends with the agent's own words only when no change was made without a finish, or the finish is accepted on the record, with every receipt added to a done that was not wrapped up, and with the facts exactly otherwise. |
| AgentTelling.ResultIsTold | domain/loop.go:324-357 | Whatever an invocation returned, or its error, is in every transcript given to the model after it, as the answer to that call. |
| AgentTelling.StepTells | domain/loop.go:226-357 | Whatever becomes of a call, the transcript goes on telling what happened: a result as returned, a repeat with what that call returned when it went through, an unknown action as unknown. |
| AgentPace.StepPaced | domain/loop.go:226-357 | After every call the counters of failures, rounds without progress and refused finishes are what the transcript shows. |
| AgentLoop.RoundEnds | domain/loop.go:188-258 | A round ends the run when the model has no answer or first of all finishes with what is accepted, and tells the facts only after two refused finishes. |
| AgentLoop.WrappedForAReason | domain/loop.go:183-186 | A run is wrapped up only after three failures in a row, two rounds in a row that ran nothing, or all its steps. |
| AgentSteps.HeldExactly | domain/loop.go:131-136 | A run is held to a request's requirements exactly when there are any and its finish asks for an outcome. |
| AgentSteps.FindIsLast | domain/loop.go:109-114 | Of actions with one name the last is the one that is called. |
| AgentLoop.RecordsAreWhatRan | domain/loop.go:328-331 | Every record is of an invocation that left the loop. |
| AgentLoop.DoneWasDone | domain/loop.go:227-260 | A completed run under requirements that keeps the agent's own words with outcome done has an invocation in its log that a requirement asked for and that did its job. |
| AgentLoop.ChangedExactly | domain/loop.go:328-331 | The record shows a change exactly when an invocation of a changing action in the log did its job. |
| AgentLoop.ToldTheFacts | domain/outcome.go:165-181 | A run that ends with the facts says nothing was changed exactly when no invocation in its log changed anything, and otherwise gives every receipt there is. |
| AgentLoop.ToldTheReceipts | domain/loop.go:249-256 | A done in the agent's own words is followed by a line for each change in the log that has words, and for no other. |
| Providers.Providers.CallWithRetry | domain/loop.go:438-463 | One provider is tried again exactly as long as it is failing and the wait is not cut off, three times in all; only the last try can be an answer, and each is what it answered. |
| Providers.Providers.Ask | domain/loop.go:413-436 | Providers are tried in order, each at most three times, and the answer is the first one given; one that is resting when its turn comes is passed over, unless it is the last, and every other one up to the one that answers is tried; one that answers rests no more, one that does not rests for the cooldown, unless it is the last; there is no answer only when the last was tried too; who was not tried rests as before. |
| JobTable.FirstComeFirst | postgres/jobs.go:207-222 | What the limit leaves out comes after what it takes, by due time and id. |
| JobTable.FirstTakes | postgres/jobs.go:207-222 | A limit takes that many rows, or all when there are fewer. |
| JobRows.FirstAreEarliest | postgres/jobs.go:207-222 | A limit takes the earliest rows by due time and id, all of them when there is room. |
| JobRows.FairExactly | postgres/jobs.go:238-255 | The fair lease may take exactly the due rows whose person, and agent where that is limited, has room: the due rows up to it by due time and id, and the live ones, counted over the rows. |
| JobRows.OutcomeExactly | postgres/jobs.go:86-146 | Storing is refused, a duplicate, over the first cap whose counted rows leave no room, or done, exactly as the counts over the rows say. |
| JobRows.CalledExactly | postgres/jobs.go:271-343 | What each call of a holder leaves in the columns of its row. |
| JobRows.FirstIdsAreLowest | postgres/jobs.go:345-361 | Telling takes the rows with the lowest ids. |
| JobQueue.MoveKeepsRow | postgres/jobs.go:189-342 | Every update of a row keeps its accounting: attempts are leases taken less those handed back, below the limit when waiting, between 1 and the limit when running, held by whoever took it last, told only when interrupted and once. |
| JobQueue.ApplyKeeps | postgres/jobs.go:29-363 | Every operation keeps that of every row, keeps repeat keys unique, never takes back history, and never leaves a final status. |
| JobQueue.RunKeeps | postgres/jobs.go:29-430 | So does every run of operations, in any interleaving. |
| JobQueue.OnlyTheHolderMoves | postgres/jobs.go:271-343 | A call to extend, defer, release, finish or fail applies exactly when its caller is the current holder, changes nothing otherwise, and ends the holding. |
| JobQueue.StartedAgainOnlyIfHandedBack | postgres/jobs.go:282-301 | Over any run a job with no start left is started again only as often as it was handed back. |
| JobQueue.EndedForGood | postgres/jobs.go:303-363 | Over any run a final status is never left and an interrupted job is handed out for telling at most once. |
| JobQueue.ToldOnce | postgres/jobs.go:345-361 | What is handed out for telling had never been told, and then has been once. |
| JobQueue.TakingKeepsTheLimitExactly | postgres/jobs.go:189-222 | When spent rows are marked at one moment and some due ones taken d later, every row stays within its starts exactly when none taken was, at the marking, running on its last start under a lease that runs out in between. |
| JobQueue.LeasingKeepsTheLimitExactly | postgres/jobs.go:200-223 | So for the plain lease, which takes the first due rows. |
| JobQueue.LeasingFairKeepsTheLimitExactly | postgres/jobs.go:227-268 | So for the fair lease. |
| JobQueue.StartedTwiceBetweenStatements | postgres/jobs.go:204-207 | A steady table in which the plain lease, its two statements a moment apart, starts a job limited to one start twice. |
| JobStore.Store.EnqueueCapped | postgres/jobs.go:86-166 | Stores exactly when the job is complete, no duplicate and under every cap by the count over the rows, names the first full cap otherwise, and adds that row and no other. |
| JobStore.Store.Lease | postgres/jobs.go:200-223 | Gives up on exactly the spent rows, then takes exactly the earliest due rows, as many as the limit and there are, sets their columns, and leaves every other row; every row taken is held by the caller. |
| JobStore.Store.LeaseFair | postgres/jobs.go:227-268 | Gives up on exactly the spent rows, then takes exactly the earliest of the due rows with room in their person's share and their agent's, all of them when the limit allows, and leaves every other row; every row taken is held by the caller. |
| JobStore.Store.CallOnRow | postgres/jobs.go:271-343 | Applies, and says so, exactly when the caller holds the row; then that row has the columns the call sets, and no other row changes. |
| JobStore.Store.TakeInterrupted | postgres/jobs.go:345-361 | Hands out exactly the interrupted rows not told of, the lowest ids first, none of them told before. |
| JobStore.Store.DropLiveJobs | postgres/jobs.go:422-430 | Leaves nothing waiting or running, and every other row as it was. |
| JobLimits.PicksStayFair | postgres/jobs.go:232-262 | Taking rows by rank plus busy count keeps every person and agent within their share, though ranks are of due rows and busy counts of live ones. |
| JobLimits.FairKeeps | postgres/jobs.go:227-361 | Every operation keeps the shares when jobs are taken only by the fair lease and only live leases are extended. |
| JobLimits.AlwaysFair | postgres/jobs.go:225-268 | At no moment of a run does a person or agent hold more live leases than their share. |
| JobLimits.ExtendKeepsFairExactly | postgres/jobs.go:271-280 | Extending keeps the shares exactly when the lease had not run out or there is room for it again. |
| JobLimits.LateExtendGoesOver | postgres/jobs.go:271-280 | The table in which a late extension puts a person over their share. |
| JobLimits.InsertStaysWithin | postgres/jobs.go:113-165 | A job stored under a cap leaves every window of that length within it. |
| JobLimits.CapKeeps | postgres/jobs.go:86-166 | Every operation keeps the cap. |
| JobLimits.AlwaysWithinCap | postgres/jobs.go:85-166 | At every moment of a run and for every window of that length, at most that many counted jobs of the alert (or person and agent) were made in it, shadow and real ones apart. |
| DuplicatePeople.Forest.Find | postgres/sender.go:82-91 | Finding with path compression ends, gives the representative, and changes nobody's representative. |
| DuplicatePeople.Forest.Join | postgres/sender.go:106-108 | Setting one representative's parent to the other joins exactly their two parts. |
| DuplicatePeople.JoinAccounts | postgres/sender.go:98-111 | In whatever order the accounts are gone through, everyone who shares one ends in one part, a part holds only people who are linked, and each account with two people or more leaves one link. |
| DuplicatePeople.CollectVia | postgres/sender.go:112-118 | Each representative gets the services of the links whose people are in its part. |
| DuplicatePeople.Collect | postgres/sender.go:118-121 | The groups are the parts, each under its representative. |
| DuplicatePeople.PartsAreComponents | postgres/sender.go:80-121 | The parts are the connected components: two people are in one exactly when a chain of shared accounts links them. |
| DuplicatePeople.FindGroups | postgres/sender.go:63-150 | The groups found are exactly the components of people who share accounts, each of two or more and each once, with exactly the services of the accounts shared in it, and a survivor who is better than every other member. |
| DuplicatePeople.ChooseSurvivor | postgres/sender.go:153-175 | The survivor is better than every other member, so the choice does not depend on their order. |
| DuplicatePeople.BestExactly | postgres/sender.go:153-175 | Whoever stays has a verified email if any member has, among those alike has said the most, then writes from the most chats, then has the lowest id. |
| MergePeople.FoldingIsUnion | postgres/merge.go:96-168 | A merge leaves every forwarding pointer at someone who remains, leads to the survivor whoever led to the merged person, and moves nobody else. |
| MergePeople.GapsAreFilled | postgres/merge.go:118-129 | What the survivor told of themselves stays and only gaps are filled; the merged person's is emptied and nobody else's changes. |
| MergePeople.AlwaysFlat | postgres/merge.go:81-168 | Over any run of merges no chain is longer than one step, and two people once led to one person stay so. |
| MergePeople.PeopleStore.Resolve | postgres/person.go:226-241 | Following the pointers gives whoever remains, and the 16-step limit is never reached. |
| MergePeople.PeopleStore.MoveKeyedRows | postgres/merge.go:261-304 | Row by row, each goes to the survivor unless they have that key, and none is left on the merged person. |
| MergePeople.PeopleStore.DropOlderConnections | postgres/merge.go:146-152 | Of two connections with one key the survivor's is dropped exactly when the other is newer. |
| MergePeople.PeopleStore.MergeNotes | postgres/merge.go:187-257 | Whatever order they come in, the merged person's notes are joined behind the survivor's or stand where there were none, none is left behind, and the survivor's mark of a sorted note goes exactly when an unsorted note came to it. |
| MergePeople.PeopleStore.MergePersonsTx | postgres/merge.go:96-168 | Merges exactly when both are there, differ and the first was not merged; then every keyed slot of the survivor holds their own row, or the merged person's where they had none or, for connections, where it is newer, but for notes, which are joined, and for marks of sorted notes that an unsorted note came to, which go; every other row of the merged person is the survivor's; else nothing changes. |
| MergeRows.NoWordsLost | postgres/merge.go:131-135 | After a merge the survivor's note of each scope begins with their own words, if any, and ends with the merged person's, if any. |
| MergeRows.LaterConnectionStands | postgres/merge.go:146-152 | Of two connections to one app the one saved later stands, and the survivor's when no time tells them apart. |
| MergeRows.SurvivorsRowStands | postgres/merge.go:261-304 | Of two other rows with one key the survivor's stands. |
| MergeRows.SortedAfter | postgres/merge.go:245-257 | The survivor's note counts as sorted afterwards when it did and nothing unsorted came to it, or when only the other's did. |
| MergeRows.SortedMeansSortedExactly | postgres/merge.go:131-135 | No note is taken for sorted while part of it never was, exactly unless the merged person's was sorted and the survivor's, which had words, was not. |
| MergeRows.UnsortedTakenForSorted | postgres/merge.go:245-257 | The merge after which a note that was never sorted is marked as sorted. |
| MergePeople.PeopleStore.MergePersons | postgres/merge.go:81-95 | The same, with the target followed to whoever remains. |
| MergePeople.PeopleStore.MergeDuplicates | postgres/sender.go:178-188 | Every member ends leading to the survivor, every row of a member is the survivor's, and nobody and nothing outside the group moves. |
| MergePeople.FoldDuplicates | postgres/sender.go:51-188 | Finding the groups and folding each makes two people lead to one person exactly when a chain of shared accounts links them, and that person the best of all they are linked with; every row goes with its person, so it is kept for someone who remains, and no two people share an account any more. |
| LiveReader.PartialString | domain/live.go:250-294 | The index loop reads what the recursive definition says. |
| LiveReader.ReadGrows | domain/live.go:250-294 | More input extends what was read, and a closed string is read for good. |
| LiveReader.RoundTrip | domain/live.go:250-294 | A closed string is read as exactly what was written, with every escape of section 7 of RFC 8259 but the two the reader drops, whatever follows it. |
| LiveReader.ReadCut | domain/live.go:250-294 | Cut anywhere, it is read as exactly the pieces that are wholly there. |
| LiveReader.ScanString | domain/live.go:233-247 | Finds the closing quote, and the string's value, or that it has not come yet. |
| LiveReader.SkipsExactly | domain/live.go:181-185 | Skipping takes off the blanks in front and nothing else. |
| LiveReader.FieldStart | domain/live.go:190-229 | The walk with its depth counter finds where the field's value begins, as the recursive definition says. |
| LiveReader.PartialStringField | domain/live.go:180-229 | The whole reader computes that definition, an object sent as a string included. |
| LiveDrafts.WhereStays | domain/live.go:190-229 | Once the value has begun it begins there for every longer input. |
| LiveDrafts.FieldGrows | domain/live.go:180-229 | Once a value is found, every longer input gives a value it is a prefix of, also for an object sent as a string. |
| LiveDrafts.PastTokens | domain/live.go:190-228 | The walk passes over any strings and balanced groups, at the top level when none of the strings is the key. |
| LiveDrafts.FieldStarts | domain/live.go:190-216 | In an object's text the value found is that of the first key of that name. |
| LiveDrafts.NothingYet | domain/live.go:177-229 | Before the value has begun nothing is read. |
| LiveDrafts.DraftOf | domain/live.go:180-229 | From then on, at every cut, what is read is the text of the pieces wholly there, and at the end all of it. |
| LiveDrafts.SentAsAString | domain/live.go:181-185 | An object sent as a string, cut anywhere, gives the field of what of it is wholly there. |
| ReplyWatching.ReplyWatch.ToolCall | domain/live.go:146-175 | A piece of a call leaves the watcher as the step function says. |
| ReplyWatching.FedKeeps | domain/live.go:146-175 | Every piece keeps that each draft told goes on from the one before. |
| ReplyWatching.Stream | domain/live.go:109-175 | For a finish action that comes in any pieces the drafts grow, and end in what the whole of its arguments holds. |
| InputContract.CheckObject | domain/input_contract.go:49-76 | In whatever order the properties come, the object is converted and its problems are collected as defined. |
| InputContract.CheckValue | domain/input_contract.go:90-140 | The recursive check computes the definition at every depth. |
| InputPromises.EveryProblem | domain/input_contract.go:49-76 | Every input that is wrong and every required one that is missing is among the problems told. |
| InputPromises.Sound | domain/input_contract.go:90-140 | What is accepted conforms to the schema at every depth. |
| InputPromises.Unchanged | domain/input_contract.go:90-140 | What conforms comes back as it is. |
| InputPromises.AcceptedInput | domain/input_contract.go:39-76 | An accepted call conforms, is accepted again unchanged, and is untouched where the schema says nothing. |
| InputPromises.ConformingInput | domain/input_contract.go:39-76 | A call that conforms is let through as it is. |
| InputPromises.TextExactly | domain/input_contract.go:142-158 | A text is accepted as exactly what the value is written as, kind by kind, and only as one of the options. |
| InputPromises.NumberExactly | domain/input_contract.go:160-191 | A number is accepted as exactly the number it is or its text reads as, finite, and whole where that is asked. |
| InputPromises.FlagExactly | domain/input_contract.go:193-207 | True is accepted from exactly true and its word, false from false and its word, and nothing else. |
| InputPromises.ListExactly | domain/input_contract.go:107-123 | A list is accepted as exactly its items, each checked in its place. |
| InputPromises.ObjectExactly | domain/input_contract.go:124-138 | An object inside a call is accepted as a whole call is. |
| InputPromises.CallCheckedExactly | domain/input_contract.go:39-76 | A call is accepted as exactly its declared inputs checked, its declared nulls left out and the rest as it was, with everything required there and saying something. |
| InputPromises.SaysTheSame | domain/input_contract.go:20-35 | What comes back is what was given, or the same written in another way, at every depth. |
| InputPromises.AcceptedExactly | domain/input_contract.go:90-222 | A value is accepted exactly when it can be written so that it conforms. |
| InputPromises.CallAcceptedExactly | domain/input_contract.go:39-76 | And so is a whole call. |
| GateRules.ValueIn | domain/tool_rule.go:433-454 | Finds whether one of the values is the same value. |
| GateRules.Breaks | domain/tool_rule.go:264-313 | Finds the first rule a call breaks, none exactly when it keeps them all, with the slack a product is given. |
| GateRules.ApplyPins | domain/tool_rule.go:236-261 | The two loops pin in order. |
| GateRules.UnpinnedStays | domain/tool_rule.go:236-261 | An input that no rule pins is as the call gave it. |
| GateRules.PinnedOnce | domain/tool_rule.go:236-261 | With one pin for each input, an input has the fixed value, or the default where the call gives nothing, null or empty text, and otherwise the call's own. |
| GateRules.FixedCarriedExactly | domain/hydrate.go:288-294 | Every fixed value of the agent's and the capability's rules is carried, whatever the call gives, exactly when the two agree on what both pin. |
| GateRules.TwoFixedAmounts | domain/hydrate.go:288-294 | Two sets that do not agree: what the agent fixed is not what is sent. |
| RuleSets.NormalizeRules | domain/tool_rule.go:174-222 | A set is taken exactly when every rule fits its ability and they can all hold: no two of one kind on one detail, no pair limited twice, at most 20 for one ability, no smallest above a largest. |
| RuleSets.OnePinOfEach | domain/tool_rule.go:190-195 | Of the rules taken, those for one ability pin each input once at most. |
| RuleSets.PinFits | domain/tool_rule.go:157-165 | A pinned value conforms to what its input takes. |
| GateMeanings.SameValueExactly | domain/tool_rule.go:443-454 | Values are the same as equal numbers, as the same of true and false, or as the same words in any case. |
| GateMeanings.LimitsExactly | domain/tool_rule.go:277-284 | A largest or smallest allowed holds of exactly the calls whose number, if one is given, is within it. |
| GateMeanings.ListsExactly | domain/tool_rule.go:285-292 | What is allowed, or not allowed, holds of exactly the calls that give nothing or one of these, or none of them. |
| GateMeanings.ProductExactly | domain/tool_rule.go:300-313 | A limit on a product holds of exactly the calls that give both numbers and stay within it, but for a billionth. |
| GateMeanings.SameInputExactly | domain/prerequisite.go:162-180 | For what must come first, nothing is like nothing, text like text in any case, a number like an equal one, and others as their JSON. |
| GateMeanings.OnceKeyExactly | domain/hydrate.go:196-205 | Two calls act on one thing exactly when every input that tells things apart reads the same in both. |
| GateMeanings.SaysItFailedExactly | domain/prerequisite.go:211-229 | A result says it failed exactly by its status, its ok or its error. |
| GateMeanings.PreparedExactly | domain/prepare.go:18-33 | What goes on is the checked input, or what the prepare step put in its place. |
| GateMeanings.RanExactly | domain/prerequisite.go:201-209 | An ability has run, for what waits on it, exactly when an earlier call of it went through, does not say it failed, and had the same values. |
| GatedRun.Run.Has | domain/prerequisite.go:139-160 | The search of the journal finds exactly whether the ability ran with the same values. |
| GatedRun.Run.Waits | domain/prerequisite.go:249-281 | A call is held back exactly when something that must come first has not run. |
| GatedRun.Run.Admitted | domain/hydrate.go:35-98 | The gates outside the approvals are passed in their order, on the inputs each leaves for the next. |
| GatedRun.Run.Note | domain/prerequisite.go:201-209 | The journal and the once-only guard hold exactly what the calls so far say. |
| GatedRun.Run.Invoke | domain/hydrate.go:35-98 | A call goes through the whole stack, and every call of the run so far is good. |
| GatedRun.StageFacts | domain/hydrate.go:134-158 | What was approved is what the service is given, under the ability's own tool and the person's connection; what it says is what comes back, and what was stopped does not count as done. |
| GatedRun.IsGood | domain/hydrate.go:35-98 | A call that reaches the service gave it exactly what is on record and brings back what it said, keeps every rule, has every approval that was wanted, had what must come first run, was not done before, and is the checked input; one that the model is told was done went through, or one like it had. |
| GatePromises.ServedWhatIsSent | domain/hydrate.go:44-57 | In every run the service was called with exactly the inputs on record, for the ability's own tool, with the person's connection, the one just made, or none where none is needed, and its answer is the one the model got. |
| GatePromises.NothingUnchecked | domain/hydrate.go:131-158 | In every run, what was sent breaks no rule, and each approval wanted was granted on a prompt of that same input. |
| GatePromises.OncePerKey | domain/hydrate.go:160-205 | In every run, an ability that asks first goes through at most once for each thing it acts on. |
| GatePromises.ToldDoneWasDone | domain/hydrate.go:160-205 | In every run, a call the model is told was done went through, or an earlier call of that ability for the same thing did. |
| GatePromises.FirstRanBefore | domain/prerequisite.go:231-281 | In every run, what must come first went through earlier, for the values of the call. |
| GatePromises.WaitsForWhatIsSentExactly | domain/prerequisite.go:231-281 | The wait is one for the values sent, whatever ran before, exactly when those are the same as the call's. |
| GatePromises.WaitsOnlyForWhatIsSentExactly | domain/prerequisite.go:231-281 | And exactly then it turns back no call whose sent values ran, so that the two waits are one. |
| GatePromises.FirstRanForWhatIsSent | domain/prerequisite.go:231-281 | In every run, what must come first went through earlier for the very values sent, where they are the same as the call's. |
| GatePromises.LeftOutIsNotFound | domain/prerequisite.go:143-176 | A call that leaves out a value it waits for is never matched by one that had it. |
| GatePromises.SentAsCalled | domain/prerequisite.go:231-281 | So it is wherever those values are sent as called. |
| GatePromises.CheckedForAnotherPair | domain/prerequisite.go:231-281 | A call that goes through every gate with only the look-up for pair A behind it, and is sent for pair B, which is fixed. |
| GatePromises.CheckedAndTurnedBack | domain/prerequisite.go:231-281 | With the look-up for pair B behind it the same call is turned back, and so is one that leaves the pair out, though both would be sent for B. |
| GatePromises.SentConformsAndCarries | domain/hydrate.go:86-95 | Without a prepare step, what is sent conforms to the schema and carries every fixed value, for pins that fit and agree. |
| GatePromises.AcceptedRulesAreCarried | domain/hydrate.go:287-294 | So it is for rules that were taken for the agent and the capability, with nothing more asked of them than that the two agree on what both pin. |
| GatePromises.ReachesTheServiceExactly | domain/hydrate.go:35-98 | A call reaches the service exactly when nothing it waits for is missing, its input checks and prepares, keeps every rule, was not done before, and everyone asked agrees. |
| ConversationHost.Host.Enqueue | runtime/inbound.go:75-113 | A message joins its conversation's line, or opens one with a worker of its own. |
| ConversationHost.Host.Begin | runtime/inbound.go:92-96 | The worker's message becomes the current one. |
| ConversationHost.Host.End | runtime/inbound.go:99-111 | The next message is taken, or the line is closed when it is empty or the host shuts down. |
| ConversationHost.Host.Edit | runtime/editing.go:36-67 | New words replace those of a waiting message, cut short the turn of the current one and come next, or are passed on. |
| ConversationHost.WhereIsExactly | runtime/editing.go:36-67 | An edit is for the first waiting message of its id, else for the one being handled, else for none. |
| ConversationHost.AllKeysRight | runtime/inbound.go:75-113 | A step in one conversation leaves every other as it was. |
| ConversationPromises.OneWorkerEach | runtime/inbound.go:75-113 | In every interleaving a conversation has a line exactly when it has a worker, and never two, so at most one of its messages is handled at a time. |
| ConversationPromises.EachOnceInOrder | runtime/inbound.go:75-113 | Until the host shuts down, messages are begun in the order they came, none twice, and all of them once the line is gone. |
| ConversationPromises.BegunWithItsLastWords | runtime/editing.go:47-65 | A message is begun with the last words it was given. |
| ConversationPromises.NewWordsAreNext | runtime/editing.go:57-62 | While a turn is cut short its new words are next, and nothing else is out of turn. |
| ConversationPromises.Drain | runtime/inbound.go:91-112 | A line left alone empties, with every message begun. |
| KeepNeeded.Keep | runtime/requirements.go:157-195 | The loop over the growing list ends; what was offered stays first; everything in it has what it brings; each action put back is new and brought by an earlier one. |
| KeepNeeded.BringsExactly | runtime/requirements.go:170-193 | What an action brings: always what must run first, and, when it was picked or nothing was trimmed, what it relies on, or every look-up of a connection that does not list that. |
| KeepNeeded.LeastClosed | runtime/requirements.go:157-195 | With distinct names that is the least set that holds what was offered and all it brings. |
| KeepNeeded.KeepRequired | runtime/requirements.go:61-82 | Every action a request needs that there is is offered, and nothing else is added. |
| LearnDetails.MergeTyped | runtime/profile_learn.go:240-264 | An owned key shows the person's own field, any other the stored value, and the typed side fills gaps only. |
| LearnDetails.PutInto | runtime/profile_learn.go:175-184 | A detail takes the place of the first of its key, or the end. |
| LearnDetails.PutValue | runtime/profile_learn.go:166-184 | After putting, that key has that value and every other key the one it had. |
| Learning.Learner.Consider | runtime/profile_learn.go:267-323 | A proposal comes to exactly what its verdict says: nothing, a new detail, a confirmation, or a change to ask about. |
| Learning.Learner.ProposeChange | runtime/profile_learn.go:358-394 | The person is asked at most when it may be asked, and nothing changes unless they say yes. |
| Learning.Learner.Write | runtime/profile_learn.go:350-355 | A detail is written where it belongs, what is held follows, and nothing else changes. |
| Learning.ReplacedOnlyAfterYes | runtime/profile_learn.go:357-394 | Over an exchange, a held detail that has another value in the end has it from a yes to that very change. |
| Learning.ConsideredExactly | runtime/profile_learn.go:267-394 | What each proposal leads to, said of what is held and the judge's and the person's answers: nothing, a new detail, a confirmation, or a question and what its answer allows. |
| Learning.NewIsKept | runtime/profile_learn.go:336-347 | A permitted detail that lasts is kept where its scope held nothing, when it can be written. |
| Learning.ChangedAfterYes | runtime/profile_learn.go:358-394 | A held detail whose value differs is asked about when that may be, and has the new value after a yes that can be written. |
| Learning.StaysUnlessYes | runtime/profile_learn.go:357-394 | What is shown at any moment of an exchange is shown at its end, unless the person has said yes to something else since. |
| Learning.Learner.Learn | runtime/profile_learn.go:187-236 | The first eight proposals are each considered in their turn, and no other: the log is one stretch for each, as that proposal leads to; memory and stores agree with the log; at most two questions were asked; and each detail shows what it did before, or showed nothing before, or shows what the person said yes to. |

## Left out

- The HTTP interface, messengers, e-mail, model clients, MCP and websockets: plumbing around what is modelled.
- SQL text, JSON columns and scanning: a statement or transaction is one step on rows; unique keys and defaults are as the code relies on them, and a row's creation time is the clock at its step.
- Wording: of refusals, prompts, logs and questions, but for the texts that decide something or that a person is told as facts.
- Floating point: numbers are reals, so rounding in a product or in a whole number turned into a float is not modelled; formatting and parsing are uninterpreted.
- Text: case folding, upper case and JSON encoding are uninterpreted; trimming is modelled; in the live reader a character is one byte.
- JobQueue.RunKeeps: takes the marking and the taking of a lease as one instant; what two instants do is stated separately, exactly, by JobQueue.LeasingKeepsTheLimitExactly.
- JobLimits.AlwaysFair: needs that only live leases are extended, which the code leaves to the worker; what a late one does is stated separately, exactly.
- JobQueue.OnlyTheHolderMoves: needs distinct worker names, as a row records its holder by name.
- AgentLoop.Run: arguments that encode to the same JSON are taken to be the same arguments; an error is told by what it is, not by its words; the provider that answered and the notes shown of each step are not modelled.
- Providers.Providers.Ask: the time is read once for each call made, so two readings with no call between them agree; the waits between retries are not modelled.
- DuplicatePeople.FindGroups: the sorting of what is shown is not modelled; a person's id has a place in the order of ids, as a parameter.
- MergePeople.AlwaysFlat: saving a person with a forwarding pointer of its own and deleting people are not part of the runs; the tables other parts register are not modelled apart from their key.
- LiveDrafts.FieldGrows: what the decoder makes of one escape is a parameter; nothing is asked of it.
- ReplyWatching.Stream: one finish action in a step; with two at different places their drafts take turns.
- InputContract.CheckObject: problems are kept by the name of the input rather than found again in their rendered text, which decides no acceptance; a float32 that is not finite is not modelled.
- InputPromises.AcceptedExactly: uses that empty text is not a number.
- GateRules.FixedCarriedExactly: for rules that pin each input once at most in each of the two sets, which RuleSets.OnePinOfEach gives.
- GatePromises.WaitsForWhatIsSentExactly: asks of the texts compared that folding is an equivalence, and of the call's values that their JSON says whether they are text, a number or neither, which NaN, infinities and an empty json.Number do not.
- GateMeanings.OnceKeyExactly: for inputs whose text does not hold the separator the code joins them with.
- GateMeanings.SameInputExactly: for values other than NaN and the infinities.
- GatedRun.Run.Invoke: calls of one run follow one another; which prerequisites an ability gets from its capability and its own definition (domain/hydrate.go:247-282), and the binding of abilities, are not modelled; when to ask for the time zone is a parameter.
- ConversationHost.Host.Edit: an edit that arrives after a message was taken off its line and before it is marked as current is passed on, as in the code, so not every edit is applied; what passing on does afterwards is an arrival like any other.
- Learning.Learner.Learn: a write either happens as given or not at all; details the person's fields only imply are taken not to change during the exchange; which refused values are remembered is a parameter.
- Changing limits, counters, caches, stream slots and registries: easy members beside these.
