# A verified model of the sandbox manager, the chat projection and the offline tools

This project models ten components of the repository in Dafny and proves what they
promise: for every input, every run of the protocols, and every place where an
engine call or a save can fail. `dafny verify dfyconfig.toml` checks all of it.

How the components appear here:

- **Composite skills** (`CompositeSkill*.dfy`, `Text.dfy`). The line encoder and the
  line state machine that decodes it, as methods with loops, each proved against a
  functional specification; the round trip with the exact set of drafts it holds for.
- **Live session projection** (`SessionProjection.dfy`). A row is a map from property
  names to values. Ordering, merging, re-keying and the capped pre-header buffer.
- **Task containers** (`TaskContainers*.dfy`), **script jobs** (`ScriptJobs.dfy`),
  **plugin runtimes** (`PluginRuntimes*.dfy`) and **skill environments**
  (`SkillEnvironments*.dfy`). Each is a state machine whose steps are what one thread
  does between two points where another can run; engine calls, saves and restarts are
  free to fail or happen. Invariants hold in every state of every run. Classes with
  the source's own fields and methods run the same steps, with arbitrary interference
  from the other threads in between; the validity of such an object is that some run of
  the state machine reaches its state, so everything proved of runs holds of it. The
  task-container class keeps its leases as objects with a lock each, and a method that
  has to wait for a lock lets the others go on until it is free.
- **Dependency builds** (`SkillBuilds.dfy`) and **build records**
  (`SkillBuildRecords.dfy`). The loop over package sources with its nested clean-up, and
  the log window it writes to.
- **Offline package store** (`OfflinePackage*.dfy`). A tree from path components to
  content, import in three passes, export, and the laws between them.
- **Docker logs** (`DockerLogs.dfy`) and **environment files** (`EnvFile*.dfy`). The
  frame demultiplexer and the line merger, with loops proved against parsers and
  printers.

A specification that methods are proved against is itself tied to the data by a lemma that
does not use it: answers and checks are spelled out as equivalences over the table, the
archive, the rows or the text (`TaskContainersAnswers.dfy`, `OfflinePackageChecks.dfy`,
`SessionProjectionIdentity.dfy`, `EnvFileReading.dfy`, `CompositeSkillHeader.dfy`).

`Common.dfy` has the shared datatypes, sequence functions, counting, and induction
over runs. Runs that show a failure start from an empty manager and are built from what
one thread does while the others rest (`TaskContainersRuns.dfy`).

Where the code does less than its comments and names suggest, the model keeps the code
and says exactly when the promise holds:

- A composite skill survives saving only if it is storable (`RoundTrip`, `LostDraft`).
- A snapshot delivered twice can append rows twice, when it has keyless rows without a
  slot or repeats a new key (`MergeAgain`,
  `KeylessRowTwice`).
- A call can start on a frozen lease exactly when it was on its way there before
  (`FrozenCalls`, `CallOnFrozenLease`); a restart can thaw or lose a lease (`RestartOfTask`,
  `RestartThaws`, `RestartLoses`); overlapping disposes can forget a container
  (`StepForgets`, `OverlapForgets`); a failed call can remove the container of another call
  (`FailedCallDisposes`, `FailedCallRemovesOwn`, `FailedCallRemovesOther`).
- `ready_image` can raise a KeyError, because it names its image once and start names it
  again: when the image appears, the base image is re-tagged or the bundle loses its
  dependency files in between (`MissingFuture`, `MissingFutureAtCall`, `NothingExcludesIt`,
  `NoFutureHappens`).
- A build whose network clean-up raises leaves a record that says ready although the
  caller gets an exception (`SkillBuild.Build`, `RaisesThoughReady`), and a container whose attempt
  cannot be written stays (`LeavesUnrecorded`).
- Two names for one path defeat the digest check of an import (`AliasedNames`), and an
  existing file can stop an installation half-way (`HalfInstalled`).
- A line break in a value can inject a variable into an environment file
  (`OverrideExactly`, `BreakInjects`), and a second merge of the same updates can change
  the file again when a key is malformed (`MergeAgainExactly`, `SecondMergeAdds`).

## Model

| member | source | states |
|---|---|---|
| CompositeSkillRoundTrip.RoundTrip | apps/user-web/src/api/compositeSkill.ts:60-212 | for every draft of printable ASCII, decoding its encoding gives the same draft exactly when the draft is storable: no empty trigger, field or object, no quotation mark in a single-line value, no backslash in one that must be quoted, word-like keys, instructions neither blank nor a lone bar nor starting with an empty line |
| CompositeSkillRoundTrip.DecodeEncode | apps/user-web/src/api/compositeSkill.ts:60-212 | for every draft with word-like keys, storable or not, the decoder returns exactly the draft with what is lost named value by value (`Reload`) |
| CompositeSkillRoundTrip.LostDraft | apps/user-web/src/api/compositeSkill.ts:43-52 | a draft with a quotation mark in a trigger does not come back, whatever its name and description |
| CompositeSkillRoundTrip.ReloadRoundTrip | apps/user-web/src/api/compositeSkill.ts:74-104 | what comes back is the draft itself exactly when it is storable |
| CompositeSkillRoundTrip.StepRoundTrip | apps/user-web/src/api/compositeSkill.ts:79-104 | a step comes back unchanged exactly when each of its parts can be stored |
| CompositeSkillRoundTrip.InstructionRoundTrip | apps/user-web/src/api/compositeSkill.ts:80-83 | an instruction, in one line or in many, comes back and is kept exactly when it is not blank, does not begin with an empty line, is not a lone bar and survives quoting |
| CompositeSkillRoundTrip.LocatorsRoundTrip | apps/user-web/src/api/compositeSkill.ts:87-97 | locators come back exactly when the object and each operation is non-empty and every field has a value that survives quoting; absent and empty fields are dropped |
| CompositeSkillRoundTrip.VarsRoundTrip | apps/user-web/src/api/compositeSkill.ts:98-103 | locator variables come back exactly when there are some and every value survives quoting |
| CompositeSkillRoundTrip.OptionalRoundTrip | apps/user-web/src/api/compositeSkill.ts:84-86 | an optional field comes back exactly when it is absent, or non-empty and survives quoting |
| CompositeSkillRoundTrip.DecodedWords | apps/user-web/src/api/compositeSkill.ts:163-199 | whatever text is decoded, all object keys of the result are made of letters and underscores, so no other key can ever come back |
| CompositeSkillText.ScalarRoundTrip | apps/user-web/src/api/compositeSkill.ts:43-52 | a printed single-line value is read back as itself exactly when it has no quotation mark and, if it has to be quoted, no backslash |
| CompositeSkillText.DumpShape | apps/user-web/src/api/compositeSkill.ts:47-52 | the printed form is never blank, has no outer spaces and stays on one line, so the line patterns can read it |
| CompositeSkillText.IntTextParses | apps/user-web/src/api/compositeSkill.ts:94 | a printed `nth` is read back as the same number |
| CompositeSkillText.FrontMatterOf | apps/user-web/src/api/compositeSkill.ts:105-116 | the lines printed between the two fences are the lines the fence pattern recovers |
| CompositeSkillCodec.EncodeCompositeSkill | apps/user-web/src/api/compositeSkill.ts:60-107 | the pushing loops print a text that decodes back to the draft exactly when it is storable, and whose margin reads as its name, its description, its triggers and its steps |
| CompositeSkillHeader.HeaderRoundTrip | apps/user-web/src/api/compositeSkill.ts:64-77 | read by the keys at the margin and blocks of indented lines, a printed skill has the name as its second line and the description after it, each read back exactly when it survives as a scalar, a description of several lines always; the keys at the margin are those of the parts that are there, in order, and no others |
| CompositeSkillText.LineEndings | apps/user-web/src/api/compositeSkill.ts:105-112 | carriage returns at the ends of lines make no difference to the lines that are decoded |
| CompositeSkillCodec.DecodeCompositeSkill | apps/user-web/src/api/compositeSkill.ts:113-212 | the loop over lines with its section, nested, operation and current-step variables computes the specified decoding of any text |
| CompositeSkillCodec.ReadStepLine | apps/user-web/src/api/compositeSkill.ts:162-207 | one line inside a step changes the step and the nesting state as the chain of patterns says, whatever has been read before |
| CompositeSkillCodec.PushStep | apps/user-web/src/api/compositeSkill.ts:79-104 | one step pushes its lines, in order, after the lines already there |
| SessionProjection.MergeAgain | apps/user-web/src/composables/sessionLiveProjection.ts:125-170 | delivering the same snapshot again changes nothing exactly when every row the first delivery appended has a key and no two of them share it |
| SessionProjection.KeylessRowTwice | apps/user-web/src/composables/sessionLiveProjection.ts:125-170 | which fails for every snapshot of one keyless row: it is appended each time it arrives |
| SessionProjection.MergeTheorem | apps/user-web/src/composables/sessionLiveProjection.ts:125-170 | for a snapshot of distinctly keyed rows no key is repeated, no keyless runtime row and no key is lost, runtime rows keep their places, and a second delivery changes and appends nothing |
| SessionProjection.MergePermutationInvariant | apps/user-web/src/composables/sessionLiveProjection.ts:70-87 | a snapshot whose rows all have distinct sequence numbers of at least 1 gives the same chat in whatever order it arrives |
| SessionProjection.OrderSpec | apps/user-web/src/composables/sessionLiveProjection.ts:84-87 | ordering rearranges: into the one ascending arrangement when every row is allocated, and not at all otherwise |
| SessionProjection.MergeRetains | apps/user-web/src/composables/sessionLiveProjection.ts:99-114 | no runtime row loses its identity, its execution store or a non-empty body to a snapshot, and rows the snapshot does not mention stay as they are |
| SessionProjection.MergeRowRetains | apps/user-web/src/composables/sessionLiveProjection.ts:99-114 | property by property, what a merged row keeps of the runtime row and what it takes from the snapshot |
| SessionProjection.MergeRowTwice | apps/user-web/src/composables/sessionLiveProjection.ts:99-114 | merging a snapshot row into a row twice is merging it once |
| SessionProjection.MergeRowKey | apps/user-web/src/composables/sessionLiveProjection.ts:99-114 | a merged row keeps the key its two rows have in common |
| SessionProjection.FirstPerKeySpec | apps/user-web/src/composables/sessionLiveProjection.ts:125-142 | the base has every key of the runtime rows once, no other key, and all keyless rows in order |
| SessionProjection.FirstPerKeyPlaces | apps/user-web/src/composables/sessionLiveProjection.ts:125-142 | the base is made of exactly the keyless rows and the first rows of their keys, each once and in the old order |
| SessionProjection.MergeAuthoritativeMessages | apps/user-web/src/composables/sessionLiveProjection.ts:125-170 | the loops over base, snapshot and slots return the specified chat, matched and appended keys, and the number of rows preserved |
| SessionProjectionIdentity.MergePairwise | apps/user-web/src/composables/sessionLiveProjection.ts:61-67 | that result is the merge that compares rows in pairs by message id and server key alone: the first row of each identity is kept in place and merged with the last snapshot row that is the same row, the others are appended in order, with the keys reported and the number of rows preserved |
| SessionProjectionIdentity.OneOrTwo | apps/user-web/src/composables/sessionLiveProjection.ts:125-170 | a row and a snapshot row become one exactly when they have the same message id, or without message ids the same server key, or the server key of one names the message of the other; otherwise both stay |
| SessionProjectionIdentity.ServerKeyDecides | apps/user-web/src/composables/sessionLiveProjection.ts:61-67 | rows without message ids are one row exactly when they have the same non-empty server key, which is then the matched key |
| SessionProjectionIdentity.MergeCounts | apps/user-web/src/composables/sessionLiveProjection.ts:125-170 | preserved and mentioned rows add up to the base, matched and appended rows to the snapshot |
| SessionProjection.BuildBase | apps/user-web/src/composables/sessionLiveProjection.ts:130-141 | the first loop builds the first row of every key and an index that holds exactly the keys of the base, each at its row |
| SessionProjection.MatchSnapshot | apps/user-web/src/composables/sessionLiveProjection.ts:142-156 | the second loop collects for every base row the last snapshot row of its key, and appends the rows without a slot in order |
| SessionProjection.FillSlots | apps/user-web/src/composables/sessionLiveProjection.ts:157-167 | the third loop puts the collected rows into the slots of the base, in order, and counts the rows left alone |
| SessionProjection.HasFullyAllocatedSeq | apps/user-web/src/composables/sessionLiveProjection.ts:70-80 | true exactly when all rows have integral sequence numbers of at least 1 and no two are equal |
| SessionProjection.RuntimeRow.ApplyEffectiveUserMessageId | apps/user-web/src/composables/sessionLiveProjection.ts:175-182 | sets the message id exactly when a non-empty, different one is given, and reports whether it did |
| SessionProjection.RekeyedRowMatches | apps/user-web/src/composables/sessionLiveProjection.ts:175-182 | after re-keying, the snapshot row of the effective id is never appended but reconciled into the slot of that id, which is the slot of the re-keyed row exactly when no earlier row has the id already |
| SessionProjection.PreHeaderBuffer.BufferPreHeaderEvent | apps/user-web/src/composables/sessionLiveProjection.ts:232-249 | after any frames the buffer holds all of them in order with their exact size while both caps hold, and nothing once a cap is exceeded |
| SessionProjection.PreHeaderBuffer.DrainPreHeaderEvents | apps/user-web/src/composables/sessionLiveProjection.ts:254-264 | draining returns precisely the foreign frames in order, or nothing after an overflow, and starts over |
| SessionProjection.OverflowIsFinal | apps/user-web/src/composables/sessionLiveProjection.ts:238-244 | once the frames exceed a cap no further frame makes them fit, so the flag is decided by all frames offered |
| TaskContainersSafety.RunInvariant | services/sandbox-manager/app/task_containers.py:34-200 | in every state of every interleaving of execute, dispose and freeze, from any lease file, with failing engine calls and saves and restarts at any point, inside the creation of a container too: locks and slots are held by exactly the threads inside them, the capacity holds, and the file lags behind the table only by failed saves and freezes in progress |
| TaskContainersSafety.ReachableRun | services/sandbox-manager/app/task_containers.py:34-200 | the states in which a manager object is valid are exactly the last states of the runs, so what is proved of either holds of both |
| TaskContainersProperties.ExclusionAndBounds | services/sandbox-manager/app/task_containers.py:63-89 | at most one call or freeze is active per lease, at most the configured number of calls run at once, and neither table nor file exceeds the capacity, or the length of the file read at the start if that is larger |
| TaskContainersProperties.NoWaitCycle | services/sandbox-manager/app/task_containers.py:63-126 | threads waiting for each other climb the order slot, lease lock, table lock; so a chain of waits has at most four threads and never closes |
| TaskContainersProperties.SomeoneRuns | services/sandbox-manager/app/task_containers.py:63-126 | behind every thread that is stuck there is one that can take a step; only with no slots at all a call waits in vain |
| TaskContainersProperties.CanDrain | services/sandbox-manager/app/task_containers.py:63-126 | from every reachable state all calls under way can be finished without a timeout or a failure, after which every slot and lock is free |
| TaskContainersLeases.LeasesKept | services/sandbox-manager/app/task_containers.py:63-148 | no step changes the digest of a lease; only a restart drops one from memory, or thaws one, and thaws it only if its stored row is not frozen |
| TaskContainersLeases.QuietStays | services/sandbox-manager/app/task_containers.py:73-84 | until a restart, a frozen lease that no thread is on its way to call stays frozen and without such a thread |
| TaskContainersLeases.FrozenCalls | services/sandbox-manager/app/task_containers.py:73-84 | some continuation without a restart calls a frozen lease exactly when there are slots and some thread is already on its way to call it |
| TaskContainersRuns.CallOnFrozenLease | services/sandbox-manager/app/task_containers.py:73-78 | which a run from an empty manager reaches: a call on a lease frozen, and saved as frozen, while the call waited for its slot |
| TaskContainersLeases.StoredIsTable | services/sandbox-manager/app/task_containers.py:142-148 | with no save lost and no freeze waiting to be saved the file is exactly the lease table |
| TaskContainersLeases.RestartOfTask | services/sandbox-manager/app/task_containers.py:128-140 | in every reachable state, whatever saves have failed: after a restart a task has the lease it had, with its digest and freeze bit, or none if its container does not answer, exactly when its lease is in the file, its row is frozen if the lease is, and the file has no lease that memory had given up |
| TaskContainersLeases.RestartBits | services/sandbox-manager/app/task_containers.py:128-140 | the leases that come back have their old freeze bits exactly when each frozen one of them has a frozen row |
| TaskContainersLeases.LostOnlyByFailedSave | services/sandbox-manager/app/task_containers.py:128-148 | only a failed save loses or resurrects a lease; a thawed one needs a failed save or a freeze in progress |
| TaskContainersLeases.RestartExact | services/sandbox-manager/app/task_containers.py:128-140 | with no save lost and no freeze in progress a restart brings back exactly the leases whose container answers, with the same digest and freeze bit |
| TaskContainersRuns.RestartThaws | services/sandbox-manager/app/task_containers.py:115-126 | a reachable state between the kill and the save of a freeze, from which a restart brings the lease back thawed |
| TaskContainersRuns.RestartLoses | services/sandbox-manager/app/task_containers.py:67-72 | a reachable state after the failed save of a new lease, from which a restart forgets the lease and its container |
| TaskContainersLeases.StepForgets | services/sandbox-manager/app/task_containers.py:97-200 | when every container is a lease's or its maker's, a step breaks this exactly if it pops a task that by then has a live lease, fails to clean up a failed start, or is a restart with a container that has no row or does not answer |
| TaskContainersLeases.NoContainerForgotten | services/sandbox-manager/app/task_containers.py:97-148 | as long as no two disposes of one task overlap, a run from a start that knows all containers forgets a container only in a failed clean-up of a failed start or in such a restart |
| TaskContainersRuns.OverlapForgets | services/sandbox-manager/app/task_containers.py:97-113 | overlapping disposes with a new call in between do forget one |
| TaskContainersLeases.TaskKeepsLeaseAfter | services/sandbox-manager/app/task_containers.py:63-113 | a task has one and the same lease from one moment of a run to another unless a pop of that task or a restart happens in between |
| TaskContainersLeases.FailedCallDisposes | services/sandbox-manager/app/task_containers.py:79-89 | a failed call removes the lease it called exactly when the table still has that one under its task, and then no other thread uses it |
| TaskContainersFailures.FailedCallRemovesOwn | services/sandbox-manager/app/task_containers.py:79-113 | along a run, from the step at which a call gets its lease to the step at which, after a failure, it looks up what to dispose: it removes the lease it called exactly when nobody has popped its task in between, and then no other thread uses that lease |
| TaskContainersRuns.FailedCallRemovesOther | services/sandbox-manager/app/task_containers.py:79-113 | otherwise it can remove the container of a newer lease while another call is running in it |
| TaskContainersManager.TaskManager.Admit | services/sandbox-manager/app/task_containers.py:63-74 | with anything the others do, the section under the table lock refuses, or leaves the thread waiting for a slot with a lease; undisturbed, the call is admitted exactly when its task has an unfrozen lease of its digest, or has none, there is room, and creation and save work, and each refusal is given exactly in its own case of table, capacity, digest, freeze bit and failures; the state is the specified one |
| TaskContainersManager.TaskManager.MakeLease | services/sandbox-manager/app/task_containers.py:150-200 | the creation of a lease ends as its engine calls and its save do, with the table lock given back on every path; undisturbed, with the stated container, table and file |
| TaskContainersManager.TaskManager.Dispose | services/sandbox-manager/app/task_containers.py:97-113 | the thread ends idle with the answer the failures allow; undisturbed, the lease goes exactly when all clean-up worked, with table, file and engine as stated for every combination of failures |
| TaskContainersManager.TaskManager.Call | services/sandbox-manager/app/task_containers.py:75-89 | with slots and locks contended by others, slot and lease lock are given back on every path; undisturbed, it times out exactly without a free slot in time, and a failed call disposes what the table has for its task, with every way its clean-up can end |
| TaskContainersManager.TaskManager.Execute | services/sandbox-manager/app/task_containers.py:48-95 | whatever the others do in between, the thread ends with no slot and no lock, and the answer is one the engine and the file system allow; undisturbed, the call succeeds exactly when it has a usable or a new lease, a slot in time and an engine call that works, each error is given exactly in its own case, and the state is the specified one |
| TaskContainersAnswers.AdmissionExactly | services/sandbox-manager/app/task_containers.py:63-74 | reuse, creation and each refusal of the section under the table lock, said of the table, the lease and the capacity alone |
| TaskContainersAnswers.AnswerExactly | services/sandbox-manager/app/task_containers.py:63-95 | each answer of a whole call, said of the table, the slots and the failures alone |
| TaskContainersAnswers.EntersExactly | services/sandbox-manager/app/task_containers.py:63-74 | in the protocol a call that enters the table waits with the lease of its task exactly when that is usable, begins to create exactly when the task has none and there is room, and is turned away otherwise |
| TaskContainersAnswers.DisposeExactly | services/sandbox-manager/app/task_containers.py:97-113 | what a dispose leaves of container, table and file, and its answer, for all combinations of failures |
| TaskContainersAnswers.FreezeExactly | services/sandbox-manager/app/task_containers.py:115-126 | a freeze that works sets the bit of its task's lease and changes no other lease, and its answer for all combinations of failures |
| TaskContainersRuns.SecondCallReuses | services/sandbox-manager/app/task_containers.py:63-95 | for every digest a run from an empty manager in which a second call runs in the container of the first, and no other was made |
| TaskContainersCalls.ExecuteUses | services/sandbox-manager/app/task_containers.py:63-95 | a call that ran has a thawed lease of its digest under its task, every other task keeps its lease, and if the task had a lease before nothing at all has changed |
| TaskContainersCalls.ExecuteRefuses | services/sandbox-manager/app/task_containers.py:63-74 | a refused call leaves everything as it was, but for the lease whose save failed and the container of a failed start that could not be removed |
| TaskContainersCalls.ExecuteFails | services/sandbox-manager/app/task_containers.py:79-89 | after a failed call whose clean-up worked the task has no lease |
| TaskContainersCalls.ExecuteSynced | services/sandbox-manager/app/task_containers.py:63-113 | a table that was saved stays saved through a whole call unless a save fails |
| TaskContainersManager.TaskManager.Freeze | services/sandbox-manager/app/task_containers.py:115-126 | the lock is given back on every path; undisturbed, only the freeze bit of this lease changes, only if the kill worked, and the file follows if the save works |
| TaskContainersManager.TaskManager.constructor | services/sandbox-manager/app/task_containers.py:34-46 | a manager started on any lease file with one row per container is in the state the protocol starts from: exactly the rows whose container answers |
| TaskContainersManager.TaskManager.Restore | services/sandbox-manager/app/task_containers.py:128-140 | reading the file row by row, in any order and of any length, makes a lease object for exactly the rows whose container answers, and saves them |
| TaskContainersManager.TaskManager.SaveTable | services/sandbox-manager/app/task_containers.py:142-148 | the file becomes the rows of the table or stays as it was |
| TaskContainersManager.TaskManager.Others | services/sandbox-manager/app/task_containers.py:48-126 | whatever the other threads do, the objects and fields stay those of a reachable state, and this thread stays where it is |
| TaskContainersManager.TaskManager.Await | services/sandbox-manager/app/task_containers.py:63-126 | waiting for the table lock or a lease lock ends: the threads behind it can always go on until it is free |
| ScriptJobs.SlotConservation | services/sandbox-manager/app/jobs.py:68-144 | in every state of every interleaving free slots, running jobs and slots held but not counted add up to the capacity |
| ScriptJobs.RunInvariant | services/sandbox-manager/app/jobs.py:52-144 | pending and running count exactly the threads at the places they stand for, and every engine object is some running thread's to remove or its removal has raised |
| ScriptJobs.QueueLimit | services/sandbox-manager/app/jobs.py:64-67 | the queue grows only by one and only while it is below the limit in force |
| ScriptJobs.QueueBounded | services/sandbox-manager/app/jobs.py:35-41 | however the limit is changed, the queue stays within 100 or the initial limit |
| ScriptJobs.AllGivenBack | services/sandbox-manager/app/jobs.py:129-144 | when no call is active nothing is pending or running, all slots are free and only objects whose removal raised are left |
| ScriptJobs.ReleaseFits | services/sandbox-manager/app/jobs.py:142-144 | the release of the bounded semaphore never exceeds its bound |
| ScriptJobs.NothingLeftBehind | services/sandbox-manager/app/jobs.py:64-144 | a call that has come and gone leaves the counters as they were, if the other threads are where they were |
| ScriptJobs.JobManager.Execute | services/sandbox-manager/app/jobs.py:52-144 | on every path, with anything the other threads do in between, the thread ends holding no place in the queue and no slot; with nobody else moving, the result is exactly the one the checks, the queue, the slots and the engine decide, and the counters are as before |
| ScriptJobs.VerdictExactly | services/sandbox-manager/app/jobs.py:52-144 | each answer of a call nobody disturbs, said of the engine's outcomes, the queue and the slots alone; a failed clean-up hides a failed engine call |
| ScriptJobs.JobManager.WaitForSlot | services/sandbox-manager/app/jobs.py:64-74 | a call is refused exactly when the queue is at its limit; otherwise it ends counted as running, or gave up and is counted nowhere |
| ScriptJobs.JobManager.RunContainer | services/sandbox-manager/app/jobs.py:78-128 | the first engine call that raises ends the run; network and container are owned exactly when they were made |
| ScriptJobs.JobManager.CleanUp | services/sandbox-manager/app/jobs.py:129-144 | every block of the nested clean-up is reached whatever the one before raised, and the slot comes back |
| ScriptJobs.JobManager.SetMaxPending | services/sandbox-manager/app/jobs.py:35-41 | the limit changes exactly when the value lies in 0 to 100 and was saved |
| PluginRuntimes.MemoryWithinFile | services/sandbox-manager/app/plugin_runtimes.py:143-166 | in every state of every run, whatever saves failed, each lease in memory is in the file, unchanged |
| PluginRuntimes.RestartForgetsNoLease | services/sandbox-manager/app/plugin_runtimes.py:27-29 | a restart at any moment has every lease that was in memory, and orphans only the objects of builds in progress |
| PluginRuntimes.OneLeasePerKey | services/sandbox-manager/app/plugin_runtimes.py:40-56 | memory and file hold at most one lease per isolation key in all states of all runs exactly when the table loaded at the start does |
| PluginRuntimes.OneCreatePerKey | services/sandbox-manager/app/plugin_runtimes.py:40-48 | a key is reserved exactly while one create call for it is under way, and never by two |
| PluginRuntimes.NothingForgotten | services/sandbox-manager/app/plugin_runtimes.py:50-166 | when no call is active no key is reserved and every object of the engine belongs to a lease in memory or was lost to a failed clean-up or a restart |
| PluginRuntimes.LeaseLeavesClean | services/sandbox-manager/app/plugin_runtimes.py:158-166 | a lease never changes and leaves memory only when the engine has neither its container nor its network |
| PluginRuntimes.InsertGrants | services/sandbox-manager/app/plugin_runtimes.py:143-149 | a saved insert leaves the new lease as the only one of its key; a failed save leaves both tables as they were |
| PluginRuntimes.LostOnlyByFailure | services/sandbox-manager/app/plugin_runtimes.py:151-156 | an object is lost only to a failed removal after a failed build, or to a restart |
| PluginRuntimes.WaitFree | services/sandbox-manager/app/plugin_runtimes.py:35-166 | however many steps the others take in between, a call of create or dispose takes at most nine more steps of its own, and until it is over it can always take the next one |
| PluginRuntimesManager.PluginManager.Create | services/sandbox-manager/app/plugin_runtimes.py:35-48 | the key is given back on every path; with nobody else about, it succeeds exactly when the key is free, the old lease could be disposed and the build works, and then has one new lease of the key in memory and file, in place of the old one and, unless the loaded table had several of that key, as the only one; failure can at most have disposed the old one |
| PluginRuntimesManager.PluginManager.Replace | services/sandbox-manager/app/plugin_runtimes.py:50-156 | disposes what the key has and builds, and touches no lease of another key |
| PluginRuntimesManager.PluginManager.Dispose | services/sandbox-manager/app/plugin_runtimes.py:158-166 | the lease goes from memory exactly when its whole clean-up works, and from the file when the save works as well |
| PluginRuntimesManager.PluginManager.Build | services/sandbox-manager/app/plugin_runtimes.py:76-156 | a lease exactly when every engine call and the save work; otherwise both tables are as before |
| PluginRuntimesManager.PluginManager.InsertLease | services/sandbox-manager/app/plugin_runtimes.py:143-149 | insert, save, and on a failed save the pop that restores the table |
| PluginRuntimesManager.PluginManager.CleanUp | services/sandbox-manager/app/plugin_runtimes.py:168-196 | all calls that apply are made whatever raised before them, and the first error is the one reported |
| PluginRuntimesManager.ErrorsExactly | services/sandbox-manager/app/plugin_runtimes.py:168-196 | a clean-up reports exactly the calls that apply and raise, the container's first, and nothing exactly when all of them work |
| PluginRuntimesManager.PluginManager.FindLease | services/sandbox-manager/app/plugin_runtimes.py:51-53 | the search through the leases finds one of the key if there is one |
| SkillEnvironments.OneUnfinishedBuild | services/sandbox-manager/app/skill_environments.py:65-76 | in every state of every run there is at most one unfinished build per image, it is the one in the table, and at most one build runs |
| SkillEnvironments.OnlyRetryReplacesFailure | services/sandbox-manager/app/skill_environments.py:71-76 | a future is replaced only when its build is over, and a failed one only by start with retry_failed; no entry ever disappears |
| SkillEnvironments.OutcomeIsFinal | services/sandbox-manager/app/skill_environments.py:71-76 | no step changes the outcome of a finished build |
| SkillEnvironments.BuildReachesCaller | services/sandbox-manager/app/skill_environments.py:85-94 | a caller that waits for a running build is told the image when it succeeds, the failure when it does not, and that it goes on before its end |
| SkillEnvironmentsFutures.MissingFuture | services/sandbox-manager/app/skill_environments.py:66-93 | when ready_image, having named an image, asks the engine for it, and outside disturbances of given kinds (the image appears, the base image is re-tagged, the bundle loses its dependency files) may happen during the rest of the call: it can come to raise a KeyError exactly when the engine has no such image, the table has no entry for it, and some kind is allowed or the name has moved already |
| SkillEnvironmentsFutures.MissingFutureAtCall | services/sandbox-manager/app/skill_environments.py:78-86 | at the start of a call of ready_image for a bundle whose base image, files and images stay: it can come to raise a KeyError exactly when the bundle needs an image that the engine does not have and the table has no entry for |
| SkillEnvironmentsFutures.NothingExcludesIt | services/sandbox-manager/app/skill_environments.py:49-86 | where the base image may be re-tagged and the bundle replaced, no state before the call excludes the KeyError, because start works out the name once more |
| SkillEnvironmentsFutures.NoFutureHappens | services/sandbox-manager/app/skill_environments.py:78-86 | for every bundle with dependencies there is a run from an empty manager, with the base image and the bundle left alone, whose first call ends in the KeyError |
| SkillEnvironments.WaitFree | services/sandbox-manager/app/skill_environments.py:65-108 | whatever the others, the worker and the engine do, a call of start, status or ready_image takes at most ten more steps of its own, both namings included, and until it is over it can always take the next one |
| SkillEnvironments.EveryBuildEnds | services/sandbox-manager/app/skill_environments.py:37-75 | in every run each submitted build costs the single worker two steps, neither more nor less: all builds are finished exactly when it has taken them, and as long as it has not it can take the next one |
| SkillEnvironmentsManager.EnvironmentTable.SubmitBuild | services/sandbox-manager/app/skill_environments.py:71-75 | a build is submitted exactly when there is none, the last one succeeded, or it failed and a retry is wanted; other entries stay |
| SkillEnvironmentsManager.EnvironmentTable.ImageName | services/sandbox-manager/app/skill_environments.py:49-63 | the name of the image under the base image there is, none for a bundle without dependency files, or an exception for a bundle that is missing, malformed or ambiguous, for a missing base image and for an engine call that raises; with nobody else about exactly the specified one |
| SkillEnvironmentsManager.EnvironmentTable.Start | services/sandbox-manager/app/skill_environments.py:65-76 | with nobody else about the specified answer: an exception without a name, not required, ready exactly when the engine has the image, failed exactly when the last build failed and no retry is wanted, else preparing; with anybody about one of these |
| SkillEnvironmentsManager.EnvironmentTable.CheckStatus | services/sandbox-manager/app/skill_environments.py:96-108 | with nobody else about the same answer as start without retry; a missing future starts a build |
| SkillEnvironmentsManager.EnvironmentTable.ReadyImage | services/sandbox-manager/app/skill_environments.py:78-94 | an image of the bundle, the base image, a failure, a timeout or an exception; never the KeyError where nobody re-tags the base image, replaces the bundle or brings in an image of it; with nobody else about the specified answer |
| SkillBuilds.SkillBuild.Build | services/sandbox-manager/app/skill_environments.py:120-220 | with engine calls and writes to the record free to raise: a later source is tried only after a retryable failure; a container goes exactly when its attempt could be written and its removal worked; the record ends ready when a source succeeded, else failed, else, if that cannot be written, as it was; the image is returned exactly when a source succeeded and the network was cleaned up; the raise after the loop is never reached |
| SkillBuilds.RaisesThoughReady | services/sandbox-manager/app/skill_environments.py:212-220 | a build whose record says ready although its caller gets an exception |
| SkillBuilds.LeavesUnrecorded | services/sandbox-manager/app/skill_environments.py:202-210 | a container that stays because neither write of its attempt worked |
| SkillBuilds.SkillBuild.TrySources | services/sandbox-manager/app/skill_environments.py:169-211 | the loop stops at the first source that prepares the image or fails for good, with attempts and leftovers of exactly the sources tried |
| SkillBuilds.SkillBuild.TrySource | services/sandbox-manager/app/skill_environments.py:171-210 | one source: outcome, record entries and engine afterwards for every combination of failures, the capture in the inner clean-up included |
| SkillBuilds.OneAttemptEach | services/sandbox-manager/app/skill_environments.py:202-210 | at most one attempt is recorded per container, and one for each exactly when one of the two writes worked for each |
| SkillBuilds.RecordedCodes | services/sandbox-manager/app/skill_environments.py:182-210 | an attempt is recorded with the exit code of its container if that was seen and written in time and with -1 otherwise, so with 0 only if the container ended with 0 |
| SkillBuilds.TriedInTurn | services/sandbox-manager/app/skill_environments.py:170-201 | every source but the last one tried failed for a reason that may pass, on record and cleaned up, and a next one is not tried otherwise |
| SkillBuilds.UnrecordedStay | services/sandbox-manager/app/skill_environments.py:202-210 | at least as many containers are left behind as have no recorded attempt |
| SkillBuilds.NothingLeft | services/sandbox-manager/app/skill_environments.py:202-210 | no container is left exactly when for each the attempt could be written and the removal worked |
| OfflinePackageManager.PackageStore.ImportArchive | services/sandbox-manager/app/offline_package_store.py:120-191 | no file changes unless every entry and every target has passed its checks; the import succeeds exactly when the archive fits the host, its entries are files of a kind with the declared sizes and digests, side by side and within the limits, and the store has room for each; the tree afterwards, and where it stops otherwise |
| OfflinePackageChecks.ImportsExactly | services/sandbox-manager/app/offline_package_store.py:120-191 | the condition of an import, with kinds, limits, names, sizes, digests, images and targets written out |
| OfflinePackageChecks.AcceptableExactly | services/sandbox-manager/app/offline_package_store.py:120-149 | the manifest check passes exactly for an archive that fits the host: size, version, machine, the same names in manifest and archive, and for packages of skills or plugins the image they were prepared for |
| OfflinePackageProperties.DeclaredDigests | services/sandbox-manager/app/offline_package_store.py:151-189 | after an import every declared path holds content with its declared digest exactly when no two names mean one path with different digests |
| OfflinePackageProperties.AliasedNames | services/sandbox-manager/app/offline_package_store.py:151-189 | which fails for an archive naming one file as pip/a and pip//a: all checks pass and the file has the content of the second name |
| OfflinePackageProperties.ImportTwice | services/sandbox-manager/app/offline_package_store.py:120-191 | a second import of an archive is accepted exactly under the same condition, and then changes nothing |
| OfflinePackageProperties.ImportsCommute | services/sandbox-manager/app/offline_package_store.py:168-190 | two archives that can follow each other leave the same store in either order |
| OfflinePackageProperties.OrderDoesNotMatter | services/sandbox-manager/app/offline_package_store.py:168-190 | and whether the second is accepted does not depend on the order |
| OfflinePackageProperties.EarlierFilesKept | services/sandbox-manager/app/offline_package_store.py:178-190 | no import, complete or not, changes or removes an earlier file |
| OfflinePackageProperties.AddedFilesVerified | services/sandbox-manager/app/offline_package_store.py:151-190 | whatever an import adds, complete or not, is a verified entry |
| OfflinePackageProperties.HalfInstalled | services/sandbox-manager/app/offline_package_store.py:178-190 | an import can pass every check and stop half-way: an existing file is where a later entry needs a directory |
| OfflinePackageProperties.InstalledWellFormed | services/sandbox-manager/app/offline_package_store.py:178-190 | the store stays a tree of named directories and files after every entry |
| OfflinePackageExport.ExportImport | services/sandbox-manager/app/offline_package_store.py:74-191 | importing an export into an empty store of the same machine succeeds exactly within the size limits and reproduces exactly the eligible, selected files |
| OfflinePackageExport.ExportListed | services/sandbox-manager/app/offline_package_store.py:102-115 | the manifest of an export lists exactly the entries of the archive, each once |
| OfflinePackageChecks.ExportTakes | services/sandbox-manager/app/offline_package_store.py:102-115 | a file is in an export exactly when it is in the store, is no lock file, is not in a partial directory, and is selected if any are; with its content |
| OfflinePackageChecks.ExportElsewhere | services/sandbox-manager/app/offline_package_store.py:88-101 | another host accepts the manifest of an export exactly when it is the same kind of machine and has the images its packages were prepared for, within the limits |
| OfflinePackageChecks.OtherImageRefused | services/sandbox-manager/app/offline_package_store.py:136-145 | a host with another base image imports no archive with skill packages, into whatever store |
| OfflinePackageStore.PartsOfJoin | services/sandbox-manager/app/offline_package_store.py:109-153 | the exported name of a path is read back as that path |
| OfflinePackageStore.InstalledFiles | services/sandbox-manager/app/offline_package_store.py:178-190 | a path is there after the installation exactly when it was there or an entry names it; old content wins, otherwise the last staged content |
| OfflinePackageManager.CheckListing | services/sandbox-manager/app/offline_package_store.py:130-133 | the comparison of sets and sizes accepts exactly the manifests that list every entry of the archive once |
| OfflinePackageManager.CheckManifest | services/sandbox-manager/app/offline_package_store.py:121-149 | accepts exactly the archives whose size, host, manifest, images and total size are acceptable, and names the first check that fails, the images of skill and of plugin packages included |
| OfflinePackageManager.Stage | services/sandbox-manager/app/offline_package_store.py:150-167 | accepts exactly the entries whose path, size and digest are right and which can be unpacked side by side; the staged content of a path is that of its last entry |
| OfflinePackageManager.PackageStore.CheckConflicts | services/sandbox-manager/app/offline_package_store.py:168-177 | accepts exactly when every target is new or a file with the declared digest |
| OfflinePackageManager.PackageStore.Install | services/sandbox-manager/app/offline_package_store.py:178-190 | installs all entries exactly when no file is in the way, otherwise those before the first that is blocked |
| OfflinePackageManager.PackageStore.ExportTo | services/sandbox-manager/app/offline_package_store.py:74-118 | fails exactly when a selected file is missing, an image is unknown or the archive is too large; otherwise returns the specified archive |
| DockerLogs.AcceptedAreFrames | services/sandbox-manager/app/docker_engine.py:10-41 | the accepted logs are exactly the concatenations of frames, each of one list of frames only |
| DockerLogs.ParseEncode | services/sandbox-manager/app/docker_engine.py:14-22 | reading the written form of any frames gives the frames back |
| DockerLogs.EncodeParse | services/sandbox-manager/app/docker_engine.py:14-22 | an accepted log is byte for byte the frames it is read as |
| DockerLogs.SplitDockerLogs | services/sandbox-manager/app/docker_engine.py:10-25 | succeeds exactly on the accepted logs, with the same error otherwise; standard error is the payloads of stream 2 and standard output all others, in order |
| DockerLogs.MergedDockerLogs | services/sandbox-manager/app/docker_engine.py:28-41 | succeeds exactly on the same logs and returns all payloads in the order of their frames |
| DockerLogs.SameBytes | services/sandbox-manager/app/docker_engine.py:10-41 | the merged reading has the bytes of the two split readings together, no more and no fewer |
| DockerLogs.FrameInBytes | services/sandbox-manager/app/docker_engine.py:10-41 | byte by byte, a frame whose first byte is 2 goes to standard error and every other one to standard output, and its length is the four bytes after the padding, the last one counting least |
| EnvFileProperties.OverrideExactly | deploy/offline/common.py:59-82 | for every dictionary, with line breaks in its values or not: reading the merged text gives the old variables overridden by the normalised updates, for all texts, exactly when all keys are well-formed and each printed assignment defines only updated variables, each with its own update's value |
| EnvFileProperties.Override | deploy/offline/common.py:59-82 | for every text and every dictionary of single-line values the law holds exactly when all keys are well-formed |
| EnvFileProperties.OneLinePerKey | deploy/offline/common.py:69-82 | each updated key is on exactly one line, with its new value |
| EnvFileProperties.OtherLinesKept | deploy/offline/common.py:69-82 | all other lines stay, verbatim and in order |
| EnvFileProperties.MergeAgainExactly | deploy/offline/common.py:69-82 | a second merge of the same single-line updates into any text gives the same text exactly when every line printed for a malformed key is read as an updated key and the lines the first merge adds end with those lines |
| EnvFileProperties.MergeAgainNeedsKeys | deploy/offline/common.py:69-82 | where no line printed for a malformed key is read as an updated key, a second merge changes nothing exactly when all keys are well-formed |
| EnvFileProperties.MergeIdempotent | deploy/offline/common.py:69-82 | with well-formed keys, merging the same single-line updates again gives the same text |
| EnvFileProperties.SecondMergeAdds | deploy/offline/common.py:69-82 | a dictionary with a malformed key whose second merge into an empty file changes the text |
| EnvFileProperties.SecondMergeKeeps | deploy/offline/common.py:69-82 | the same two keys in the other order can be merged again into any text |
| EnvFileProperties.BreakInjects | deploy/offline/common.py:69-82 | a value with a line break followed by an assignment defines that variable, for all names and values |
| EnvFileProperties.BreakInjectsVariable | deploy/offline/common.py:69-82 | one such dictionary, so the law fails |
| EnvFileProperties.WriteBack | deploy/offline/common.py:59-82 | writing back what was read leaves all variables as they are exactly when every value read is its own normal form |
| EnvFileProperties.FieldOfAssignment | deploy/offline/common.py:63-77 | a printed assignment of a well-formed key is read as that key and that value |
| EnvFileProperties.LinesOfJoin | deploy/offline/common.py:72-82 | a text written line by line has those lines; an empty merge leaves one empty line |
| EnvFile.ReadEnv | deploy/offline/common.py:59-66 | the loop computes the specified variables; a missing file has none |
| EnvFileReading.ReadSays | deploy/offline/common.py:59-66 | a key has a value in a file exactly when that is the value of the last line that defines it, without the white space and then the quotes around it |
| EnvFileReading.NormExactly | deploy/offline/common.py:65-65 | reading takes off the white space at both ends of a value, then all quotes of either kind at both ends, and nothing else |
| EnvFileReading.FieldExactly | deploy/offline/common.py:63-64 | a line defines a variable exactly when it is white space, an upper-case key, an equals sign and the raw value |
| EnvFileReading.ReadsBare | deploy/offline/common.py:59-66 | a value in any number of quotes of either kind and white space is read bare |
| EnvFileReading.LineEnds | deploy/offline/common.py:62-62 | a line ends at a carriage return with a line feed or at one of ten characters, and nowhere else |
| EnvFile.MergeEnv | deploy/offline/common.py:69-82 | the two loops compute the specified text |
| SkillBuildRecords.RecordIsWindow | services/sandbox-manager/app/skill_build_records.py:64-89 | over any calls the stored log is the last 262144 characters of everything logged, truncated exactly when that is longer, with all attempts in order and the last status |
| SkillBuildRecords.WindowSlides | services/sandbox-manager/app/skill_build_records.py:71-73 | cutting an already cut log again is cutting the whole log |
| SkillBuildRecords.LastCharsAre | services/sandbox-manager/app/skill_build_records.py:71-73 | the cut keeps the end of the text, as much of it as the limit allows |
| SkillBuildRecords.OutputLogged | services/sandbox-manager/app/skill_build_records.py:69-73 | the output of the last attempt ends the log, below a heading with its number, source and exit code |
| SkillBuildRecords.RecordStore.Update | services/sandbox-manager/app/skill_build_records.py:64-89 | a call on a record that is there changes that record alone; on a missing one nothing; on a malformed key it is refused |
| SkillBuildRecords.RecordStore.Get | services/sandbox-manager/app/skill_build_records.py:91-96 | what is read is the window on all calls made on that record since it was created |
| SkillBuildRecords.RecordStore.Create | services/sandbox-manager/app/skill_build_records.py:52-62 | a new record is added, exactly the smaller of 20 and one more than before remain of the bundle, no other bundle is touched, and the new one stays if it is the newest |
| SkillBuildRecords.RecordStore.Prune | services/sandbox-manager/app/skill_build_records.py:118-121 | keeps exactly the smaller of 20 and their number of the records of the bundle, none older than one that went |

## Left out

- Docker HTTP calls, zip and tar formats, JSON, file permissions and symbolic links: the engine is a set of objects with calls that work or raise, archives are maps from names to content, files are values.
- SHA-256 is a function, injective where a law needs it; identifiers are fresh numbers; clocks and timeouts are free choices; the redaction of log text is a function applied to each piece before it is stored.
- Regular expressions are written out as functions on one line; only the patterns the modelled code uses are there.
- CompositeSkillCodec.EncodeCompositeSkill: object keys named `__proto__` and characters outside printable ASCII are not covered by the round trip.
- CompositeSkillCodec.DecodeCompositeSkill: `Number(v)` is modelled for blank text and decimal integers, all other texts count as not a number, and `nth` is an integer.
- TaskContainersSafety.RunInvariant: containers stand for their networks, which are made and removed with them; identifier and input-file checks before the table lock are left out; a lease file with two rows for one container, which the manager never writes, is not covered.
- ScriptJobs.JobManager.Execute: the checks of the job directory are one condition, and outputs are text without the byte limits.
- PluginRuntimesManager.PluginManager.Create: storage directories, mounts and tokens are left out; a failure to prepare them is a failed engine call.
- SkillEnvironmentsManager.EnvironmentTable.Start: the name of an image is the pair of base image and digest instead of a hash of them, so two pairs never share a name; what is looked at in a bundle (one root, dependency files) is one look.
- SkillBuilds.SkillBuild.Build: the record is assumed to be still there once it has been created, and the list of sources is a non-empty parameter.
- OfflinePackageManager.PackageStore.ImportArchive: entries of one archive have different names, and values in the manifest have the types the code expects or are missing.
- OfflinePackageManager.PackageStore.ExportTo: the selected paths are given; reading them from preparation records is left out.
- SkillBuildRecords.RecordStore.Prune: the directory listing sorted by modification time is a parameter; list and recover_interrupted are left out.
- The inventory of packages, offline switch, live build output, package-source selection, HTTP routes, command-line scripts, the egress proxy and all user interface code: input and output around libraries, or easy members.
