# A model of kissbot's stateful core

kissbot is a set of Rust services: agents with language-model sessions, tool servers that
cascade over MCP, chat channels with attachments, and memory with search. This project
models the code whose correctness cannot be read off a single function: caches that must
mirror memory, tables that must follow a network, indexes that must follow a store,
transfers with two ends. Each part comes with what it is meant to compute, and the proofs
say that it computes that, or in which cases it does not.

Seven components are modelled, each in a few modules.

- **Stations** (`StationNetwork`, `StationListing`, `StationCalling`, `StationTables`, `StationAgreement`,
  `StationDefinitions`, `StationCycles`, `StationServer`). A network is a finite map of peers with prefixed edges, in any
  shape. The order in which a station walks its children is a parameter that may differ from
  request to request; an id outside the network is a peer that does not answer. The names a
  listing returns are characterised by simple paths. The route tables a listing leaves in
  every station are a function of the tables before it, and calls are followed along
  arbitrary tables. `StationServer.Station` is the object; its methods are proved against
  the functions of `StationNetwork`.
- **Session context** (`SessionModel`, `SessionSafety`, `SessionCrashes`, `SessionHistory`, `SessionObject`). A file
  is a sequence of marks, a message text or a newline, so that a crash may fall between the
  two. Every operation is a sequence of file operations together with a new memory; `SessionObject`
  is the object that performs them one by one and logs them.
- **Message store** (`MessageLog`, `MessageStore`, `MessageWriting`, `MessagePaging`, `LockRegistry`). One
  append-only file per date, the cursor queries over them, the stamps of the writer, and the
  registry of weak references that hands out one lock per file.
- **Attachments** (`Frame`, `Upload`, `Download`). The binary frame, the upload queue and the
  server entry in front of it, and the download loop with both ends' transfer entries.
- **Search index** (`SearchIndex`, `SearchOverlap`, `SearchManager`). Any number of writers and
  synchronisations, several of one key included, interleave step by step; the objects perform one
  synchronisation at a time.
- **Memory** (`MemoryPacking`, `MemoryLines`, `MemoryRecovery`). Recovery of recent records through an ordered
  map, and the packing of records into an alternating transcript.
- **Channel bindings and message ids** (`ChannelBinding`, `ChannelHistory`, `MessageIds`).

Dates, times and seconds are numbers where the program compares fixed-width strings, which
sort the same way; message ids keep their decimal digits. `Sequences`, `Text` and `Wrappers` hold
what the components share.

## Where a promise fails

Each failure is proved from a concrete input or as one side of an equivalence.

- On a network with a cycle a later branch of the same listing can overwrite a station's table. A listed tool
  may then be refused (`StationCycles.CyclicListingIsNotCallable`), and, worse, calling it may run a different
  tool than the one whose definition was listed (`StationCycles.CyclicCallRunsAnotherTool`). Exactly: each
  station keeps the routes of the last chain it was asked under (`StationTables.TableIsLast`), and a call takes
  the way by which the listing came by the name if and only if, at every station on that way, those routes send the
  name to the same child (`StationTables.TrailIsWalkedIff`). Such a name can be called and runs the tool that was
  listed (`StationAgreement.ListedNamesAreCallable`). All names are like that wherever every station that is
  asked twice stores the same routes both times: on all acyclic networks (`StationAgreement.AcyclicIsSteady`), and on
  some cyclic ones (`StationCycles.MutualPairAgrees`). A name that is not listed is refused on every network
  (`StationAgreement.UnlistedIsRefused`), and tables from before the listing never matter
  (`StationTables.StaleTablesDoNotMatter`).
- What is appended to a cache can be read back if and only if the cache is empty or ends with a newline
  (`SessionCrashes.AppendIsReadableIff`). After a crash between a text and its newline the text itself is
  recovered, but the next append joins its line (`SessionCrashes.UnfinishedLineLosesTwo`). A recovery
  re-establishes the full invariant exactly when the lines alternate text and newline
  (`SessionCrashes.RecoveredIsMirroredIffClean`), and a new session that never recovers has it exactly when
  the cache is absent or empty (`SessionCrashes.FreshIsMirroredIffEmpty`).
- A step forgets a message if and only if it is one of two kinds (`SessionHistory.StepForgetsNothingIff`). An archive
  whose second was used before writes over a file that holds the only copy of a message
  (`SessionHistory.SameSecondForgets`; the files themselves stay as they were exactly under
  `SessionHistory.ArchiveKeepsHistoryIffStampUnused`). A recovery with an empty system slot moves a system-role message, of
  which there is no other copy, from the head of the list into the slot. It is still sent to the model then;
  counting that as kept, what loses it is a system switch without messages, or a recovery without a cache
  (`SessionHistory.ListForgetsNothingIff`, `SessionHistory.AppendedSystemMessageIsForgotten`).
- A batch for a future date is stamped at the end of that day and breaks the time order once that
  day has writes of its own (`MessagePaging.FutureBatchBreaksOrder`, exact condition
  `MessagePaging.WriteKeepsOrderIff`).
- Two synchronisations of one key overlap when searches run concurrently and a writer marks the key again
  in between. `SearchOverlap.OverlappingSyncsGoStale` is a run from start-up, for agents and roles, that comes
  to rest with nothing dirty or in flight and an index entry whose text is not stored; the entry outlives every
  further run in which nobody stores that very document again (`SearchOverlap.OrphanStaysForGood`). One update is
  right exactly under the conditions of `SearchOverlap.FulltextRightIff` and `CompletionRightIff`, and all is well
  as long as no synchronisation takes the old document of a key while another one holds it
  (`SearchIndex.StaleIsAccountedFor`). The agents' index is right only because an agent's id never changes
  (`SearchIndex.IdentityNeedsImmutableId`).
- An upload chunk that comes too early, or repeats an old part that reaches the end, removes the server's
  entry and strands the upload (`Upload.ReceiverStrandsUploadIff`). An upload with declared size zero
  publishes whatever the first chunk holds, and an empty download keeps both transfer entries.
- Message ids repeat when more than 967,296 are drawn in one second
  (`MessageIds.DistinctIffWithinBound`).

Code and comment disagree in one place: the comments of `read_recent_for_context`
(kissbot-agent/src/pipelines.rs:106-116) speak of records without text being skipped, while the code keeps
them with empty content. The model follows the code.

## Model

| member | source | states |
|---|---|---|
| StationNetwork.Sub.GlobalName | kissbot-agent/src/station.rs:51-70 | Stripping the prefix from a global name gives back the child's own name, with or without a prefix. |
| StationNetwork.BudgetDrops | kissbot-agent/src/station.rs:173-196 | The termination measure: a station that is not yet in the chain and puts itself there leaves one id fewer, so listings and calls end on every graph. |
| StationListing.ListedNamesAreSimplePaths | kissbot-agent/src/station.rs:172-233 | On any graph and for every child order, the names listed at v under ancestors A are exactly the prefixes along p followed by n, for the simple paths p from v that avoid A and the native tools n at their ends. |
| StationListing.ListedNamesIgnoreOrder | kissbot-agent/src/station.rs:172-233 | The set of listed names does not depend on the order in which any station walks its children. |
| StationListing.ListedHasPath | kissbot-agent/src/station.rs:198-226 | A listed name comes from a native tool at the end of a simple path whose prefixes spell it. |
| StationListing.PathIsListed | kissbot-agent/src/station.rs:198-226 | Every simple path that avoids the ancestors puts the native names at its end on the list, behind its prefixes. |
| StationCalling.CallIsDecided | kissbot-agent/src/station.rs:238-283 | For any route tables, a call follows a walk of at most as many hops as there are ids outside the ancestors, and its answer is that of the last station, a cycle error if the walk came back, unchanged on the way to the root. |
| StationCalling.CallFollowsWalk | kissbot-agent/src/station.rs:248-282 | Following any walk along the tables that repeats no station does not change the result of the call. |
| StationCalling.CycleErrorIffRoutesComeBack | kissbot-agent/src/station.rs:239-246 | A call from outside fails with the cycle code if and only if the tables lead it back to a station it has been at. |
| StationCalling.CallRunsIffWalkArrives | kissbot-agent/src/station.rs:247-282 | A call runs a tool at a station if and only if a walk without repetition arrives there under a name the station has. |
| StationTables.TableIsLast | kissbot-agent/src/station.rs:198-229 | On every network, after a listing each station holds the routes of the last chain it was asked under, and a station that was not asked holds what it held before. |
| StationTables.LastAskedIsAsked | kissbot-agent/src/station.rs:198-201 | That last chain is one along edges, without repetition, that the listing really asks the station under. |
| StationTables.AskedHasLast | kissbot-agent/src/station.rs:198-201 | Every station at the end of a path without repetition is asked, so it has a last chain. |
| StationTables.TrailIsWalkedIff | kissbot-agent/src/station.rs:198-282 | On every network, for every station asked and every name, and from any stale tables: after a root listing a call takes the very way by which the listing came by the name if and only if at each station of that way the routes of the last chain send the name to the same child. |
| StationTables.StaleTablesDoNotMatter | kissbot-agent/src/station.rs:228-282 | After a root listing the answer of a call from the root is the same whatever the tables were before, on every network. |
| StationAgreement.UnlistedIsRefused | kissbot-agent/src/station.rs:256-282 | On every network, from any stale tables, a name that a root listing does not contain is an invalid parameter after it. |
| StationAgreement.ListedNamesAreCallable | kissbot-agent/src/station.rs:198-282 | On every network, from any stale tables: if the way of a listed name is undisturbed, the call ends at the native tool at the end of a path that spells the name, and what was listed is that tool's definition; a name that is not listed is refused. |
| StationAgreement.SteadyIsUndisturbed | kissbot-agent/src/station.rs:198-229 | Where every station asked more than once stores the same routes each time, no way is disturbed. |
| StationAgreement.SteadyNetworksAgree | kissbot-agent/src/station.rs:198-282 | Where every station asked more than once stores the same routes each time, a name can be called after the root listing if and only if it is listed, and the call runs the tool whose definition was listed. |
| StationAgreement.AcyclicNetworksAgree | kissbot-agent/src/station.rs:198-282 | On every acyclic network with fixed child orders a name can be called after the root listing, from any stale tables, if and only if it is listed, and the call runs the tool whose definition was listed. |
| StationAgreement.AcyclicIsSteady | kissbot-agent/src/station.rs:198-231 | On an acyclic network with fixed child orders every station stores the same routes under every chain of ancestors. |
| StationDefinitions.ListedToolIsNative | kissbot-agent/src/station.rs:198-231 | For every listed name there are a simple path from v and a native tool at its end, the prefixes along the path spell the name, and what is listed has that name, the native definition, and the native group or, where there is none, the bracketed id of the last station. |
| StationDefinitions.DeliveredIsNative | kissbot-agent/src/station.rs:205-219 | What a call is said to deliver is the native tool of the station it ends at: its definition under the listed name, and its group or the station's default. |
| StationDefinitions.FirstOfNameIsFirst | kissbot-agent/src/station.rs:203-222 | Of several tools of one name in a list the first one counts. |
| StationDefinitions.FirstChildWins | kissbot-agent/src/station.rs:198-226 | An own tool wins over those of children and has no route; among the children the first in order that lists the name wins and gets the route. |
| StationDefinitions.ListingRefusesAncestors | kissbot-agent/src/station.rs:173-179 | A station that is its own ancestor answers with code -50001, and otherwise with a list. |
| StationDefinitions.CallAtOneStation | kissbot-agent/src/station.rs:239-282 | For any tables: own tools run at once, an unknown name or a route to no child is -32602, a child that does not answer is -32603, an ancestor is -50001. |
| StationAgreement.ListingSettlesTables | kissbot-agent/src/station.rs:198-229 | When such a listing is answered, every station asked below holds the routes it stores under each chain it is asked with, and no table that was right is spoiled. |
| StationAgreement.ListingIgnoresChain | kissbot-agent/src/station.rs:172-233 | On an acyclic network a station answers with the same list and the same routes whatever chain of ancestors led to it. |
| StationAgreement.ListedIsCallable | kissbot-agent/src/station.rs:248-282 | With settled tables, each hop of a call strips its prefix and the call ends at the tool the listing showed. |
| StationCycles.CyclicListingIsNotCallable | kissbot-agent/src/station.rs:198-229 | On a three-station network with a cycle the root lists a name that it then cannot call, from any tables. |
| StationCycles.CyclicCallRunsAnotherTool | kissbot-agent/src/station.rs:198-282 | On a four-station network with a cycle the root lists one tool under a name, and calling the name runs another station's tool, from any tables. |
| StationCycles.MutualPairAgrees | kissbot-agent/src/station.rs:173-231 | Two stations that list each other are a cycle, and listed and callable names are the same. |
| StationServer.Station.FromRepo | kissbot-agent/src/station.rs:114-143 | The tool index keeps, for each name, the first tool in group order; routes start empty. |
| StationServer.GroupToolsLaws | kissbot-agent/src/station.rs:122-131 | A built-in group brings all its tools in order, another none, and groups follow one another. |
| StationServer.Station.ListTools | kissbot-agent/src/station.rs:172-233 | The answer is the network's listing as a strictly name-sorted list (or its cycle error), and all stations' tables change exactly as the table function says. |
| StationServer.Station.Collect | kissbot-agent/src/station.rs:179-227 | The loop over the children merges own tools and answers, own names first and then first come, and records a route for each adopted tool. |
| StationServer.Station.AskChild | kissbot-agent/src/station.rs:199-201 | Asking a child yields that child's listing under the extended chain and updates the tables below it. |
| StationServer.Station.StoreRoutes | kissbot-agent/src/station.rs:228-229 | Storing a route table changes that station's table and no other. |
| StationServer.Station.OwnTools | kissbot-agent/src/station.rs:179-185 | The own tools, in any order, with distinct names, are the whole index. |
| StationServer.Station.MergeChild | kissbot-agent/src/station.rs:200-225 | Merging a child's list tool by tool is absorbing its listing: clashes dropped, names prefixed, missing groups set to the child's default, routes recorded. |
| StationServer.Station.CallTool | kissbot-agent/src/station.rs:238-283 | The answer is the network call through the tables that all stations hold. |
| StationServer.SortByNameSorts | kissbot-agent/src/station.rs:230-232 | Sorting by name yields a strictly sorted list with the same tools. |
| StationServer.ListedSequenceIgnoresOrder | kissbot-agent/src/station.rs:230-232 | Two sorted answers of a station have the same sequence of names, whatever orders were used below. |
| StationServer.AbsorbListIsAbsorb | kissbot-agent/src/station.rs:203-225 | Absorbing tools one at a time in list order is absorbing the list's first tool of each name at once. |
| Text.IncreasingIsUnique | kissbot-agent/src/station.rs:230-232 | A set of names has one increasing enumeration, so the sorted answer is deterministic. |
| Text.LessIsFirstDifference | kissbot-agent/src/station.rs:230-232 | A name comes before another exactly if it has the smaller character where they first differ, or ends there. |
| SessionSafety.RoundTrip | kissbot-llm/src/session.rs:147-154 | Reading back the lines that were written gives exactly the messages. |
| SessionSafety.DecodeAfter | kissbot-llm/src/session.rs:147-154 | Whatever follows complete lines in a file, reading yields their messages first, and then what the rest yields. |
| SessionSafety.StepKeepsMirror | kissbot-llm/src/session.rs:71-203 | Every operation keeps: no cache file means no messages, and otherwise the cache is the optional system line followed by the messages. |
| SessionSafety.ReachableIsRecoverable | kissbot-llm/src/session.rs:138-164 | In every state reached by any run, the cache mirrors the memory, and a fresh session that recovers builds the same list if any message exists. |
| SessionSafety.StepPerformsItsOps | kissbot-llm/src/session.rs:71-203 | The file operations listed for a step are exactly what the step does to the files. |
| SessionSafety.AppendEffect | kissbot-llm/src/session.rs:88-100 | Appending keeps cache and memory together, also when it creates the cache, and touches no history. |
| SessionSafety.ArchiveEffect | kissbot-llm/src/session.rs:173-196 | Archiving writes the built list to the history file of its second, nothing if there are no messages, and removes the cache. |
| SessionSafety.WriteCurrentEffect | kissbot-llm/src/session.rs:63-66 | Writing the memory back into a removed cache yields exactly the built list's lines, the system line once. |
| SessionCrashes.CleanIffWritten | kissbot-llm/src/session.rs:240-247 | A file is what writing the messages it yields produces if and only if it alternates texts and newlines. |
| SessionCrashes.RecoveredIsMirroredIffClean | kissbot-llm/src/session.rs:138-164 | A new session that recovers first satisfies the invariant if and only if the cache is absent or alternates texts and newlines. |
| SessionCrashes.FreshIsMirroredIffEmpty | kissbot-llm/src/session.rs:256-261 | A new session that does not recover satisfies it if and only if the cache is absent or empty. |
| SessionCrashes.DecodeAfterClean | kissbot-llm/src/session.rs:147-154 | Behind a file that is empty or ends with a newline, anything is read as it would be alone. |
| SessionCrashes.AppendIsReadableIff | kissbot-llm/src/session.rs:88-100 | For every file, messages written behind it are read back behind its own if and only if it is empty or ends with a newline. |
| SessionCrashes.UnfinishedLineLosesTwo | kissbot-llm/src/session.rs:88-100 | After a crash between a text and its newline, recovery builds the whole list, but the next append makes both messages on that line unreadable. |
| SessionCrashes.RecoveredIsReadable | kissbot-llm/src/session.rs:138-164 | From any files whatever, a recovery leaves a session whose list is what the cache yields. |
| SessionCrashes.StepKeepsReadableIff | kissbot-llm/src/session.rs:71-203 | A step keeps the list equal to what the cache yields if and only if it does not append onto an unfinished line. |
| SessionCrashes.CrashLosesNothing | kissbot-llm/src/session.rs:71-203 | After any number of file operations of any step, unless it appends onto an unfinished line, the context before the step is complete at the head of the cache or is one whole history file; the cache may itself be one a crash left behind. |
| SessionCrashes.ReachableCrashLosesNothing | kissbot-llm/src/session.rs:71-203 | In every state a session reaches from a mirrored one, after any number of file operations of any step, appends included, the context before the step is complete at the head of the cache or is one whole history file. |
| SessionCrashes.CrashingRunLosesNothing | kissbot-llm/src/session.rs:71-203 | At every point of a run of steps, crashes between any two file operations and recoveries by new sessions, with nothing appended onto an unfinished line, the list is what the cache yields and the context before the last event is complete on disk. |
| SessionHistory.RevertSplitsAtCondition | kissbot-llm/src/session.rs:103-123 | With a condition that keeps no state, what a revert drops is the longest suffix in which no message satisfies it. |
| SessionHistory.RevertCounts | kissbot-llm/src/session.rs:125-134 | The counting condition drops the last count messages, or all of them. |
| SessionHistory.StepConversation | kissbot-llm/src/session.rs:59-203 | For every context and operation, what happens to the messages and the two system slots: a switch keeps all messages and installs the pending system message, a reset leaves exactly its messages, an append adds them at the end, a revert cuts there, a recovery takes what the cache yields. |
| SessionHistory.IdleStepsTouchNoFile | kissbot-llm/src/session.rs:71-123 | Without a new system message, without messages to append or without messages to drop, no file operation is performed. |
| SessionHistory.StepHistory | kissbot-llm/src/session.rs:173-190 | A step writes at most one history file, and that one holds the context before the step. |
| SessionHistory.ArchiveKeepsHistoryIffStampUnused | kissbot-llm/src/session.rs:175-181 | An archive leaves the earlier history files as they were if and only if its second is unused or its file has the same content already. |
| SessionHistory.StepForgetsNothingIff | kissbot-llm/src/session.rs:88-203 | A step keeps every message in memory or history, whatever their roles, if and only if it is neither a recovery that moves the only copy of a leading system-role message into an empty system slot nor an archive over a file that holds the only copy of a message. |
| SessionHistory.ListForgetsNothingIff | kissbot-llm/src/session.rs:71-203 | Counting the system slot as kept too, a step keeps everything if and only if it does not replace or take back a system message that no history file holds while there are no messages, and does not archive over the only copy of a message. |
| SessionHistory.NothingIsForgotten | kissbot-llm/src/session.rs:88-203 | Over a whole run of steps that are neither of the two, every message ever handed over, of any role, is in memory or in a history file. |
| SessionHistory.SameSecondForgets | kissbot-llm/src/session.rs:175-181 | Two resets in one second lose the messages archived by the first. |
| SessionHistory.AppendedSystemMessageIsForgotten | kissbot-llm/src/session.rs:155-163 | A leading system-role message that was appended moves to the system slot on recovery, and a following system switch drops it without an archive. |
| SessionObject.SessionContext.SetSystemMessage | kissbot-llm/src/session.rs:59-61 | Only the pending slot changes. |
| SessionObject.SessionContext.Build | kissbot-llm/src/session.rs:206-213 | The system message, if any, then the messages. |
| SessionObject.SessionContext.WriteCacheLines | kissbot-llm/src/session.rs:240-247 | One text and one newline are written per message, in order, and nothing else. |
| SessionObject.SessionContext.WriteHistoryLines | kissbot-llm/src/session.rs:240-247 | One text and one newline per message go into the history file of that second, in order, and nothing else. |
| SessionObject.SessionContext.OpenCacheAndWriteSystemLine | kissbot-llm/src/session.rs:218-235 | The cache is opened; only a new one gets the system line. |
| SessionObject.SessionContext.WriteCurrentCache | kissbot-llm/src/session.rs:63-66 | Performs the writing back of the memory, operation by operation. |
| SessionObject.SessionContext.Append | kissbot-llm/src/session.rs:88-100 | Performs exactly the append of the model: cache first, then memory, nothing for an empty list. |
| SessionObject.SessionContext.WriteHistoryFile | kissbot-llm/src/session.rs:176-189 | Truncates the second's history file and writes the built list into it. |
| SessionObject.SessionContext.ArchiveAndClearCache | kissbot-llm/src/session.rs:173-196 | Performs exactly the archive of the model: history file if there are messages, then removal of the cache. |
| SessionObject.SessionContext.ArchiveAndClearCacheAndResetMessages | kissbot-llm/src/session.rs:173-203 | Performs exactly the reset of the model: archive, forget the memory, append. |
| SessionObject.SessionContext.ApplyPendingSystem | kissbot-llm/src/session.rs:71-84 | Performs exactly the lazy system switch of the model, including the cases without a pending message, with the same message and without messages. |
| SessionObject.SessionContext.RevertUntil | kissbot-llm/src/session.rs:103-123 | For any stateful condition, returns the dropped suffix and performs exactly the revert of the model: one archive before the first removal, the cache rewritten after the last. |
| SessionObject.SessionContext.PopUntil | kissbot-llm/src/session.rs:106-119 | The loop keeps the prefix up to the stopping message, returns the rest in order, and archives the whole list once if anything is dropped. |
| SessionObject.SessionContext.Revert | kissbot-llm/src/session.rs:125-134 | Returns the last count messages and performs the revert step. |
| SessionObject.SessionContext.RecoverFromCache | kissbot-llm/src/session.rs:138-164 | Reads the cache line by line, skips lines that do not parse, and moves a leading system line into the system slot. |
| SessionObject.Session.BuildContext | kissbot-llm/src/session.rs:269-273 | Applies the pending system message and then builds the list. |
| SearchIndex.UpdatesReachNew | kissbot-memory-ego/src/search.rs:136-306 | From indexes that agree with the old document, the two updates (full text and completion, in each kind's order) reach indexes that agree with the new one, through a half-way state, touching no other key. |
| SearchIndex.IdentityNeedsImmutableId | kissbot-memory-ego/src/search.rs:160-164 | The agents' update is right if and only if the agent's id does not change. |
| SearchIndex.StepKeepsInv | kissbot-memory-ego/src/search.rs:136-325 | Each atomic step of a writer or a synchronisation keeps the invariant of every key, with several synchronisations of a key started, as long as none takes the old document while another one holds it. |
| SearchIndex.RunKeepsInv | kissbot-memory-ego/src/search.rs:136-325 | Every interleaving of such steps keeps the invariant. |
| SearchIndex.StaleIsAccountedFor | kissbot-memory-ego/src/search.rs:178-325 | In every interleaving from start-up in which no synchronisation takes the old document of a key while another one holds it, a key whose index entries do not match its stored metadata is dirty, has a writer between write and mark, or is being synchronised; when nothing of that is left both indexes equal a rebuild. |
| SearchIndex.QuiescentIsRebuilt | kissbot-memory-ego/src/search.rs:184-194 | With nothing in flight and nothing dirty, both indexes equal a rebuild from the stored metadata. |
| SearchIndex.AgreeingIsRebuild | kissbot-memory-ego/src/search.rs:136-176 | Indexes that agree with every key's metadata are the rebuilt ones, with no entry left over. |
| SearchIndex.StepKeepsOthers | kissbot-memory-ego/src/role_play.rs:187-384 | A write, a mark or a write to fields no index reads keeps the invariant of all other keys. |
| SearchIndex.StepKeepsKey | kissbot-memory-ego/src/agent.rs:86-176 | A write followed later by its mark, in any stage of any synchronisation, keeps the key's own invariant. |
| SearchOverlap.FulltextRightIff | kissbot-memory-ego/src/search.rs:143-159 | Whatever is held under the key, the full text is right after an update (agents, roles, removals) if and only if the document is unchanged and was indexed right, or only the old and the new text were held. |
| SearchOverlap.CompletionRightIff | kissbot-memory-ego/src/search.rs:264-282 | Whatever is held under the key, the completion is right after an update if and only if the name is unchanged and was indexed right, or only the old and the new name were held. |
| SearchOverlap.OverlappingSyncsGoStale | kissbot-memory-ego/src/search.rs:136-228 | From start-up, for agents and roles, a run with two overlapping synchronisations ends with nothing dirty or in flight and an index that is not the rebuilt one, finding the key under a text that is not stored. |
| SearchOverlap.OrphanStaysForGood | kissbot-memory-ego/src/search.rs:136-325 | An entry whose document is neither stored nor known nor in the hands of a synchronisation outlives every further run in which nobody stores that document again. |
| SearchManager.IndexPair.MarkDirty | kissbot-memory-ego/src/search.rs:211-213 | The key is added to the dirty set. |
| SearchManager.IndexPair.ForceSyncIdentity | kissbot-memory-ego/src/search.rs:136-176 | Branch by branch the agents' synchronisation is the two updates and the renewed search metadata. |
| SearchManager.IndexPair.ForceSyncRole | kissbot-memory-ego/src/search.rs:230-306 | Branch by branch the roles' synchronisation, comparing name, full name and description one by one, is the two updates and the renewed search metadata. |
| SearchManager.IndexPair.Sync | kissbot-memory-ego/src/search.rs:178-182 | Synchronising a key keeps the invariant and removes it from the dirty set; a clean key is left alone. |
| SearchManager.IndexPair.SyncAll | kissbot-memory-ego/src/search.rs:184-194 | Draining the dirty set ends with no dirty key and indexes equal to a rebuild. |
| SearchManager.SyncIsSteps | kissbot-memory-ego/src/search.rs:178-182 | A synchronisation in one go is six steps of the interleaving model and keeps its invariant. |
| MessageLog.BeforeIsPrefix | kissbot-channel-web/src/message_store.rs:240-293 | The entries before a cursor are a prefix of the log, and exactly the entries that come before that position. |
| MessageLog.AfterIsSuffix | kissbot-channel-web/src/message_store.rs:295-342 | The entries from the line after a cursor are exactly the rest of the log. |
| MessageLog.FlatDatesOrdered | kissbot-channel-web/src/message_store.rs:216-232 | The log flattened across date files is strictly ordered by date and line. |
| MessageLog.FlatHas | kissbot-channel-web/src/message_store.rs:102-143 | An entry is in the log exactly when its file has that message at that line. |
| MessageStore.Store.Write | kissbot-channel-web/src/message_store.rs:102-143 | The batch is stamped (now, or the end of the key's day) and appended to its file, and the date becomes known. |
| MessageWriting.WriteStoresBatch | kissbot-channel-web/src/message_store.rs:102-143 | The file of the key date is the old one followed by one message per record, in order, each with its id and the time of the write or 23:59:59 of another key date; no other file changes; and the flattened log gains exactly the batch, in order, at the end of that file. |
| MessageStore.Store.GetRecent | kissbot-channel-web/src/message_store.rs:212-238 | The groups, flattened, are the last n entries of the whole log; no group is empty. |
| MessageStore.Store.GetBefore | kissbot-channel-web/src/message_store.rs:240-293 | They are the last n entries before the cursor's date and line, across dates. |
| MessageStore.Store.GetAfter | kissbot-channel-web/src/message_store.rs:295-342 | They are the first n entries behind the cursor's line, across dates. |
| MessageStore.Store.CollectBack | kissbot-channel-web/src/message_store.rs:216-234 | Walking back date by date completes what was found to the last n entries. |
| MessageStore.Store.CollectOn | kissbot-channel-web/src/message_store.rs:313-338 | Walking on date by date completes what was found to the first n entries. |
| MessagePaging.PagesConnect | kissbot-channel-web-ui/src/App.tsx:180-224 | While paging back, what is shown is in log order without repetition, has no gap in what existed at the first query, and contains only logged messages. |
| MessagePaging.PagingVisitsAll | kissbot-channel-web-ui/src/App.tsx:192-220 | When a page comes back empty, every message that existed at the first query has been shown exactly once and in order, although messages were appended in between. |
| MessagePaging.PagingTerminates | kissbot-channel-web-ui/src/App.tsx:192-220 | There are at most as many pages as the final log has messages, and one more. |
| MessagePaging.PagesDescend | kissbot-channel-web/src/message_store.rs:240-293 | Each page leaves strictly fewer messages before its cursor. |
| MessagePaging.WritingGrows | kissbot-channel-web/src/message_store.rs:118-134 | A write keeps the known dates in order and only extends files. |
| MessagePaging.FlatLogIsTimeSorted | kissbot-channel-web/src/message_store.rs:102-143 | With a clock that does not run backwards and no batch for a future date, in every reachable state records carry their file's date, files are in time order, and the flattened log is sorted by time. |
| MessagePaging.WriteKeepsOrderIff | kissbot-channel-web/src/message_store.rs:102-110 | For any clock and any batch date, a write keeps a sorted log sorted if and only if its stamp is not before the last one in its file. |
| MessagePaging.SortedByFiles | kissbot-channel-web/src/message_store.rs:102-143 | When records carry their file's date, the flattened log is sorted by time exactly when every file is. |
| MessagePaging.WriteKeepsStamps | kissbot-channel-web/src/message_store.rs:102-110 | One timely write keeps the stamp invariant and moves its clock on. |
| MessagePaging.FutureBatchBreaksOrder | kissbot-channel-web/src/message_store.rs:103-106 | A batch for a future date followed by a write on that day leaves a file out of order. |
| LockRegistry.StepKeepsInv | kissbot-channel-web/src/message_store.rs:172-192 | Each atomic step of get_lock, remove_lock, clone or drop keeps: a live lock is registered or just created, and a task that saw no live lock for its key is still right. |
| LockRegistry.OneLiveLockPerKey | kissbot-channel-web/src/message_store.rs:172-192 | In any interleaving two locks alive for one key are the same object. |
| LockRegistry.OneLiveLockFromStart | kissbot-channel-web/src/message_store.rs:172-208 | From the empty registry no run of any steps ever has two live locks for one key. |
| LockRegistry.Registry.GetLock | kissbot-channel-web/src/message_store.rs:172-183 | A live registered lock is shared and gains a reference; otherwise a new one replaces the entry; all others are untouched. |
| LockRegistry.Registry.RemoveLock | kissbot-channel-web/src/message_store.rs:185-192 | The entry is removed exactly when no live lock is registered. |
| Frame.GetOfPut | kissbot-api/src/channel.rs:100-107 | A big-endian field reads back the number written, below its range. |
| Frame.PutOfGet | kissbot-api/src/channel.rs:115-129 | Writing the number read from some bytes gives the bytes back. |
| Frame.ParseOfEncode | kissbot-api/src/channel.rs:115-129 | Parsing a frame gives back id, size and position, and the data starts at its offset. |
| Frame.EncodeOfParse | kissbot-api/src/channel.rs:115-129 | A frame parses if and only if it has room for the header, and it is then the encoding of what was read. |
| Frame.FrameLayout | kissbot-api/src/channel.rs:100-107 | Serial number, type, status, id and size take four bytes each, the position eight, at their offsets, and the data starts at byte 28. |
| Frame.GetIsBigEndian | kissbot-api/src/channel.rs:115-129 | Fields are read big-endian: what stands further left counts 256 times as much for every byte to its right. |
| Upload.WriteKeepsInv | kissbot-channel-web/src/attachment.rs:163-200 | One queue command never shortens the temporary file or lowers the position, and a success reports the position reached. |
| Upload.WriteAnswers | kissbot-channel-web/src/attachment.rs:163-200 | An old chunk is acknowledged and changes nothing, an early one is refused with the position reached, a chunk shorter than declared ends the upload, and the next chunk is appended up to its declared size; the upload ends and is published when the size is reached. |
| Upload.UploadNeverRetreats | kissbot-channel-web/src/attachment.rs:268-341 | For arbitrary commands, malformed ones included, positions never decrease, the file only grows, and it is published exactly when the position reaches a non-zero declared size. |
| Upload.UploadIsPrefix | kissbot-channel-web/src/attachment.rs:163-200 | With chunks that agree with a non-empty file, repeated, reordered or overlapping, the temporary file is always the file's first bytes up to the position, and is published exactly at the end, equal to the file. |
| Upload.EmptyUploadTakesFirstChunk | kissbot-channel-web/src/attachment.rs:307-318 | With a declared size of zero the first chunk is published whatever it holds. |
| Upload.ReceiverStrandsUploadIff | kissbot-channel/src/channel_server.rs:358-393 | An agreeing chunk removes the entry of an unfinished upload if and only if it comes too early or repeats a part that reaches the end. |
| Upload.StrandedStays | kissbot-channel/src/channel_server.rs:358-393 | Once the entry is gone, no chunk changes anything any more. |
| Upload.Server.Register | kissbot-channel-web/src/attachment.rs:232-268 | A new transfer starts with an empty file at position zero and an entry of its own; other transfers are untouched. |
| Upload.Server.ProcessPayload | kissbot-channel/src/channel_server.rs:358-393 | A frame is parsed, refused if it is too short or its transfer is unknown, and otherwise handed to the queue of its transfer with the header's size and position; no other transfer changes. |
| Upload.UploadFile | kissbot-channel-client-cli/src/main.rs:95-105 | The client's chunk loop through frames and server succeeds, the server's file equals the data, and no other transfer changes; the file is published and the entry dropped exactly when the data is not empty. |
| Download.WrittenIsPrefix | kissbot-channel-client-cli/src/main.rs:131-141 | Whatever goes wrong at whatever chunk, the client's file is a prefix of the attachment. |
| Download.CompleteIffArrived | kissbot-channel-web/src/messenger.rs:641-676 | What the client has written is the whole rest of the attachment if and only if every chunk is acknowledged, the last one perhaps written without a good acknowledgement; both entries are gone then. |
| Download.EntriesFollowFirstBad | kissbot-channel-web/src/messenger.rs:628-680 | Each end's entry is left exactly in the stated cases of the first chunk that is not acknowledged. |
| Download.DownloadIsComplete | kissbot-channel-web/src/messenger.rs:641-676 | End to end: with every chunk acknowledged the client holds exactly the non-empty attachment and both sides have dropped the transfer. |
| Download.EmptyDownloadKeepsEntries | kissbot-channel-web/src/messenger.rs:644-646 | An empty attachment sends nothing and both entries stay. |
| Download.OneChunk | kissbot-channel/src/channel_server.rs:782-799 | One round of the loop either goes on with the next chunk or ends with exactly the stated entries. |
| Download.Client.ProcessBin | kissbot-channel-client/src/channel_client.rs:236-294 | A chunk of a known transfer is appended and acknowledged with the position behind it; the entry goes at the last chunk or on a failing write; an unknown transfer gets an error and changes nothing. |
| Download.Server.SendPayload | kissbot-channel/src/channel_server.rs:782-799 | The server's entry goes on any error or after the last chunk, and stays otherwise. |
| Download.Server.SendDownload | kissbot-channel-web/src/messenger.rs:641-678 | The loop over frames does to the client's file and to both transfer maps exactly what the transfer function says, and drops the key entry. |
| MemoryPacking.CollectTextParts | kissbot-agent/src/message.rs:31-41 | All texts of a content are collected in order at any depth. |
| MemoryLines.TextPartsLaws | kissbot-agent/src/message.rs:31-41 | A text is itself, a list is its items one after the other, anything else has no text. |
| MemoryPacking.ExtractContent | kissbot-agent/src/message.rs:22-26 | The name, the texts, and whether the speaker is self. |
| MemoryPacking.RunsAreMaximal | kissbot-agent/src/message.rs:59-107 | Grouping cuts the list, losing nothing, into non-empty stretches of one side each with neighbours on different sides. |
| MemoryPacking.TextualPush | kissbot-agent/src/message.rs:66-70 | A record is kept, at its place, exactly if it has text. |
| MemoryLines.SplitOfJoin | kissbot-agent/src/message.rs:80-101 | Split at newlines, joined parts give back their lines in order. |
| MemoryLines.JoinKeepsLines | kissbot-agent/src/message.rs:80-101 | Parts without newlines come back one by one, in order. |
| MemoryLines.PackedMessageReads | kissbot-agent/src/message.rs:59-107 | Each message of a transcript is spoken by the side of its run and reads as the run's records in order, each a line of name, colon and text, or the bare text for self or an empty name; behind the runs there is at most the empty answer. |
| MemoryLines.BatchReads | kissbot-agent/src/message.rs:112-123 | A batch's message reads as the lines of its events with text, in order, each under its sender's name. |
| MemoryPacking.FromFirstUserSplits | kissbot-agent/src/message.rs:68-76 | What is dropped in front are self records only, and what is left starts with a user's record. |
| MemoryPacking.PackMemoryMessages | kissbot-agent/src/message.rs:59-107 | The buffered loop equals: drop records without text, drop leading self records, group by side, join lines, close with the assistant. |
| MemoryPacking.PackedAlternates | kissbot-agent/src/message.rs:59-107 | The output is empty exactly when all records with text are self; otherwise it starts with User, alternates strictly and ends with Assistant. |
| MemoryPacking.PackBatch | kissbot-agent/src/message.rs:112-123 | One user message with a line for each event that has text. |
| MemoryPacking.OthersPackLikeABatch | kissbot-agent/src/message.rs:59-123 | Records none of which is self, with some text, make the message of a batch followed by an empty answer. |
| MemoryRecovery.ParseChannelGroups | kissbot-agent/src/pipelines.rs:71-84 | After merging a query's groups the map holds exactly the entries of what was read, once each, in key order. |
| MemoryRecovery.ReadRecentForContext | kissbot-agent/src/pipelines.rs:91-134 | For a count of at least one the two queries, their groups in any order, return exactly the recovered suffix in order; the window error and the count zero are covered. |
| MemoryRecovery.RecoveredIsRecent | kissbot-agent/src/pipelines.rs:86-134 | What is recovered is a suffix with the n newest records, exactly the records not older than the window start or the n-th newest, and no second is split; the whole log if it has fewer than n. |
| MemoryRecovery.RecoveredContents | kissbot-agent/src/pipelines.rs:71-84 | What is handed on is, record by record and in order, the speaker's name, the texts, and whether the speaker is self. |
| MemoryRecovery.UnionIsSuffix | kissbot-agent/src/pipelines.rs:122-131 | The n newest records together with the second query's interval are everything from its lower end on. |
| MemoryRecovery.HeldSuffix | kissbot-agent/src/pipelines.rs:105-133 | A map filled with exactly a suffix's records lists them in the log's order. |
| MemoryRecovery.InsertKeeps | kissbot-agent/src/pipelines.rs:76-81 | Inserting under an absent key keeps the map ordered and adds that entry only; a present key keeps its first entry. |
| ChannelBinding.BindingFollowsHistory | kissbot-channel/src/channel_server.rs:59-340 | In every reachable state a connection is bound to a user if and only if it bound it successfully and no unbind, close or removal released it since; the connection is live, it alone may send as the user and it alone receives. |
| ChannelBinding.OneOwner | kissbot-channel/src/channel_server.rs:196-224 | A user has at most one owner by history. |
| ChannelHistory.BindSucceedsIff | kissbot-channel/src/channel_server.rs:196-224 | After any events a bind succeeds if and only if the connection was opened and not closed since, the user is one of the messenger's by its registration, additions and removals, and nobody else owns the user; in that last case alone it is refused as already bound. |
| ChannelHistory.UnbindSucceedsIff | kissbot-channel/src/channel_server.rs:243-272 | An unbind succeeds if and only if the connection owns the user. |
| ChannelHistory.SendSucceedsIff | kissbot-channel/src/channel_server.rs:313-331 | A message is accepted exactly from the owner, and refused as not bound exactly when somebody else owns the user. |
| ChannelHistory.CloseSucceedsIff | kissbot-channel/src/channel_server.rs:59-85 | A close succeeds if and only if the connection is open. |
| ChannelHistory.RemovalSucceedsIff | kissbot-channel/src/channel_server.rs:702-723 | A removal reaches a connection if and only if somebody owns the user. |
| ChannelHistory.StateFollowsEvents | kissbot-channel/src/channel_server.rs:530-632 | Live connections, registered messengers and their users are exactly what the events say. |
| ChannelBinding.HandleMovesBinding | kissbot-channel/src/channel_server.rs:196-272 | One handler gives the binding to a connection if and only if it is its successful bind, or it had it and this is not its release. |
| ChannelBinding.HandleKeepsLive | kissbot-channel/src/channel_server.rs:59-85 | After every handler each binding points at a live connection. |
| ChannelBinding.ChannelServer.Init | kissbot-channel/src/channel_server.rs:530-537 | A connection gets the next id and becomes live. |
| ChannelBinding.ChannelServer.BindAgentUser | kissbot-channel/src/channel_server.rs:196-224 | The handler does exactly the bind event: the entry is taken if free, refused if another's, with its error cases. |
| ChannelBinding.ChannelServer.UnbindAgentUser | kissbot-channel/src/channel_server.rs:243-272 | The handler does exactly the unbind event; only the owner can release. |
| ChannelBinding.ChannelServer.CloseConnect | kissbot-channel/src/channel_server.rs:59-85 | The connection and all its bindings in all messengers are gone; others stay. |
| ChannelBinding.ChannelServer.Sweep | kissbot-channel/src/channel_server.rs:66-82 | The sweep loop removes exactly the bindings of the connection. |
| ChannelBinding.ChannelServer.ProcessUserRemove | kissbot-channel/src/channel_server.rs:702-723 | The user's binding is removed and the connection it pointed at is the one to be told. |
| MessageIds.PadIsInjective | kissbot-channel-web/src/messenger.rs:129-133 | Numbers below a million have distinct six-digit forms. |
| MessageIds.IdReads | kissbot-channel-web/src/messenger.rs:129-133 | An id reads as the second, then six digits that are the counter modulo a million. |
| MessageIds.MessageIdSource.NextMsgId | kissbot-channel-web/src/messenger.rs:129-133 | The id is the second and the counter modulo a million; the counter moves on and wraps at 2^32. |
| MessageIds.CloseCountersDiffer | kissbot-channel-web/src/messenger.rs:129-133 | Counters fewer than 967,296 apart differ in their digits, across the wrap as well. |
| MessageIds.IdsAreDistinct | kissbot-channel-web/src/messenger.rs:129-133 | With at most 967,296 draws in any second all ids are pairwise distinct. |
| MessageIds.DistinctIffWithinBound | kissbot-channel-web/src/messenger.rs:129-133 | All ids are distinct for every counter and every clock of valid second stamps with at most `most` draws a second if and only if `most` is at most 967,296: the bound is sharp. |

## Left out

Weaker than the code, or a choice in the form of the model:

- MessageStore.Store.GetBefore: the search for the next lower date by cursor is a walk down the ordered list of known dates, shared with `GetRecent`; each query sees one state of the log, not appends in the middle of it, and `line + 1` does not wrap at 2^32.
- MessageStore.Store.Write: the known dates are an ordered sequence; every file's date is taken to be known, which a freshly started store does not arrange for files it finds on disk.
- Upload.Server.ProcessPayload: the key of the attachment is taken to be well formed, and serial numbers and success codes of the frame are zero.
- Download.Server.SendDownload: the network is a fate per chunk; the race between the client's first chunk and its removal of an old file is not modelled.
- ChannelBinding.BindingFollowsHistory: handlers are atomic, so a bind that arrives while its connection is closing, kept alive by a running download, is not modelled.
- LockRegistry.Registry.GetLock: runs without a reference being dropped meanwhile; the interleavings are in `OneLiveLockPerKey`.
- SearchManager.IndexPair.SyncAll: synchronises the keys one after another while no writer is at work; the program joins the agents' synchronisations concurrently, which is what `SearchIndex.StaleIsAccountedFor` and `SearchOverlap` cover.
- MemoryRecovery.ReadRecentForContext: the store's log is fixed and strictly ordered, and the count is below 2^32; how the store cuts an answer into groups, and their order, is a parameter.
- StationServer.Station.ListTools: station ids are unique and each child is stored under its own id; requests do not overlap. Tool results are not modelled, a call answers with the station and the name the tool runs under.
- SessionObject.SessionContext.RecoverFromCache: a line is a sequence of texts and is readable if it holds exactly one; a text cut in the middle counts as one that is not readable and is not modelled apart from the missing newline.

Not modelled:

- The filter by group of `list_tools_local`, and the HTTP, WebSocket and MCP layers around all handlers.
- Session wrappers other than `build_context`; they lock and delegate.
- Request retries, response parsing, the agentic loop and the abstract memory service.
- What a query to the full-text or completion index matches; the indexes are sets of entries.
- Failing file operations, other than the crash points of the session and the failing append of a download.
- Thumbnails, metadata caches, configuration merging, serde forms and front ends.
- A clock that runs backwards (except in `WriteKeepsOrderIff`), and the wrap of connection and transfer ids.
