# Verified model of the webmail engine

A Dafny model of the parts of the webmail gateway that carry state or an exact text format, with proofs about
every input, every run or every interleaving. `dafny verify dfyconfig.toml` checks it.

- **Message list** (`UidListCache`, `UidListRuns`, `MailboxLimits`, `Pagination`, `PagingWalk`, `PageFetch`): the
  cached UID list with its CONDSTORE delta merge, under any number of concurrent requests against a mailbox that
  changes; the cursor walk; the batched page fetch.
- **Printers and parsers** (`UidSet`, `SearchCriteria`, `Dates`, `CacheKey`, `Template`): UID sets against the
  grammar of section 9 of RFC 3501, search criteria (section 6.4.4), cache keys, template variables.
- **Queues and workers** (`SendQueue`, `ManagedDispatcher`, `ScheduleRunner`): bounded retry with backoff, the worker
  pool and its statistics, the schedule runner against cancellation.
- **Allocators and caches** (`FairUse`, `SessionPool`, `ConnectionPool`, `ConnectionPoolRuns`, `ConnectionPoolSweeps`,
  `ConnectionPoolSearch`, `ConnectionPoolCalls`, `ConnectionPoolRaces`, `MemoryCache`): token buckets, exclusive
  hand-out of sessions and connections, the bounded map with expiry.
- **Folder forest** (`FolderTree`, `FolderForest`): the pointer forest built through a name map and its in-place sort.
- **Shared** (`Wrappers`, `Text`, `Sorting`, `Counting`, `GoInt`): result types, string functions, sort.Slice as "some
  sorted permutation", sizes of maps, 64-bit arithmetic.

Where the source runs goroutines, a module has a state, an action for each atomic step (a section under a lock, a
channel operation, an atomic counter, or one access where the source does not take the lock everywhere), a `Next` or
`Step` function, and runs as sequences of actions; history variables record what the counters are compared with.
Classes with the source's fields have a method for each section, whose contract is that step, or that step's state
function. Times, identifiers, random choices and the answers of servers are inputs; a range over a Go map meets its
keys in any order.

Some properties fail for some inputs. They are stated as an if-and-only-if with the condition under which the code
meets them, or beside a failing input or run: the delta merge of a raw list for descending display, the
anchor of a cursor on a list that shrank, quotes and long years in search queries, colons in cache keys, folder names
listed twice, a template value that contains its own placeholder, an invalidation that hits a held session or a ping
that fails while the session is acquired, a sweep of the connection pool that overlaps another call, the limit of
that pool with several acquirers, a schedule whose name is taken over, released tokens whose sum overflows,
the wait estimate for long waits, a folder whose count hides a change from a server without mod-sequences, and the end
time of a schedule whose tick reads the clock twice.

## Model

| member | source | states |
|---|---|---|
| `UidListCache.FetchIncrementalUpdates` | internal/service/message_service_util.go:109-158 | the delta loop computes the merge of the cached list with the changed UIDs it does not hold, or fails when the search fails |
| `UidListCache.PrepareUIDs` | internal/service/message_service_message.go:308-335 | the final ordering: an already sorted list as it is, a raw one reversed for descending order |
| `UidListCache.LoadUIDs` | internal/service/message_service_message.go:157-335 | for every verdict on the cache and every server answer, which list is shown and exactly what is written back to the cache |
| `UidListCache.ShownFromCacheExactly` | internal/service/message_service_util.go:55-103 | nothing is asked of the server exactly when the cached list is for the sort asked for, at most ten minutes old, the folder has not lost a tenth, no mod-sequence is newer that CONDSTORE could use, and with mod-sequence 0 the count is unchanged; the list is then shown in display order |
| `UidListCache.MergedExactly` | internal/service/message_service_message.go:170-284 | the delta is merged exactly when such a list is there, the mod-sequence has advanced and the server has CONDSTORE and answers; else the reload decides, and nothing is shown only when it fails |
| `UidListCache.StoredIsShownAgain` | internal/service/message_service_message.go:157-284 | what a request stores is shown to the next one for the same sort within ten minutes, with nothing asked or stored, if count and mod-sequence are the same |
| `UidListCache.MergeDistinct` | internal/service/message_service_util.go:126-157 | a merge never lists a UID twice |
| `UidListCache.MergeKeepsOrderExactly` | internal/service/message_service_util.go:145-155 | for stored lists in display order, or ascending ones, the list shown after a merge is in order if and only if every UID added is newer than the whole list |
| `UidListCache.RawDescendingMergeExactly` | internal/service/message_service_util.go:145-152 | a raw ascending list merged for descending display stays in order only when nothing is added, or one UID to an empty list |
| `UidListCache.RawDescendingExample` | internal/service/message_service_util.go:147-152 | a concrete raw list that a descending merge puts out of order |
| `UidListRuns.StepKeepsInv` | internal/service/message_service_message.go:157-291 | every step of the mailbox and of any number of concurrent requests keeps every cache entry sound: nothing listed twice, what is missing is younger than its mod-sequence, what is extra has been expunged |
| `UidListRuns.HitsAreSound` | internal/service/message_service_util.go:55-103 | in every run on a server that reports mod-sequences, a cache hit shows every message that was there at SELECT and still is, once each and in display order |
| `UidListRuns.HitsHaveTheCount` | internal/service/message_service_util.go:92-99 | in every run on a server that reports none, a cache hit is for the sort asked for, at most ten minutes old, and lists as many UIDs as the folder had messages at SELECT, each once; it shows what was there if and only if nothing it lists had been expunged by then |
| `UidListRuns.HitsWithoutExpunge` | internal/service/message_service_util.go:92-99 | so with no expunge since the reload of the whole folder and since SELECT it shows exactly what was there |
| `UidListRuns.CountHidesAChange` | internal/service/message_service_util.go:92-99 | a run in which one message arrives and one is expunged: the count is the same and the hit shows the one that has gone |
| `UidListRuns.RefreshesAreSound` | internal/service/message_service_message.go:164-284 | in every run, after a delta or a reload no UID is listed twice, the live list in display order is what is left of the list without expunged UIDs, and with no expunge since the last full reload it equals a full reload |
| `UidListRuns.EqualsFullReload` | internal/service/message_service_util.go:105-158 | with no expunge since the last full reload the list shown is exactly the full reload |
| `UidListRuns.ShowsLiveList` | internal/service/message_service_util.go:105-158 | without the expunged UIDs, the list shown and the live list in display order are the same sequence |
| `UidListRuns.RequestIsLoad` | internal/service/message_service_message.go:157-335 | a request that nothing interrupts is the steps cache read, search and cache write, and shows and stores what LoadUIDs does, for every verdict and every answer or failure of the server |
| `Pagination.PageSize` | internal/service/message_service_message.go:41-46 | the page size is between 1 and 200 and is the limit asked for when that is in range |
| `Pagination.StartIndex` | internal/service/message_service_message.go:352-383 | the start index loop computes the position after the anchor, or the page-based one |
| `Pagination.Paginate` | internal/service/message_service_message.go:385-413 | slice, next cursor, totals and the empty page past the end |
| `Pagination.PageFacts` | internal/service/message_service_message.go:302-413 | number, slice, cursor and HasMore of a page, and its total: the length of the list, or the count of a folder of more than 50000 messages |
| `Pagination.PagesSuffice` | internal/service/message_service_message.go:391-394 | the number of pages is the least that shows the total, and 1 for none |
| `Pagination.StartIs` | internal/service/message_service_message.go:352-383 | the page starts after the first place of the anchor exactly when the predicted place is inside the list and holds another UID |
| `Pagination.AnchorHonouredExactly` | internal/service/message_service_message.go:360-383 | the page starts right after the anchor if and only if the position its page number predicts is inside the list |
| `Pagination.ShrunkListLosesTail` | internal/service/message_service_message.go:362-408 | a list that shrank: the anchor is still there and the next page is empty |
| `Pagination.NextPage` | internal/service/message_service_message.go:352-413 | with new UIDs in front, the page after n delivered UIDs holds the next ones of the first list, and its cursor is right |
| `Pagination.WalkDelivers` | internal/service/message_service_message.go:496-508 | after k loads of the next cursor, whatever arrived in front between loads, exactly the first UIDs of the first list have been delivered, in order |
| `Pagination.WalkIsExact` | internal/service/message_service_message.go:496-508 | the cursor walk delivers every UID of the first load exactly once and in order and stops after exactly max(1, ceil(n / size)) pages |
| `PagingWalk.WalkLosesOnlyRemoved` | internal/service/message_service_message.go:352-413 | with UIDs arriving and disappearing between loads, as long as the cursor works, what was delivered and what is due are the first list in order, each UID once, without some that were removed |
| `PagingWalk.WalkEnds` | internal/service/message_service_message.go:352-413 | after as many loads as the first list has pages the walk has ended, and every UID of the first list that was never removed was delivered exactly once |
| `PagingWalk.NextSlice` | internal/service/message_service_message.go:360-413 | while the UID of the cursor survives and the predicted position is inside the list, the page starts with what is still due |
| `PageFetch.FetchPage` | internal/service/message_service_message.go:420-459 | the batch loop with its envelope map returns the table of answers in page order |
| `PageFetch.FetchBatch` | internal/service/message_service_message.go:427-440 | batch number i asks the server for the i-th slice of the page |
| `PageFetch.BatchesExactly` | internal/service/message_service_message.go:420-431 | the batches are the page in order, none empty and none of more than 100 UIDs |
| `PageFetch.FetchMessages` | internal/pool/imap_adapter.go:372-405 | an empty request is not sent; otherwise the ranges of the sorted UIDs are |
| `PageFetch.RangesSentDenoteBatch` | internal/pool/imap_adapter.go:380-405 | the ranges sent for a batch denote exactly its UIDs, disjoint and non-adjacent |
| `PageFetch.BatchedFetchRefinesLookup` | internal/service/message_service_message.go:420-459 | for a server that answers any subset of each batch in any order, or fails a batch, the envelopes are one lookup per UID in page order, keeping the answered ones |
| `PageFetch.FullAnswersLoseNothing` | internal/service/message_service_message.go:420-459 | with full answers no message on the page is lost |
| `UidSet.BuildUIDSet` | internal/pool/imap_client.go:998-1033 | the text, read by the grammar of section 9 of RFC 3501, expands to exactly the input list if and only if the list is nonempty and free of zeros, wrap at 2^32 - 1 included |
| `UidSet.BuildUIDRanges` | internal/pool/imap_adapter.go:386-405 | the same consolidation loop into ranges |
| `UidSet.ReadsBackExactly` | internal/pool/imap_client.go:998-1033 | the round trip, both directions |
| `UidSet.ReadIsDecimal` | internal/pool/imap_client.go:998-1033 | the reader takes each number in just the form the printer writes |
| `UidSet.ReadPartExactly` | internal/pool/imap_client.go:998-1033 | the reader takes a part only as one number or as two with one colon between them |
| `UidSet.SortedRangesDenote` | internal/pool/imap_client.go:1010-1030 | on sorted distinct input the ranges denote exactly the list and are disjoint and non-adjacent |
| `UidSet.RangesAreFewest` | internal/pool/imap_client.go:1010-1030 | no set of ranges that denotes the same list has fewer of them |
| `SearchCriteria.TokenizeCriteria` | internal/pool/imap_adapter.go:939-966 | the scanning loop of the tokenizer |
| `SearchCriteria.ParseSearchCriteria` | internal/pool/imap_adapter.go:871-937 | the parsing loop: keys with values, flags, unreadable dates and unknown tokens skipped |
| `SearchCriteria.BuildSearchQuery` | internal/service/search_strategy.go:129-178 | the query text; parsing it gives exactly what was asked for if and only if no used value holds a quote, the years have four digits and no day is 1 January of year 1 |
| `SearchCriteria.BuildFieldParts` | internal/service/search_strategy.go:32-62 | the header and body clauses in order, under either strategy |
| `SearchCriteria.AppendFlagParts` | internal/service/search_strategy.go:66-72 | one UNSEEN clause for each "seen" in HasFlags |
| `SearchCriteria.RoundTripExactly` | internal/pool/imap_adapter.go:871-973 | printing and parsing a query is exact if and only if its values are free of quotes, its years have four digits and no day is 1 January of year 1, the zero time of Go; even for values that are keywords or only spaces |
| `SearchCriteria.ScanQuery` | internal/pool/imap_adapter.go:939-966 | the text of any clauses tokenizes to exactly their tokens |
| `SearchCriteria.TokensNonempty` | internal/pool/imap_adapter.go:939-966 | no token is empty |
| `SearchCriteria.AllForNothing` | internal/service/search_strategy.go:129-178 | a query that asks for nothing is written as ALL |
| `SearchCriteria.KeyExactly` | internal/pool/imap_adapter.go:883-931 | a token is a search key exactly when it spells it, in any case |
| `SearchCriteria.FlagExactly` | internal/pool/imap_adapter.go:885-888 | a token is a flag exactly when it spells it, in any case, and counts once |
| `SearchCriteria.TrimmedExactly` | internal/pool/imap_adapter.go:872-875 | trimming takes white space off both ends and leaves none there |
| `SearchCriteria.UnquotedExactly` | internal/pool/imap_adapter.go:968-973 | a pair of quotes around a value is taken off, and nothing else |
| `SearchCriteria.ParsedReadable` | internal/pool/imap_adapter.go:871-937 | nothing the parser returns holds a quote, a year outside 0 to 9999 or the zero day |
| `Dates.DateRoundTrip` | internal/service/search_strategy.go:102-110 | a day printed and parsed comes back if and only if its year has four digits |
| `Dates.ReadExactly` | internal/pool/imap_adapter.go:918-931 | a text is read as a day if and only if it is that day as printed, with a year of four digits and letters in any case |
| `Dates.LastDays` | internal/pool/imap_adapter.go:871-937 | the days that are dates |
| `CacheKey.MessageKeyBuilder.AccountID` | internal/cachekey/cache_key.go:40-43 | the setter stores the account and leaves the rest |
| `CacheKey.MessageKeyBuilder.Folder` | internal/cachekey/cache_key.go:46-49 | the setter stores the folder and leaves the rest |
| `CacheKey.MessageKeyBuilder.UID` | internal/cachekey/cache_key.go:52-55 | the setter stores the UID and leaves the rest |
| `CacheKey.MessageKeyBuilder.Build` | internal/cachekey/cache_key.go:59-71 | the first validation error, or the key; a key of colon-free parts parses back to them |
| `CacheKey.MessageKey` | internal/cachekey/cache_key.go:95-101 | the builder in one call |
| `CacheKey.ParseThenJoin` | internal/cachekey/cache_key.go:273-279 | whenever parsing succeeds, joining the parts gives the key back |
| `CacheKey.ValidExactly` | internal/cachekey/cache_key.go:59-71 | parts are valid exactly when the account starts with "acc_", the folder is not empty, and the UID is in decimal digits and from 1 to 2^32 - 1; else the first that is not decides the error |
| `CacheKey.KeysAre` | internal/cachekey/cache_key.go:57-131 | the text of a message key and of a content hash key |
| `CacheKey.ParsesExactly` | internal/cachekey/cache_key.go:273-279 | a text parses to parts if and only if it is their key and none of them holds a colon |
| `CacheKey.ParseInvertsExactly` | internal/cachekey/cache_key.go:273-279 | parsing inverts the key of valid parts if and only if neither account nor folder holds a colon |
| `CacheKey.MessageKeyInjective` | internal/cachekey/cache_key.go:59-71 | keys of colon-free accounts are injective, for any folder names |
| `CacheKey.CollidesExactly` | internal/cachekey/cache_key.go:59-71 | other valid parts have the same key if and only if the account ID has a colon, or the folder has one that is not its last character |
| `CacheKey.ColonInAccountCollides` | internal/cachekey/cache_key.go:236-245 | for example, an account ID with a colon, which validation accepts, shares its keys with another account |
| `CacheKey.MessageKeyIsNoHashKey` | internal/cachekey/cache_key.go:125-130 | no message key is a content hash key |
| `Template.FindSubstring` | internal/service/send_service.go:576-586 | the leftmost occurrence, or -1 |
| `Template.ReplaceFirst` | internal/service/send_service.go:568-574 | one replacement at the leftmost occurrence, or the text itself |
| `Template.ReplaceAll` | internal/service/send_service.go:555-566 | whenever some number of rounds leads to a stable text, the loop stops at such a text; the target is gone from it unless it was replaced by itself |
| `Template.FillPlaceholder` | internal/service/send_service.go:128-134 | the same for a placeholder: no occurrence is left |
| `Template.BraceFreeStops` | internal/service/send_service.go:128-134 | for a value without opening braces the loop stops on every text |
| `Template.ShrinkingStops` | internal/service/send_service.go:555-566 | the loop stops on every text when some character is rarer in the replacement than in the target |
| `Template.SelfReferenceStopsExactly` | internal/service/send_service.go:555-566 | for a value that contains its own placeholder the loop stops if and only if the text has no placeholder |
| `Template.PlaceholderShrinks` | internal/service/send_service.go:128-134 | a placeholder has more opening braces than any brace-free value |
| `Template.ReplaceOnceCounts` | internal/service/send_service.go:568-574 | each replacement changes the count of every character by the difference of value and target |
| `Template.TemplateIsFilled` | internal/service/send_service.go:128-134 | on a template whose own text has no braces, the result is the value put once for every placeholder |
| `Template.StableIsUnique` | internal/service/send_service.go:555-566 | the stable text does not depend on how many rounds were made |
| `Template.JoinedPlaceholder` | internal/service/send_service.go:558-564 | a replacement can join the text around it into a new placeholder, which is then replaced |
| `Template.SelfReferenceNeverStops` | internal/service/send_service.go:558-564 | a value that contains its own placeholder is never used up: every round changes the text |
| `FolderTree.IndexFolders` | internal/service/message_service_folder.go:123-131 | the name map has one fresh childless node per listed name, holding the last record of that name |
| `FolderTree.FindDelimiter` | internal/service/message_service_folder.go:135-142 | the first usable delimiter, or "/" |
| `FolderTree.AttachFolder` | internal/service/message_service_folder.go:154-168 | a folder goes to the end of its parent's children when the parent is listed, and is a root otherwise; nothing else changes |
| `FolderTree.LinkFolders` | internal/service/message_service_folder.go:144-169 | after the loop every node has exactly the folders attached to it, in list order |
| `FolderTree.CompareNames` | internal/service/message_service_folder.go:179-216 | the comparator with its loop over the standard names; SortedExactly says what it means |
| `FolderTree.SortedExactly` | internal/service/message_service_folder.go:178-216 | being sorted by the comparator is: INBOX, DRAFTS, SENT, TRASH, JUNK and ARCHIVE first, in this order and in any case, then the others by the code points of their upper-cased names |
| `FolderTree.DelimiterIsFirst` | internal/service/message_service_folder.go:135-142 | the delimiter is that of the first folder whose delimiter is not empty and not a space, or "/" without one |
| `FolderTree.ParentEndsAtLast` | internal/service/message_service_folder.go:155-158 | the parent name ends at the last delimiter; without a delimiter there is no parent |
| `FolderTree.LessIsWeakOrder` | internal/service/message_service_folder.go:179-216 | the comparator is a strict weak order for any upper-casing, as sort.Slice requires |
| `FolderTree.SortFolderTree` | internal/service/message_service_folder.go:178-223 | the recursive sort terminates, permutes every list of siblings, and puts every list below the given nodes in order |
| `FolderTree.SortNode` | internal/service/message_service_folder.go:219-222 | the recursive call on one node does the same below it and leaves every other list as it was or in order |
| `FolderTree.BuildFolderTree` | internal/service/message_service_folder.go:117-175 | every node has exactly the listed folders whose parent it is, every other listed folder is a root, and among the roots and in every list of siblings the six standard folders come first, in their order, and the others by code points |
| `FolderTree.ParentShorter` | internal/service/message_service_folder.go:155-158 | a parent name followed by the delimiter is a prefix of the name, so it is strictly shorter |
| `FolderTree.AttachedExactly` | internal/service/message_service_folder.go:154-168 | with a delimiter of one character a folder is attached exactly to the listed folder named by what is before its last delimiter |
| `FolderTree.RecordIsLast` | internal/service/message_service_folder.go:123-131 | a name stands for the last record listed under it |
| `FolderForest.BuiltIsForest` | internal/service/message_service_folder.go:117-175 | what the linking and sorting loops leave is a forest in the sense of the next rows |
| `FolderForest.WalkIsPermutation` | internal/service/message_service_folder.go:144-169 | for distinct names, walking the pointers from the roots lists exactly the input folders |
| `FolderForest.ReachedOnceExactly` | internal/service/message_service_folder.go:144-169 | every folder is reached exactly once if and only if no name is listed twice |
| `FolderForest.OnlyPath` | internal/service/message_service_folder.go:154-168 | any path from a root to a folder is the chain of its parents |
| `FolderForest.LineageIsPath` | internal/service/message_service_folder.go:154-168 | the chain of parents of every listed folder is a path from a root |
| `ManagedDispatcher.RunKeepsInv` | internal/taskmaster/managed.go:137-363 | every run keeps all the counter equations and the first-in-first-out history |
| `ManagedDispatcher.StatisticsBalance` | internal/taskmaster/managed.go:137-181 | in every interleaving received = completed + failed + TasksInFlight + cancelled + still inside; queued + running = TasksInFlight + sent but not counted; the queue stays within the buffer and running within the workers |
| `ManagedDispatcher.SelectExactly` | internal/taskmaster/managed.go:164-175 | a request is accepted exactly while the queue has room, found refused exactly while it has none, and given up at any time |
| `ManagedDispatcher.StepsExactly` | internal/taskmaster/managed.go:164-353 | which of the other steps are possible when |
| `ManagedDispatcher.DepthStep` | internal/taskmaster/managed.go:166-353 | the queue depth on record is that of the last statistics update |
| `ManagedDispatcher.StartedAtMostOnce` | internal/taskmaster/managed.go:249-271 | requests start in the order the channel took them, each at most once and on one worker at a time, and each accepted one is queued, running or finished |
| `ManagedDispatcher.QuiescentTotals` | internal/taskmaster/managed.go:341-363 | with nothing inside, queued or running, TasksInFlight is zero and the results add up |
| `ManagedDispatcher.InFlightCanBeNegative` | internal/taskmaster/managed.go:165-169 | a worker can report before the dispatcher counts: TasksInFlight is then -1 |
| `ManagedDispatcher.Dispatcher.constructor` | internal/taskmaster/managed.go:40-67 | the configured sizes or the defaults of 4 workers and 100 slots |
| `ManagedDispatcher.Dispatcher.Accept` | internal/taskmaster/managed.go:137-154 | the two checks and the first counter |
| `ManagedDispatcher.Dispatcher.TrySend` | internal/taskmaster/managed.go:164-175 | the select: any ready case, the default one only when none is ready |
| `ManagedDispatcher.Dispatcher.CountOutcome` | internal/taskmaster/managed.go:166-179 | the counters after each outcome |
| `ManagedDispatcher.Dispatcher.Dispatch` | internal/taskmaster/managed.go:137-181 | uninterrupted, the call is the three steps that go with its result, and each error says why |
| `ManagedDispatcher.Dispatcher.ReceiveTask` | internal/taskmaster/managed.go:262-268 | a worker takes the oldest request |
| `ManagedDispatcher.Dispatcher.UpdateStats` | internal/taskmaster/managed.go:341-353 | one result is counted and one task leaves the count in flight |
| `ManagedDispatcher.Dispatcher.ProcessTask` | internal/taskmaster/managed.go:274-338 | uninterrupted, a task is begun, reported once and left, and a task no longer registered counts as failed |
| `ScheduleRunner.ExecutionsBounded` | internal/taskmaster/scheduler.go:292-367 | in every interleaving executionCount stays within MaxExecutions when that is positive, and the dispatches begun are executionCount or executionCount - 1 |
| `ScheduleRunner.CountedExactly` | internal/taskmaster/scheduler.go:324-351 | a tick is counted exactly when the schedule is active, has executions left and the end time has not passed; else the runner ends and the schedule is inactive |
| `ScheduleRunner.AdmittedByEnd` | internal/taskmaster/scheduler.go:340-350 | in every run the end time had not passed when it was checked for the last execution |
| `ScheduleRunner.LastRunByEnd` | internal/taskmaster/scheduler.go:340-350 | so the last recorded run is not past the end time if the two clock readings of a tick give the same time |
| `ScheduleRunner.LastRunCanPassEnd` | internal/taskmaster/scheduler.go:340-350 | a run in which they differ and the recorded run is past the end time |
| `ScheduleRunner.QuitsExactly` | internal/taskmaster/scheduler.go:316-323 | a waiting runner can leave exactly when its channel is closed or the context done |
| `ScheduleRunner.GoesOn` | internal/taskmaster/scheduler.go:292-367 | a runner goes from its delay to waiting, from a counted tick to the dispatch, and from there to waiting |
| `ScheduleRunner.ContextEndsAll` | internal/taskmaster/scheduler.go:316-323 | once the context is done every waiting runner can leave |
| `ScheduleRunner.CreatedExactly` | internal/taskmaster/scheduler.go:138-188 | a schedule is created exactly with a positive interval, active, not yet run, and due when it was asked to start |
| `ScheduleRunner.AtMostOneAfterCancel` | internal/taskmaster/scheduler.go:239-257 | after CancelSchedule has returned at most one more dispatch begins in any continuation, even if ticker and stop channel are both ready |
| `ScheduleRunner.OneCanBeginAfterCancel` | internal/taskmaster/scheduler.go:347-354 | the bound is reached: a runner past its critical section still dispatches |
| `ScheduleRunner.ClosedAtMostOnce` | internal/taskmaster/scheduler.go:252-253 | the stop channel is open whenever CancelSchedule closes it |
| `ScheduleRunner.NameTakenOver` | internal/taskmaster/scheduler.go:155-176 | scheduling under a name in use takes the earlier schedule out of the map |
| `ScheduleRunner.OrphanIsNeverCancelled` | internal/taskmaster/scheduler.go:239-257 | a schedule out of the map is never cancelled, in any continuation |
| `ScheduleRunner.CancellableExactly` | internal/taskmaster/scheduler.go:239-257 | from every reachable state some continuation closes the open stop channel of a schedule if and only if the schedule is in the map |
| `ScheduleRunner.Schedule.OnTick` | internal/taskmaster/scheduler.go:324-351 | the critical section of a tick: it dispatches exactly when the schedule is active, below its limit, and not past its end time |
| `ScheduleRunner.TaskScheduler.ScheduleTask` | internal/taskmaster/scheduler.go:138-188 | the two checks, and a fresh schedule registered under its name |
| `ScheduleRunner.TaskScheduler.CancelSchedule` | internal/taskmaster/scheduler.go:239-257 | fails exactly on a name that is not registered; otherwise clears, closes and unregisters that schedule only |
| `SendQueue.ExactlyOnePlace` | internal/service/send_service.go:221-387 | in every run each submitted email is in exactly one of pending, scheduled, sent, failed, cancelled |
| `SendQueue.RetryIsBounded` | internal/service/send_service.go:358-387 | at most three attempts, none after one that succeeded, none before the time asked for, attempt k + 1 at least k minutes after failure k, and a queued email has retries left |
| `SendQueue.FinishedIsFinal` | internal/service/send_service.go:358-387 | a sent, failed or cancelled email is never queued or attempted again |
| `SendQueue.SubmittedExactly` | internal/service/send_service.go:221-265 | an email is scheduled exactly when its time is not past when it is checked, and queued at once otherwise; what is recorded of it |
| `SendQueue.CancelledExactly` | internal/service/send_service.go:288-307 | cancelling works exactly for what is pending or scheduled, which is then in neither, and moves nothing else |
| `SendQueue.ProcessedAnyTime` | internal/service/send_service.go:342-355 | the scheduled emails can be processed at any time, and those that are due go to the end of the queue in the order met |
| `SendQueue.AttemptedAnyTime` | internal/service/send_service.go:358-387 | the first pending email can always be attempted, which counts one attempt, and it is scheduled again exactly after a first or second failure |
| `SendQueue.DueBecomePending` | internal/service/send_service.go:342-355 | in every run, processing the scheduled emails moves exactly those whose time has come |
| `SendQueue.NewGoBehind` | internal/service/send_service.go:251-355 | what is submitted or becomes due goes behind everything pending |
| `SendQueue.FirstComeFirstServed` | internal/service/send_service.go:358-387 | in every continuation, of two pending emails the later one is not attempted before the earlier one is attempted or cancelled |
| `SendQueue.StepKeepsInv` | internal/service/send_service.go:221-387 | every operation keeps the places disjoint, the attempts counted and the backoff on record |
| `SendQueue.AttemptEmail` | internal/service/send_service.go:371-386 | one attempt keeps the record of an email in order, and the backoff set is k minutes after failure k |
| `SendQueue.QueuedEmail.Record` | internal/service/send_service.go:371-386 | the bookkeeping after one attempt |
| `SendQueue.SendQueue.ScheduleEmail` | internal/service/send_service.go:221-248 | rejects exactly a time in the past when it is checked; otherwise the email is scheduled, even if the time has passed before the lock is taken |
| `SendQueue.SendQueue.QueueEmail` | internal/service/send_service.go:251-265 | the email goes to the end of the pending queue |
| `SendQueue.SendQueue.CancelEmail` | internal/service/send_service.go:288-307 | succeeds exactly for an email in a queue, and removes it from there only |
| `SendQueue.SendQueue.ProcessScheduled` | internal/service/send_service.go:342-355 | the range over the map moves exactly the due emails to the end of the pending queue, in any order: afterwards no scheduled email has a time that has come, and each that had is pending |
| `SendQueue.SendQueue.ProcessPending` | internal/service/send_service.go:358-387 | one attempt on the first pending email: sent, queued again with backoff, or failed |
| `SessionPool.OneUserPerPrimary` | internal/pool/imap_session_pool.go:85-248 | in every interleaving in which no invalidation hits a session a caller holds and no failing ping ends between the two reads of an acquirer that takes the session, each primary adapter has at most one user, and it is marked as in use exactly while it has one |
| `SessionPool.OthersGetPrivate` | internal/pool/imap_session_pool.go:96-125 | in every state of such a run, an acquirer that found a healthy session gets it if nobody uses it, and otherwise connects a private one |
| `SessionPool.UngentleLeadsToSharing` | internal/pool/imap_session_pool.go:85-248 | after any such run, any step that breaks either condition can be continued to two callers on one adapter, without a further invalidation |
| `SessionPool.OnlyGentleRunsAreSafe` | internal/pool/imap_session_pool.go:85-248 | so a run in which a condition is broken anywhere has a first step that breaks it, and sharing can follow it |
| `SessionPool.OnlyPingsComeBetween` | internal/pool/imap_session_pool.go:96-125 | between the two reads of an acquirer only the ping of that very session can make it unhealthy or idle |
| `SessionPool.PingCanFailBetween` | internal/pool/imap_session_pool.go:323-336 | a run without any invalidation in which a failing ping ends between the two reads |
| `SessionPool.CleanupCanHitHolder` | internal/pool/imap_session_pool.go:349-365 | the invalidation that cleanup starts asynchronously can itself hit a held session |
| `SessionPool.StepKeepsInv` | internal/pool/imap_session_pool.go:85-371 | every step that meets the conditions keeps exclusive use, the in-use marks and the lock |
| `SessionPool.RefusedExactly` | internal/pool/imap_session_pool.go:88-94 | an acquire is refused exactly in the ten seconds after the last connection that failed |
| `SessionPool.FailureIsRemembered` | internal/pool/imap_session_pool.go:88-94 | in every run the time remembered is that of the last connection that failed, whatever succeeded since |
| `SessionPool.FindsExactly` | internal/pool/imap_session_pool.go:96-230 | an acquirer goes for the session in the map exactly while it is healthy, and what it has connected is kept private exactly then |
| `SessionPool.StampsStep` | internal/pool/imap_session_pool.go:100-248 | a session was created at its insertion and last used when it was last taken or released; pings do not count |
| `SessionPool.MarksAreBinary` | internal/pool/imap_session_pool.go:100-333 | in every run the in-use mark is 0 or 1 |
| `SessionPool.ConnectsExactly` | internal/pool/imap_session_pool.go:117-190 | who can fail to connect, use a burst connection, close it, or insert a session |
| `SessionPool.RoundsExactly` | internal/pool/imap_session_pool.go:304-371 | when a keep-alive round marks a session, cleanup starts, a ping ends, and an owed invalidation is made |
| `SessionPool.CleanupExactly` | internal/pool/imap_session_pool.go:345-370 | cleanup takes away exactly a session that is unhealthy, or idle and unused for longer than MaxIdleTimeout or older than MaxSessionAge |
| `SessionPool.MarkMatches` | internal/pool/imap_session_pool.go:313-320 | a keep-alive round marks an account's session exactly when the step of the machine does |
| `SessionPool.CleanupMatches` | internal/pool/imap_session_pool.go:345-370 | a cleanup round does to an account what the step of the machine does |
| `SessionPool.IMAPSessionPool.ReadHealthy` | internal/pool/imap_session_pool.go:86-100 | the first locked section of Acquire up to the lock of the session: throttled, healthy or connect |
| `SessionPool.IMAPSessionPool.LockSession` | internal/pool/imap_session_pool.go:100-124 | the rest of it, for whatever the session is by then: reuse it when it is idle, else burst |
| `SessionPool.IMAPSessionPool.ConnectFailed` | internal/pool/imap_session_pool.go:166-168 | a failed connection is remembered for the throttle |
| `SessionPool.IMAPSessionPool.InsertSession` | internal/pool/imap_session_pool.go:190-230 | the second locked section: private when a healthy primary has appeared, else pooled |
| `SessionPool.IMAPSessionPool.Release` | internal/pool/imap_session_pool.go:234-248 | marks the session now in the map as idle, and no other account's |
| `SessionPool.IMAPSessionPool.Invalidate` | internal/pool/imap_session_pool.go:264-273 | takes the account's session out of the map |
| `SessionPool.IMAPSessionPool.MarkIdle` | internal/pool/imap_session_pool.go:304-321 | the collecting loop marks exactly the healthy idle sessions |
| `SessionPool.IMAPSessionPool.PerformCleanup` | internal/pool/imap_session_pool.go:339-371 | the loop expires exactly the idle sessions over age and lists exactly the accounts to invalidate |
| `ConnectionPoolSweeps.PoolIsConsistent` | internal/pool/connection_pool.go:91-322 | in every run of gentle steps each list has its account's connections, each once, but for one just being inserted, and beyond them only what somebody is removing; TotalCreated - TotalClosed is the number stored plus those about to be counted; nobody loses a connection but by Close or CloseAccount, and nobody panics |
| `ConnectionPoolSweeps.SettledAgrees` | internal/pool/connection_pool.go:91-322 | with the lock free and no removal under way that is: map and lists describe the same connections and TotalCreated - TotalClosed is the number stored |
| `ConnectionPoolSweeps.StepExactly` | internal/pool/connection_pool.go:91-322 | a step keeps this if and only if it is gentle: the counter that a removal and the list that a removal or an insertion has read are still as read, and the connection that a removal or an acquirer has found is still stored, and still idle for a sweep |
| `ConnectionPoolSweeps.ConsistentExactly` | internal/pool/connection_pool.go:91-322 | a run in which sweeps without the lock fall anywhere, also inside the locked sections, is consistent in all its states if and only if all its steps are gentle |
| `ConnectionPoolSweeps.GentleAcquiresEnd` | internal/pool/connection_pool.go:91-138 | in gentle runs every acquire is served, failed or still inside |
| `ConnectionPoolSweeps.IdleIsFound` | internal/pool/connection_pool.go:221-240 | in every state that gentle runs reach with the lock free, the search finds an idle connection of the account exactly when there is one |
| `ConnectionPoolSearch.AcquirerIsServed` | internal/pool/connection_pool.go:110-136 | in gentle runs, with sweeps falling into the search, an acquirer is handed a stored idle connection of its own account and kind, which is marked for it, and it goes to dial only when its account has none |
| `ConnectionPoolSearch.StampsStep` | internal/pool/connection_pool.go:110-155 | a stored connection was last used when it was dialled, handed out or released, and keeps account and kind |
| `ConnectionPoolSearch.CountsStep` | internal/pool/connection_pool.go:94-136 | WaitCount, TotalCreated and ErrorCount go up exactly for an acquire that finds the pool full, a dial that is stored, and a dial that fails or an acquire that finds the pool still full |
| `ConnectionPoolSearch.StepsExactly` | internal/pool/connection_pool.go:91-138 | which steps of an acquire are possible when: those under the lock while it is free, the sweep at any time |
| `ConnectionPoolCalls.QuietRunsAreGentle` | internal/pool/connection_pool.go:91-322 | runs in which no removal without the lock overlaps a locked section or another removal are gentle |
| `ConnectionPoolCalls.RemovalRuns` | internal/pool/connection_pool.go:306-319 | the accesses of one removal that nothing interrupts take the connection out of the map, count it, and take it out of its list |
| `ConnectionPoolCalls.SweepRuns` | internal/pool/connection_pool.go:303-322 | the accesses of a sweep without the lock that nothing interrupts close what is stale, like CleanupIdle |
| `ConnectionPoolCalls.TidyRuns` | internal/pool/connection_pool.go:303-340 | the accesses of the cleanup under the lock that nothing interrupts are CleanupIdle |
| `ConnectionPoolCalls.SweepIsExact` | internal/pool/connection_pool.go:303-322 | such a sweep removes exactly the connections that are not in use and were used longer than the timeout ago |
| `ConnectionPoolCalls.CloseRuns` | internal/pool/connection_pool.go:158-179 | the accesses of Close that nothing interrupts are the one step of its specification |
| `ConnectionPoolCalls.CloseAccountRuns` | internal/pool/connection_pool.go:182-197 | the accesses of CloseAccount that nothing interrupts are the one step of its specification |
| `ConnectionPoolCalls.AcquireRuns` | internal/pool/connection_pool.go:91-120 | a search that nothing interrupts takes the first usable connection of the list, or goes to dial, as TryAcquire does |
| `ConnectionPoolCalls.InsertRuns` | internal/pool/connection_pool.go:131-136 | the accesses of the insertion that nothing interrupts are the one step of Insert |
| `ConnectionPoolCalls.ReleaseRuns` | internal/pool/connection_pool.go:142-155 | the two writes of Release that nothing interrupts are the one step of its specification |
| `ConnectionPoolRaces.ClosedTwice` | internal/pool/connection_pool.go:94-115 | a run in which two callers sweep at once: one connection created, two counted as closed, none stored |
| `ConnectionPoolRaces.ListedIdLost` | internal/pool/connection_pool.go:303-322 | a run in which an insertion comes between the read and the write of the list by a sweep: the connection is stored and not listed |
| `ConnectionPoolRaces.RemovedIdListed` | internal/pool/connection_pool.go:133-134 | a run in which a removal comes between the read and the write of the list by an insertion: nothing is under way, and the list names a connection that is not stored |
| `ConnectionPoolRaces.LookupPanics` | internal/pool/connection_pool.go:111-114 | a run in which a connection is deleted between the search and the lookup: nil is dereferenced, and the acquire is neither served nor failed nor inside |
| `ConnectionPoolRaces.ClosedIsHanded` | internal/pool/connection_pool.go:113-117 | a run in which a connection is deleted between the lookup and the mark: the acquirer is handed a closed connection |
| `ConnectionPoolRaces.UsedIsRemoved` | internal/pool/connection_pool.go:303-322 | a run in which a sweep removes a connection that came into use after its check |
| `ConnectionPoolRuns.OneHolder` | internal/pool/connection_pool.go:91-155 | in every run, whatever the sweeps do, no connection is held by two callers, a stored one is in use exactly while it is held, and every acquire is served, failed, still inside, or has panicked with the lock |
| `ConnectionPoolRuns.HoldersStep` | internal/pool/connection_pool.go:91-322 | every access keeps the holders, interrupted calls included |
| `ConnectionPoolRuns.StoredAndDialling` | internal/pool/connection_pool.go:94-136 | in every run with at most n concurrent acquirers, stored plus dialling stays within maxConnections - 1 + n |
| `ConnectionPoolRuns.LimitIsReached` | internal/pool/connection_pool.go:94-136 | for every maxConnections and every n some run reaches that bound |
| `ConnectionPoolRuns.LimitHoldsExactly` | internal/pool/connection_pool.go:94-136 | so maxConnections is kept in all runs if and only if there is at most one acquirer at a time |
| `ConnectionPool.FindIdleIsComplete` | internal/pool/connection_pool.go:221-240 | the connection found is of the account and kind, not in use and used less than the timeout ago; none is found only when the account has none like that |
| `ConnectionPool.FirstUsable` | internal/pool/connection_pool.go:225-239 | the first usable ID of the list, none only if no ID of the list is usable |
| `ConnectionPool.CloseAllCloses` | internal/pool/connection_pool.go:306-321 | closing several connections closes exactly those |
| `ConnectionPool.ConnectionPool.FindIdleConnection` | internal/pool/connection_pool.go:221-240 | the search loop |
| `ConnectionPool.ConnectionPool.TryAcquire` | internal/pool/connection_pool.go:92-120 | a locked section of Acquire: full, an idle connection, or dial |
| `ConnectionPool.ConnectionPool.DialFailed` | internal/pool/connection_pool.go:124-129 | a failed dial is counted as an error and stores nothing |
| `ConnectionPool.ConnectionPool.Insert` | internal/pool/connection_pool.go:131-136 | a dialled connection is stored, listed and counted |
| `ConnectionPool.ConnectionPool.Release` | internal/pool/connection_pool.go:142-155 | marks a stored connection as idle; an unknown ID changes nothing |
| `ConnectionPool.ConnectionPool.Close` | internal/pool/connection_pool.go:158-179 | takes one connection out of the map and out of its account's list |
| `ConnectionPool.ConnectionPool.CloseAccount` | internal/pool/connection_pool.go:182-197 | takes out every connection the account's list names and the list, and counts each once, whatever the list holds |
| `ConnectionPool.ConnectionPool.CleanupIdle` | internal/pool/connection_pool.go:303-322 | called with the lock, or without another call in between, the range over the map closes exactly the stale connections, in any order |
| `ConnectionPool.ConnectionPool.RemoveFromAccount` | internal/pool/connection_pool.go:171-178 | the removing loop cuts out the first occurrence |
| `MemoryCache.RefinesLossyMap` | internal/cache/memory_cache.go:42-97 | Get gives the value of the latest Set not followed by Delete, up to the expiry last given, exactly for keys not evicted; size within MaxSize; every expiry belongs to a stored key |
| `MemoryCache.LostExactly` | internal/cache/memory_cache.go:65-97 | in every run a key is lost exactly when a Set of another key on a full cache gave it up, expired or when nothing had expired, and it was neither set nor deleted since |
| `MemoryCache.SetSucceeds` | internal/cache/memory_cache.go:65-87 | a Set always succeeds: on a full cache some key can be given up |
| `MemoryCache.ScanListsKeys` | internal/cache/memory_cache.go:206-229 | on an unchanged cache, following Scan cursors lists Keys exactly, once each |
| `MemoryCache.WalkIsExact` | internal/cache/memory_cache.go:212-228 | for 64-bit counts the cursors list every key once and in order, without a panic, if and only if the count is positive or there are no keys |
| `MemoryCache.ScanPanicsExactly` | internal/cache/memory_cache.go:212-228 | Scan panics exactly on a cursor past 2^63 - 1, or inside the listing on a count that is negative or overflows |
| `MemoryCache.ListingIsUnique` | internal/cache/memory_cache.go:200-202 | there is only one sorted listing of given keys |
| `MemoryCache.PrefixListing` | internal/cache/memory_cache.go:172-203 | a prefix and an asterisk list exactly the unexpired keys with that prefix |
| `MemoryCache.SingleListing` | internal/cache/memory_cache.go:172-203 | any other pattern lists just that key, if it is there and has not expired |
| `MemoryCache.MemoryClient.Get` | internal/cache/memory_cache.go:42-62 | the unexpired value, or none |
| `MemoryCache.MemoryClient.Exists` | internal/cache/memory_cache.go:100-113 | holds exactly when Get finds a value |
| `MemoryCache.MemoryClient.Set` | internal/cache/memory_cache.go:65-87 | evicts when needed, stores, and sets or clears the expiry |
| `MemoryCache.MemoryClient.Delete` | internal/cache/memory_cache.go:90-97 | removes the key and its expiry |
| `MemoryCache.MemoryClient.Expire` | internal/cache/memory_cache.go:146-154 | sets the expiry of a stored key only |
| `MemoryCache.MemoryClient.TimeToLive` | internal/cache/memory_cache.go:157-169 | the time left, zero when over, -1 without expiry |
| `MemoryCache.MemoryClient.EvictOldest` | internal/cache/memory_cache.go:242-260 | removes an expired key if there is one, else some key |
| `MemoryCache.MemoryClient.Keys` | internal/cache/memory_cache.go:172-203 | exactly the unexpired matching keys, once each and sorted |
| `MemoryCache.MemoryClient.Scan` | internal/cache/memory_cache.go:206-229 | one page of a listing and its next cursor in 64-bit arithmetic, or the panic |
| `FairUse.TokensWithinBounds` | internal/scheduler/fairuse_scheduler.go:264-388 | in all states of a run 0 <= tokens <= maxTokens for every bucket if and only if no release makes the 64-bit sum overflow |
| `FairUse.AdmittedInWindow` | internal/scheduler/fairuse_scheduler.go:183-221 | over any window a bucket admits at most what it has at hand at the start plus ticks plus released tokens, policy changes and overflowing releases included |
| `FairUse.NeverFullIsExact` | internal/scheduler/fairuse_scheduler.go:264-388 | without an overflow, a bucket that is never full loses no token: what it admits is exactly what it had and got, less what is left |
| `FairUse.FullUntilUsed` | internal/scheduler/fairuse_scheduler.go:122-146 | an initialised account has the policy and a bucket full to its size, with the rate and the period of the policy, and it stays full until it is charged, given to, or its policy changed |
| `FairUse.FirstCharge` | internal/scheduler/fairuse_scheduler.go:122-221 | so its first charge is admitted exactly when it is no more than the size |
| `FairUse.ChargeIsCounted` | internal/scheduler/fairuse_scheduler.go:363-372 | the history counts each charge that takes something, once, and what it takes |
| `FairUse.KnownCall` | internal/scheduler/fairuse_scheduler.go:183-221 | a call for an account with a bucket that nothing interrupts is one charge of the cost to that bucket, or free with the policy off |
| `FairUse.UnknownCall` | internal/scheduler/fairuse_scheduler.go:183-221 | a call for an account without a bucket initialises it with the default policy and charges the new bucket |
| `FairUse.ReleaseCall` | internal/scheduler/fairuse_scheduler.go:264-280 | a release for an account with a bucket that nothing interrupts gives back to that bucket |
| `FairUse.AccountsComeAndGo` | internal/scheduler/fairuse_scheduler.go:122-336 | an account can be initialised exactly with a rate that a ticker can have, and a removed one has no bucket and no policy of its own |
| `FairUse.PolicyIsAdopted` | internal/scheduler/fairuse_scheduler.go:305-321 | a new policy is the account's from then on, and its bucket takes over size and rate, with the tokens cut to the size; no other bucket changes |
| `FairUse.TicksExactly` | internal/scheduler/fairuse_scheduler.go:374-388 | every bucket gains a token at a tick unless it is full |
| `FairUse.InitialisedMeanwhile` | internal/scheduler/fairuse_scheduler.go:150-157 | an account that another call has initialised meanwhile is left alone |
| `FairUse.CostsAre` | internal/scheduler/fairuse_scheduler.go:22-32 | the cost of an operation: the policy's, or the default one when that is zero or missing |
| `FairUse.DiscardsOnlyWhenFull` | internal/scheduler/fairuse_scheduler.go:264-321 | a step loses tokens only from a bucket it leaves full, or by an overflow, and then exactly 2^64 |
| `FairUse.FirstCoveringTick` | internal/scheduler/fairuse_scheduler.go:374-388 | with nobody else spending, the tick that first covers a cost is the one numbered by the missing tokens |
| `FairUse.EstimateWithinAMinute` | internal/scheduler/fairuse_scheduler.go:521-546 | for buckets of up to 3 * 10^10 tokens and waits of up to 153722867 minutes the estimate is less than a minute from the moment of that tick, for every phase of the ticker |
| `FairUse.EstimateExactly` | internal/scheduler/fairuse_scheduler.go:521-546 | for any rate and cost it is so for every phase if and only if the rounding of the period has not added up to a minute and the 64-bit duration does not overflow |
| `FairUse.EstimateOtherRates` | internal/scheduler/fairuse_scheduler.go:521-546 | at a rate of zero the source panics; at a negative rate the estimate is the negated number of whole minutes, while it fits |
| `FairUse.NoWait` | internal/scheduler/fairuse_scheduler.go:539-541 | the estimate is zero while the tokens suffice |
| `FairUse.EstimateCanWrap` | internal/scheduler/fairuse_scheduler.go:521-546 | at one token a minute the estimate for 2 * 10^8 tokens is negative |
| `FairUse.ChargesInWindow` | internal/scheduler/fairuse_scheduler.go:183-221 | over any window the number of calls admitted at a cost is at most the tokens at hand at the start plus ticks plus released tokens |
| `FairUse.MeteredCallsCost` | internal/scheduler/fairuse_scheduler.go:196-210 | no policy makes an operation free that the defaults charge for: with the policy enabled the call comes to take at least one token |
| `FairUse.GiveBackExactly` | internal/scheduler/fairuse_scheduler.go:273-279 | a release fills the bucket by its tokens, up to the size, if and only if the 64-bit sum does not overflow; else the bucket is left with a negative number |
| `FairUse.TokenBucket.TryConsume` | internal/scheduler/fairuse_scheduler.go:363-372 | takes the cost exactly when the tokens suffice |
| `FairUse.TokenBucket.Release` | internal/scheduler/fairuse_scheduler.go:273-279 | adds tokens in 64 bits and cuts the sum to the size |
| `FairUse.TokenBucket.OnTick` | internal/scheduler/fairuse_scheduler.go:377-383 | one token more unless full |
| `FairUse.TokenBucket.SetPolicy` | internal/scheduler/fairuse_scheduler.go:313-319 | takes over size and rate and cuts the tokens to the size |
| `FairUse.FairUseScheduler.InitializeAccount` | internal/scheduler/fairuse_scheduler.go:122-146 | a bucket with as many tokens as the policy given, or the default one, allows, and its rate and period; other accounts unchanged |
| `FairUse.FairUseScheduler.InitializeAccountLazy` | internal/scheduler/fairuse_scheduler.go:150-179 | the same with the default policy of 100 tokens and 10 a minute, only for an account without bucket |
| `FairUse.FairUseScheduler.ConsumeTokens` | internal/scheduler/fairuse_scheduler.go:183-221 | admits exactly when the policy is off or the tokens suffice, for a new account when the cost is at most 100; charges only then, and only that account |
| `FairUse.FairUseScheduler.ReleaseTokens` | internal/scheduler/fairuse_scheduler.go:264-280 | gives tokens back to the account's bucket, if it has one |
| `FairUse.FairUseScheduler.UpdatePolicy` | internal/scheduler/fairuse_scheduler.go:305-321 | sets the policy, and size and rate of the bucket, if there is one, whose tokens are cut to the size |
| `FairUse.FairUseScheduler.RemoveAccount` | internal/scheduler/fairuse_scheduler.go:324-336 | forgets bucket and policy |
| `FairUse.FairUseScheduler.EstimateWaitTime` | internal/scheduler/fairuse_scheduler.go:521-546 | the 64-bit estimate for the bucket and policy in place, any rate, zero without a bucket, and no result for the division by zero |

## Left out

- Network, TLS, SMTP, HTTP, SQL and Redis; JSON and base64 of cursors and cached records, which are datatypes here.
- UidListRuns: SELECT reports mod-sequences or always 0, and SelectFolder in the adapter, which never fills HighestModSeq, is the latter; UID order is date order, and UIDs are never reused.
- UidListRuns: order is claimed for lists that hold the whole folder in date order; windowed reloads of 10000 messages and more, and raw lists merged for descending display, keep only "nothing twice", and the exact conditions are in UidListCache.
- Pagination: the cached first page of the message list, which may serve stale pages, and the client-side sort of one page are not modelled.
- SearchMessages, the sort comparators by field, spam scoring, configuration loading and folder sync by UID range.
- SearchCriteria: upper-casing is modelled for the characters whose upper case is an ASCII letter; the others never form a search key.
- UidSet: the reader has no "*", which the printers never write; parseVanishedResponse is not its inverse and is not modelled.
- Template.ReplaceAll: requires that the loop stops, because on some values, like the one in SelfReferenceNeverStops, the source loops forever; which other values with opening braces stop is not characterised. The loop over several variables and three texts is not modelled.
- FolderTree: Depth is not modelled, because it depends on whether a parent is listed before its children; children are a sequence field, so the sharing of a slice's array during the sort is not captured.
- ManagedDispatcher: DispatchSync, which lowers a counter it never raised, the average processing time, LastTaskAt, Stop and statsMonitor are not modelled.
- ScheduleRunner: TaskScheduler.Stop, which no runner listens to, CreateTask and the monitor are not modelled; the initial delay may end at any time.
- SendQueue: the token check and SMTP inside sendQueuedEmail are one outcome, an input; the clock never goes back; queue IDs are assumed distinct, as the source assumes.
- GetSendStatus and GetQueueStats of the send queue only read and are left out.
- SessionPool: each session is released by its holder, once; data races on the flags are read as some order of the accesses; the shutdown branch of StartMaintenance, disabling an account after an authentication failure, and the connection counter are not modelled.
- ConnectionPoolSweeps.ConsistentExactly: each access to the map, the counter and a list is one step, and a list that is read is a value. In the source its array is shared and a removal shifts it in place, which a list read before, also the one that CloseAccount or a search is going through, then shows; and Go may stop the program on concurrent access to a map. QuietRunsAreGentle does not depend on this.
- ConnectionPoolRuns: accesses that no other can tell apart are one step: the size of the map and the list that a search begins with, an entry of a range and its check, the lookup and the first write of Release, the new connection in the map and TotalCreated.
- ConnectionPoolRuns: ActiveCount, IdleCount and closing the sockets are not modelled; connection IDs are assumed distinct, and a connection is not released after it was handed to another caller.
- MemoryCache: one clock reading per operation; values are byte sequences, so the copies the source makes against aliasing have no counterpart.
- MemoryCache.WalkIsExact: for listings of up to 2^62 keys; Go cannot allocate a slice of strings of a quarter of that.
- FairUse: CanExecute and WaitForTokens, which give back one token whatever was charged, the operation queue, Shutdown and LastRefill are not modelled; a charge after the account vanished between initialisation and lookup, where the source dereferences nil, is not a step.
- FairUse.FairUseScheduler.InitializeAccount: requires a rate from 1 to one tick a nanosecond, because a ticker cannot be created for any other.
- FairUse: sizes, costs and releases are assumed to be nonnegative 64-bit numbers in the run theorems.
- FairUse.EstimateWithinAMinute: the policy that created the bucket is in force and nobody else spends or releases; bounds as stated.
- Integers are unbounded, except for UIDs, which wrap as 32-bit numbers, and for tokens, the wait estimate and Scan, which are computed in 64 bits: int is taken as 64 bits wide. Counters of events do not overflow.
