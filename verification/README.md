# crawlex: protocols and parsers, verified

crawlex is a web crawler with a browser-based renderer, a JavaScript SDK and Python helpers. This project models the
parts of it that decide something on their own, apart from the libraries that fetch and store, and proves what they
promise.

- `RenderBudget.dfy`: the lock-free budget of render slots, as steps of any number of workers, and its object.
- `Queue.dfy`, `Crawler.dfy`: the in-memory queue, the deduplication sets, the discovery graph and the two admission
  methods, as objects of one caller.
- `Admission.dfy`, `Dispatch.dfy`, `Retries.dfy`: admission and the dispatch loop as steps of any number of workers and
  loops, and what retries do to its jobs.
- `Tokenizer.dfy`, `CurlArgs.dfy`, `CurlOptions.dfy`: the import of a curl command line, shell words and argument
  list, and what each option means by name.
- `Escapes.dfy`, `HeaderKeys.dfy`, `TomlDocument.dfy`: what the import prints, and readers written from TOML v1.0.0 and
  ECMAScript.
- `Spider.dfy`, `Stream.dfy`: the SDK's spider with checkpoint and resume, and its item streams.
- `Sni.dfy`: the host name in a TLS ClientHello (section 4.1.2 of RFC 8446, section 3 of RFC 6066).
- `JsLiterals.dfy`, `ContentSignal.dfy`, `BlockList.dfy`: the string literals of a script, the Content-Signal groups
  of robots.txt, and the domain block list.
- `Windows.dfy`, `Breaker.dfy`, `WeightedFrontier.dfy`: rolling windows, the request client's circuit breaker, and
  the weighted frontier.
- `Strings.dfy`, `Common.dfy`, `Wrappers.dfy`: the string functions of the Rust standard library that the parsers use,
  and small shared definitions.

Concurrent protocols are functions over action lists, one action for one atomic operation, so a statement about all
lists is a statement about all interleavings. Code that updates in place is a class or a loop whose contract equates
it with such a function, and the promises are proved of the function. Clocks, random draws, fetch results and policy
decisions are arguments.

Where the code does not do what its comments say, or does something a reader may not expect, the code is what is
modelled:

- `try_acquire` is documented as atomic and as leaving the counters untouched on failure (src/scheduler.rs:113-116).
  That holds for a call that is not interrupted and, at rest, for all of them, but a call can be refused by another
  one that is about to be rolled back (`RefusedByAHalfFinishedCall`), exactly when it reads a full slot of which not
  every holder has a guard (`WronglyRefusedIff`).
- The default `requeue_after` makes the successor visible before its predecessor is completed
  (src/queue/mod.rs:58-61); both have the same id in the error path, and a page can get lost
  (`LateCompleteLosesAPage`), exactly when a policy retry does not find its job (`PageKeptIffRetriesFound`).
- The retry limit of the dispatch loop is not applied to retries that the policy decides (src/crawler.rs:909-914);
  `WithinLimitIffGuarded` says when it is kept all the same.
- `toml_escape` writes DEL as it is, which TOML does not allow in a string (src/from_curl.rs:328-344).
- A repeated header can get the key of another header that ends in an underscore and digits
  (src/from_curl.rs:375-383).
- A checkpoint taken in the middle of a page loses the rest of that page, and one with an empty method resumes with
  `GET` (sdk/crawlex-sdk.js:760-781).
- A method with a space can make two requests of the spider share a key (sdk/crawlex-sdk.js:636-638).
- A stream given up before its first `next` stays subscribed (sdk/crawlex-sdk.js:892-905).
- A time stamp of zero counts as none, so the delay after it is not kept (crawlex/access_profiles.py:340).
- The name type in the server_name extension is not looked at, and the name is checked against the end of the buffer
  and not of the extension (scripts/tls-canary.rs:127-145).

## Model

| member | source | states |
|---|---|---|
| RenderBudget.CountersEqualHolders | src/scheduler.rs:104-222 | In every interleaving of any number of acquires and drops, with spurious failures of the weak compare-and-swap anywhere, each host, origin, proxy and session counter equals the number of workers holding that slot. |
| RenderBudget.CountersWithinLimits | src/scheduler.rs:131-157 | In every interleaving the counter of a host stays within `max_per_host`, of an origin within `max_per_origin`, of a proxy within `max_per_proxy` and of a session within `max_per_session`. |
| RenderBudget.GuardsWithinLimits | src/scheduler.rs:113-166 | What the limits are for: in every interleaving the guards alive for one host, one origin, one proxy (or none) and one session are at most as many as the limit of that name. |
| RenderBudget.GiveBackNeverWraps | src/scheduler.rs:201-222 | No rollback or drop ever subtracts from a counter that is zero, as the comment in `undo` claims. |
| RenderBudget.SettledCountersAreGuards | src/scheduler.rs:177-222 | With no call and no drop under way each counter is the number of live guards, so refused acquires leave nothing behind. |
| RenderBudget.LoopValueWasRead | src/scheduler.rs:188-199 | The value the compare-and-swap loop works with is the counter's value at the worker's latest operation, and the worker has been at that loop ever since. |
| RenderBudget.RefusedIffFull | src/scheduler.rs:188-199 | A loop's next operation refuses if and only if at the instant at which the worker's latest operation read the value, within this loop, the limit of workers held the slot. |
| RenderBudget.WronglyRefusedIff | src/scheduler.rs:113-199 | It refuses wrongly, with fewer live guards than the limit at that read, if and only if the slot was full there and one of its holders was in the middle of a call or a drop. |
| RenderBudget.AloneIsAllOrNothing | src/scheduler.rs:113-166 | A call that nobody interrupts, whatever spurious failures it meets, ends with a guard for its own keys and one more on each of its counters, or without a guard and with every counter restored. |
| RenderBudget.AloneByName | src/scheduler.rs:117-166 | Such a call gets its guard if and only if its host is below the host limit, its origin below the origin limit, its proxy, or `_direct_`, below the proxy limit and its session below the session limit; otherwise the first of these that is full has one more refusal counted and nothing else changes. |
| RenderBudget.AloneIsAtomic | src/scheduler.rs:117-166 | Run without interruption the step-by-step protocol computes the same as the one-shot acquire. |
| RenderBudget.AloneDecidesByGuards | src/scheduler.rs:117-185 | From a settled state an uninterrupted call succeeds exactly when each of its slots has fewer live guards than its limit. |
| RenderBudget.RefusedByAHalfFinishedCall | src/scheduler.rs:113-166 | The documented atomicity fails under interleaving: a concrete run in which a call is refused although all four of its slots are free of guards, because a doomed call holds one of them for a moment. |
| RenderBudget.RenderBudgets.TryBump | src/scheduler.rs:188-199 | Takes the slot exactly when its counter is below the limit, however often the exchange fails spuriously. |
| RenderBudget.RenderBudgets.Undo | src/scheduler.rs:138-156 | Gives one taken dimension back and leaves the later ones taken. |
| RenderBudget.RenderBudgets.TryAcquire | src/scheduler.rs:117-166 | If the counter of the host, else of the origin, else of the proxy or `_direct_`, else of the session is at the limit of that name, that one is the error, its refusal is counted and every counter keeps its value; else exactly these four counters go up by one and a guard is returned. |
| RenderBudget.RenderBudgets.DropGuard | src/scheduler.rs:215-222 | Undoes exactly what the acquire took. |
| CrawlQueue.InMemoryQueue.PushUnique | src/queue/inmemory.rs:58-67 | Inserts a job exactly when its key was never inserted before, and remembers the key either way. |
| CrawlQueue.InMemoryQueue.Pop | src/queue/inmemory.rs:77-91 | Hands out a ready job that no queued job precedes, by ready time, then higher priority, then lower id, and registers it; hands out nothing exactly when no queued job is ready. |
| CrawlQueue.InMemoryQueue.Fail | src/queue/inmemory.rs:98-107 | Puts a registered job back with one more attempt, saturating at the largest 32-bit number; does nothing for an unregistered one. |
| CrawlQueue.InMemoryQueue.RequeueAfter | src/queue/mod.rs:58-61 | The default requeue: pushes the successor, then completes the original. |
| Crawler.Dedupe.ProbeUrl | src/frontier/dedupe.rs:70-84 | Only the exact recent set ever answers that a URL is a recent duplicate. |
| Crawler.Dedupe.MarkSeen | src/frontier/dedupe.rs:86-96 | Remembers the key in both sets; the recent set forgets the others exactly when it was at its cap, and never exceeds it. |
| Crawler.Crawler.AdmitFrontierUrl | src/crawler.rs:720-748 | The answer is that of the queue's exact key set; neither the recent set nor a false positive of the bloom filter changes it, and exactly one job is queued for a new key. |
| Crawler.Crawler.EnqueueDiscoveredUrl | src/crawler.rs:750-770 | An edge is recorded exactly when the link is followed and is the first to reach its key. |
| Admission.OneJobPerKey | src/crawler.rs:720-748 | Under any interleaving of workers in probe, push and mark, with cancellation, at most one job is inserted per canonical key. |
| Admission.DuplicateIsKept | src/crawler.rs:727-747 | A URL answered as a duplicate, by the recent set or by the queue, has its job in the queue or a worker in the act of pushing it. |
| Admission.JobsAreTheKeys | src/queue/inmemory.rs:58-67 | Whenever no worker is between the two halves of `push_unique`, the keys inserted are exactly the keys of the jobs admitted. |
| Admission.StoppingLosesIff | src/queue/inmemory.rs:58-67 | Stopping a worker of a reachable state loses an inserted key for good, whatever happens later, if and only if the worker stands between the two halves of `push_unique` with that key; so they must not be separated. |
| Admission.UninterruptedDiscovery | src/crawler.rs:750-770 | From any state of any run, a worker that follows a link from a started page undisturbed has its key in both key sets; a new key gets its job and its edge from that page, a known one changes no job and no edge. |
| Admission.UninterruptedSeed | src/crawler.rs:720-748 | A start URL likewise gets a job if and only if its key is new, and never an edge. |
| Admission.EdgeIffRecorded | src/crawler.rs:750-770 | In every run the edges are exactly the links that were the first to reach their key, except those whose worker was cancelled between pushing the job and recording the edge and those a worker is still about to record. |
| Admission.EdgesFromStarted | src/crawler.rs:750-770 | Every edge starts at the page of a job that was started. |
| Admission.EdgeRecordedOnceFromEarlier | src/crawler.rs:762-767 | A recorded edge is counted once, and its source was inserted strictly before its target. |
| Admission.NoCycle | src/crawler.rs:750-770 | The discovery edges of any run have no cycle and no self-loop, by canonical key. |
| Admission.OneParent | src/crawler.rs:750-770 | Each key has at most one incoming edge. |
| Admission.ChainsAgree | src/crawler.rs:750-770 | The edges form a forest: two discovery chains ending in the same key run through the same keys. |
| Dispatch.SpawnedWithinLimit | src/crawler.rs:1288-1355 | The jobs spawned by all loops that share the counter never exceed `max_pages`. |
| Dispatch.TurnedAwayOnlyAtLimit | src/crawler.rs:1332-1351 | A popped job is turned away only when exactly `max_pages` jobs have been admitted. |
| Dispatch.SettledExactlyOnce | src/crawler.rs:1288-1506 | When a loop has drained, every job it popped has been settled exactly once. |
| Dispatch.OneWorkerPerPage | src/crawler.rs:902-929 | Whatever is retried, deferred or escalated, no page is worked on by two tasks at once. |
| Dispatch.HeadDecides | src/crawler.rs:1288-1303 | In every reachable state a loop at its head leaves if and only if exactly `max_pages` jobs have been admitted, and otherwise goes on to pop. |
| Dispatch.NothingToPopDecides | src/crawler.rs:1304-1308 | A loop that pops nothing leaves if and only if no job is queued and every job that it spawned has been settled. |
| Dispatch.DrainDecides | src/crawler.rs:1495-1506 | A loop that has left is done if and only if every job that it spawned has been settled. |
| Dispatch.PoppedJobIsSpawnedIff | src/crawler.rs:1304-1355 | A popped job is spawned, registered and gone from the heap if and only if the jobs admitted and the overshoots not yet given back are fewer than `max_pages`; else it is completed unspawned, the loop leaves and the counter is as before. |
| Dispatch.EndedJobPutsBack | src/crawler.rs:902-929 | A task that ends settles its job, and exactly the job its outcome asks for is queued: none, the registered one with one more attempt, one under a fresh id with the same or no attempts, or after an error one with one more attempt as long as there were fewer than `retry_max`. |
| Dispatch.WhyALoopLeft | src/crawler.rs:1288-1351 | A loop that has left did so at one instant of the run, because exactly `max_pages` jobs had been admitted or because it found nothing queued and had no task of its own. |
| Dispatch.SpawnedUnlessLimitUsedUp | src/crawler.rs:1332-1355 | Every job that a finished loop popped was spawned, unless exactly `max_pages` jobs have been admitted. |
| Retries.WithinLimitIffGuarded | src/crawler.rs:902-914 | In every run, no job of a page has gone past `retry_max` attempts if and only if every retry that the policy decided for the page found fewer than that many: the test of the error path, which a policy retry does not make. |
| Retries.AttemptsBound | src/crawler.rs:1467-1489 | No job of a page ever has more attempts than `retry_max` plus the number of policy retries of that page, so the error path alone stays within `retry_max`. |
| Retries.RunsWithinLimit | src/crawler.rs:1467-1489 | A page whose tasks are retried by the error path alone is run at most `retry_max` + 1 times. |
| Retries.PolicyRetryPassesTheLimit | src/crawler.rs:909-914 | A concrete run in which a retry decided by the policy takes a job past `retry_max`. |
| Retries.PageKeptIffRetriesFound | src/queue/inmemory.rs:98-107 | In every run, a page that was inserted is queued, at work or finished if and only if every retry that the policy decided for it found its job in the table of jobs handed out: the test at the head of `fail`. |
| Retries.PolicyRetryKeepsPageIffRegistered | src/crawler.rs:909-914 | A task that ends in a policy retry keeps its page if and only if its job is still registered as handed out. |
| Retries.RegularEndFinishesPages | src/crawler.rs:1304-1308 | When the only loop finds nothing to pop and leaves, a page that was inserted is finished if and only if every retry that the policy decided for it found its job. |
| Retries.PromptRunLosesNothing | src/queue/mod.rs:58-61 | So no page is lost in a run in which requeued jobs are popped only after their predecessor was completed. |
| Retries.LateCompleteLosesAPage | src/queue/mod.rs:58-61 | A concrete run in which the late `complete` of a requeue strikes the second run of the page from the table, and the page is lost. |
| Tokenizer.Tokenize | src/from_curl.rs:63-133 | The index loop computes the specified scan, with the same errors for unterminated quotes. |
| Tokenizer.ValidTextReadsBack | src/from_curl.rs:63-133 | Every text of the shell grammar (blanks, continuations, escapes, both quote styles) is tokenized into the words it stands for. |
| Tokenizer.AcceptedIsParts | src/from_curl.rs:63-133 | Every input that is accepted is a text of that grammar. |
| Tokenizer.TokenizesExactly | src/from_curl.rs:63-133 | The tokenizer returns a word list if and only if the input is a shell text standing for it. |
| Tokenizer.QuotedLineReadsBack | src/from_curl.rs:57-133 | Quoting any argument list, in either style with any blanks between, and tokenizing gives the list back, empty arguments and newlines included. |
| CurlArgs.ApplyFlag | src/from_curl.rs:183-286 | Each arm of the match on a flag changes the request, the warnings and the two markers as the option it stands for, which `CurlOptions.OptionsMean` gives by name. |
| CurlArgs.ParseArgv | src/from_curl.rs:143-295 | The one-pass parser computes the result that `CurlOptions.OptionsMean` and `CurlOptions.EveryListIsOptions` determine for every argument list. |
| CurlArgs.ParsedFields | src/from_curl.rs:161-294 | The request is determined by the options wherever they stand: first positional as URL, last explicit method over the POST that data implies, data joined, last cookie and proxy, headers in order. |
| CurlArgs.ArgsReadBack | src/from_curl.rs:143-295 | Printing a request as arguments and parsing gives it back without warnings if and only if it is canonical. |
| CurlArgs.CommandLineReadsBack | src/from_curl.rs:138-141 | The whole import: a request printed as a quoted command line is tokenized and parsed back to itself if and only if it is canonical. |
| CurlOptions.OptionsMean | src/from_curl.rs:143-295 | By the names of the options: any list of options, in any spelling (short, long, with or without `=`) and order, after any form of the command word, gives the request with their headers, last cookie, last method or the POST that data implies, joined data, last proxy, redirect and compression switches and first URL, and exactly the warnings of the ignored and unknown options, malformed headers and further URLs; without a URL it is an error. |
| CurlOptions.EveryListIsOptions | src/from_curl.rs:161-292 | Every argument list is such a list of options, or ends in an option that lacks its value, which is the error then. |
| CurlOptions.HeaderLineMeans | src/from_curl.rs:184-196 | A header line gives its name and value whatever white space surrounds them, or the cookie if that is its name in any letter case, and no warning. |
| Escapes.Escape | src/from_curl.rs:328-344 | The loop of `toml_escape` prints the specified text; with the other quote character it is `js_escape`. |
| Escapes.CharReadsBack | src/from_curl.rs:328-344 | Each printed character is read by TOML or JavaScript as itself, except that TOML refuses DEL. |
| Escapes.EscapedReadsBack | src/from_curl.rs:420-436 | A printed string, whatever follows it, ends where it should and reads back as itself: for JavaScript always, for TOML exactly when it has no DEL. |
| Escapes.NoRawControl | src/from_curl.rs:328-344 | No printed string holds a raw line feed, carriage return or other control character below the space. |
| HeaderKeys.Keys | src/from_curl.rs:372-386 | The loop with its count map gives each header its name, followed by an underscore and the number of earlier headers of that name if there are any. |
| HeaderKeys.KeyNumbersRepeats | src/from_curl.rs:374-383 | The first header of a name has the name as its key; a later one has an underscore and the number of earlier headers of that name behind it, in decimal without leading zeros. |
| HeaderKeys.KeysDistinctIffNoNameTaken | src/from_curl.rs:372-386 | The keys of the table are pairwise distinct if and only if no header is named like the numbered key of a repeated one. |
| HeaderKeys.UnsuffixedKeysDistinct | src/from_curl.rs:372-386 | They are distinct whenever no name ends in an underscore and digits. |
| HeaderKeys.NamesReadBack | src/from_curl.rs:372-386 | Stripping the counters gives the original names if and only if no name ends in an underscore and digits. |
| HeaderKeys.TableReadsBack | src/from_curl.rs:372-386 | The printed table reads back as the header list, in order and with duplicates, if and only if no name ends so and no name or value has a DEL. |
| TomlDocument.RenderToml | src/from_curl.rs:346-388 | The printer appends the comment, the pairs in the order of the source with the optional ones if present, and the table if there are headers. |
| TomlDocument.DocumentReadsBack | src/from_curl.rs:346-388 | The whole document reads back as the request if and only if no field, header name or value has a DEL and no header name ends in an underscore and digits. |
| Spider.RunKeepsInv | sdk/crawlex-sdk.js:759-845 | At every loop head the seen keys are, without overlap and without repetition, those pending, fetched, failed and refused; requests are taken in the order of their discovery. |
| Spider.EachKeyOnce | sdk/crawlex-sdk.js:783-845 | No key is taken twice in a run. |
| Spider.RunEnds | sdk/crawlex-sdk.js:783-845 | If only finitely many keys can be asked for, the loop is over after 2 * unseen + pending + 1 heads. |
| Spider.HeadDoes | sdk/crawlex-sdk.js:784-844 | One loop head: nothing pending finishes the run, an abort or a reached limit pauses it, and else the oldest request is taken: refused or failed it gives nothing, as a page it gives its items in order and, at the end of the frontier, its requests with unseen method and URL at their first occurrence. |
| Spider.ItemsAreEmitted | sdk/crawlex-sdk.js:839-841 | Over any run the item count is that of the start plus one for each item emitted since. |
| Spider.HeadDecides | sdk/crawlex-sdk.js:785-787 | At a head that is not aborted the next request is taken if and only if there is no item limit or fewer items are out, those of the checkpoint included; else the run pauses there. |
| Spider.FinishedRunIsExhaustive | sdk/crawlex-sdk.js:783-845 | A run that drains its frontier has taken exactly the keys reachable from the start URLs through the requests it made: the least set that holds the start keys and whatever those of the requests asked for whose keys it has. |
| Spider.KeyedRunIsExhaustive | sdk/crawlex-sdk.js:783-845 | If requests with one key lead to one page, that is the least set that holds the start keys and all that its own pages ask for. |
| Spider.LimitStopsTheRun | sdk/crawlex-sdk.js:786-786 | Once the item limit is reached, by the count that `ItemsAreEmitted` fixes, nothing more is taken or emitted; the page that reaches it is emitted to its end. |
| Spider.PauseAndResume | sdk/crawlex-sdk.js:759-786 | Aborting at any loop head, checkpointing and resuming makes the same fetches and emits the same items as the uninterrupted run, if no pending request has an empty method. |
| Spider.ResumeHoldsInv | sdk/crawlex-sdk.js:759-781 | A resumed run starts with the invariant, the keys settled before the pause counting as settled, so no key is taken again after a pause either. |
| Spider.ResumesFaithfullyIff | sdk/crawlex-sdk.js:764-766 | That holds for all sites if and only if no pending request has an empty method or the item limit is reached, since a resumed request gets `GET`. |
| Spider.MidPageCheckpoint | sdk/crawlex-sdk.js:775-781 | A checkpoint taken in the middle of a page equals the one at its end if and only if the rest of the page holds no item and no new request; otherwise the rest is lost. |
| Spider.KeysTellRequestsApart | sdk/crawlex-sdk.js:636-638 | So a key determines method and URL as long as no method contains a space. |
| Spider.KeysCollideIff | sdk/crawlex-sdk.js:636-638 | Two requests share a key if and only if method and URL agree, or one method is the other with a space and the start of the other's URL. |
| Spider.SpiderRun.FromUrls | sdk/crawlex-sdk.js:767-773 | Seeding keeps each start URL once, in order. |
| Spider.SpiderRun.FromCheckpoint | sdk/crawlex-sdk.js:761-766 | Resuming restores pending, seen and item count. |
| Spider.SpiderRun.TakeResults | sdk/crawlex-sdk.js:830-843 | The loop over what `parse` yields computes the fold over the results, whose items and new requests `HeadDoes` gives. |
| Spider.SpiderRun.Head | sdk/crawlex-sdk.js:784-844 | One pass of the loop: abort and limit, then one request from the front. |
| Spider.SpiderRun.Run | sdk/crawlex-sdk.js:783-845 | The whole loop terminates within the measure and ends where the specified run ends. |
| Stream.RunKeepsInv | sdk/crawlex-sdk.js:864-907 | In every interleaving of broadcasts, closing and consumer calls the queue is exactly the newest items not yet taken, up to its capacity; items are taken in broadcast order; a parked consumer has an empty, open queue. |
| Stream.SentUntilClosed | sdk/crawlex-sdk.js:751-757 | Until the closing a stream that has not ended has been sent every item broadcast, in order; and it ends only if the crawl is done, the closing came or it was given up. |
| Stream.DeliverySkips | sdk/crawlex-sdk.js:872-896 | A delivery passes over exactly as many of the oldest items as the backlog exceeds the capacity. |
| Stream.BufferedIsDelivered | sdk/crawlex-sdk.js:882-901 | What is queued when the crawl closes is delivered in full and in order before the stream ends. |
| Stream.ParkedIsWoken | sdk/crawlex-sdk.js:872-901 | A parked consumer gets the next item, or the end, when it comes. |
| Stream.Subscriber.PushItem | sdk/crawlex-sdk.js:872-881 | Drops the oldest item when the buffer is full and wakes the consumer; does nothing once closed. |
| Stream.Subscriber.Resume | sdk/crawlex-sdk.js:894-901 | Yields the head of the queue, or ends, or parks. |
| Stream.Broadcaster.BroadcastItem | sdk/crawlex-sdk.js:751-753 | Every subscriber gets the item, each in its own queue. |
| Stream.Broadcaster.BroadcastClose | sdk/crawlex-sdk.js:754-757 | Every subscriber is closed and woken, and the crawl is marked done. |
| Stream.Broadcaster.Serve | sdk/crawlex-sdk.js:892-905 | The generator runs to its next suspension, and a stream that ends leaves the set of subscribers, the others staying. |
| Stream.Broadcaster.CancelStream | sdk/crawlex-sdk.js:892-905 | A stream that is given up is unsubscribed at once if and only if it waits between two calls of `next`; while one is pending the request is kept for later. |
| Stream.QueuedReturnIsServed | sdk/crawlex-sdk.js:892-905 | A stream given up while it is parked still gets the next item and then leaves, or leaves at the closing. |
| Stream.AbandonedForGood | sdk/crawlex-sdk.js:892-905 | A stream given up before its first `next` is never unsubscribed and never read, and every later item is still pushed to it. |
| Stream.GivenUpFirst | sdk/crawlex-sdk.js:892-905 | That is the fate of every stream that is given up before its first `next`, whatever was broadcast before. |
| Sni.ExtractSni | scripts/tls-canary.rs:86-150 | Terminates and stays in bounds on every byte string and returns what the walk specifies. |
| Sni.NameIsExtracted | scripts/tls-canary.rs:84-150 | For every ClientHello with an extensions block, whatever its session id, ciphers, compression methods and extensions and whatever follows it, the result is what its first server_name extension holds: nothing if it is too short or its name does not fit into the buffer, else that many bytes. |
| Sni.NameStaysInsideIff | scripts/tls-canary.rs:127-145 | Whatever follows, the name stays inside its extension if and only if the length it gives fits there. |
| Sni.HostIsExtracted | scripts/tls-canary.rs:84-150 | So a first server_name extension that properly names a non-empty host gives exactly that name, and none gives nothing. |
| Sni.NoExtensionsNoName | scripts/tls-canary.rs:116-118 | A ClientHello without an extensions block gives no name. |
| JsLiterals.StringLiterals | src/discovery/js_endpoints.rs:57-104 | Terminates and stays in bounds on every byte string, a trailing backslash included, and yields what the walk specifies. |
| JsLiterals.PrintedLiteralsAreFound | src/discovery/js_endpoints.rs:57-104 | A script printed from code, literals, line and block comments yields exactly its literals longer than two bytes, in order; an unclosed last literal counts unless it breaks off in an escape. |
| JsLiterals.EveryScriptIsSegments | src/discovery/js_endpoints.rs:57-104 | Every byte string is such a script, so the previous result covers all inputs. |
| ContentSignal.ParseSignalValue | src/robots.rs:145-166 | The loop over the pieces reports for each purpose what its last mention says. |
| ContentSignal.DeniedByLastMention | src/robots.rs:148-164 | A purpose is denied if and only if some mention denies it and no later mention is about it. |
| ContentSignal.PieceSays | src/robots.rs:150-163 | A piece `name=verdict`, in any letter case and white space, speaks about the purpose with that name (`search`, `ai-input` or `ai_input`, `ai-train` or `ai_train`) and says yes for `yes`, `y`, `true`, `1` and `allow` only. |
| ContentSignal.BarePieceSays | src/robots.rs:150-163 | A name on its own says yes. |
| ContentSignal.DirectiveDenies | src/robots.rs:145-166 | A directive denies a purpose if and only if one of its comma-separated pieces names the purpose and does not say yes, and no later piece names it. |
| ContentSignal.LineIs | src/robots.rs:98-139 | A line `name: value`, in any letter case and white space and with any comment, is an agent for `user-agent`, a signal for `content-signal` and another field otherwise. |
| ContentSignal.OtherLinesAreNothing | src/robots.rs:98-108 | A line is ignored if and only if it has no colon in front of its comment. |
| ContentSignal.ParseContentSignal | src/robots.rs:92-143 | The single pass over the lines computes the two-pass answer: first signal in a group naming the agent, else first in a `*` group, else everything permitted. |
| ContentSignal.FirstIs | src/robots.rs:120-135 | The answer for an agent is the first signal line whose group names it, and there is none exactly when no such line exists. |
| ContentSignal.GroupIsTheRunAbove | src/robots.rs:112-119 | Stacked user-agent lines share all that follows up to the next user-agent line. |
| ContentSignal.DeniedIffALineDenies | src/robots.rs:70-143 | A purpose is denied if and only if the first signal that addresses the agent denies it, or none addresses the agent and the first that addresses `*` denies it. |
| ContentSignal.AbortIffAllDenied | src/robots.rs:80-84 | A run is called off before its first fetch if and only if it declares some purpose and each one it declares is denied by such a line. |
| BlockList.List.ExtendFromStr | src/adblock/mod.rs:54-60 | Adds exactly the hosts parsed from the lines. |
| BlockList.List.MatchesHost | src/adblock/mod.rs:74-94 | True if and only if a stored domain is the host or a parent domain of it, whatever the host's case and trailing dots. |
| BlockList.HostsAre | src/adblock/mod.rs:54-60 | A domain is stored exactly when some line of the list parses to it. |
| BlockList.FilterRuleRead | src/adblock/mod.rs:112-161 | A filter rule `||domain` gives its domain in lower case, whatever option or comment follows. |
| BlockList.HostsLineRead | src/adblock/mod.rs:144-146 | A hosts-file line for 0.0.0.0 or 127.0.0.1 gives its second word in lower case. |
| BlockList.PlainDomainRead | src/adblock/mod.rs:147-154 | A line that starts with a domain gives that domain in lower case. |
| BlockList.OtherLinesGiveNothing | src/adblock/mod.rs:115-129 | Blank lines, `!` and `[` lines and cosmetic rules give nothing. |
| BlockList.HostLookedUp | src/adblock/mod.rs:74-80 | A host is looked up in lower case, without the dots at its end and with those in front. |
| BlockList.ParsedIsStorable | src/adblock/mod.rs:112-161 | A parsed domain has a dot inside, none at its edges and no capital letter. |
| BlockList.NoTopLevelDomain | src/adblock/mod.rs:70-94 | No single-label host is ever blocked by a parsed list. |
| BlockList.ConcatenationIsUnion | src/adblock/mod.rs:51-60 | One list after the other gives the union of their hosts. |
| BlockList.FixedPointIff | src/adblock/mod.rs:105-161 | What a line parses to parses as itself if and only if it has only domain characters, which a hosts-file line need not give. |
| Windows.RenderSamples.Evict | src/metrics.rs:85-97 | Under a non-decreasing clock the deque is afterwards exactly the last min(cap, in-window) samples of the whole history. |
| Windows.RenderSamples.Push | src/metrics.rs:99-103 | One more sample after eviction, so the deque never exceeds cap + 1. |
| Windows.RenderSamples.RendersPerWindow | src/metrics.rs:107-111 | The number of samples in the window, or the cap if that is smaller. |
| Windows.RenderSamples.Percentile | src/metrics.rs:116-126 | The value of rank round((n - 1) * p) among the window's latencies, counted without sorting; none for an empty window. |
| Windows.RankIsUnique | src/metrics.rs:122-125 | A rank determines the value, so the previous contract fixes the result. |
| Windows.RankIsNearest | src/metrics.rs:122-125 | That rank is the index nearest to (n - 1) * p, the upper one of two, cut to the indices there are. |
| Windows.SinceIsSuffix | src/metrics.rs:85-93 | In an ordered history the in-window times are its last ones. |
| Windows.TelemetryTracker.Observe | src/antibot/telemetry.rs:307-324 | Drops what has expired at the front of the key's bucket and adds the new time; if the key's own times never went back it so fires exactly when the window ending now holds at least the threshold of its events; other keys are untouched. |
| Breaker.RunKeepsInv | crawlex/access_profiles.py:320-372 | Over every possible run of calls: the block counter counts the blocked answers since the last good one, no GET falls into the cooldown after one that opened the circuit or into the least delay (minimum delay and smallest draw) after one that was stamped with a time above zero, and no shared session gets more answers than allowed (at least one) or is used again at its maximum age. |
| Breaker.DelayKeptIff | crawlex/access_profiles.py:336-341 | Every call that may come keeps the least delay after the last stamp if and only if the stamp is not zero, or the delay is over by the time the next GET can be sent. |
| Breaker.TripsExactly | crawlex/access_profiles.py:364-371 | An answer opens the circuit if and only if it is blocked, the threshold is not zero and the last `threshold` blocked or good answers are all blocked. |
| Breaker.DelayBetween | crawlex/access_profiles.py:336-341 | A GET that was answered, or stamped its failure, at a time above zero precedes every later one by the minimum delay, less what a negative jitter takes from it. |
| Breaker.SendsIff | crawlex/access_profiles.py:343-356 | A call sends its GET if and only if the endpoint is allowed and the cooldown after every trip so far is over. |
| Breaker.SessionsExactly | crawlex/access_profiles.py:312-334 | A GET uses the session of the one before it if and only if sessions are shared and that one has not given its maximum of answers and is younger than its maximum age; else one never used before. |
| Breaker.BlocksAreTheTrailingRun | crawlex/access_profiles.py:364-371 | The counter is the length of the trailing run of blocked answers. |
| Breaker.StampOfZeroIsIgnored | crawlex/access_profiles.py:336-341 | A time stamp of exactly zero counts as none, so two GETs at that instant are not kept apart. |
| Breaker.RequestProfileClient.GetSession | crawlex/access_profiles.py:329-334 | A fresh session when isolated, missing or expired, else the shared one. |
| Breaker.RequestProfileClient.WaitRateLimit | crawlex/access_profiles.py:336-341 | After the sleep the delay since the last stamp, if there is one, is over, and the sleep is no longer than needed for that. |
| Breaker.RequestProfileClient.Request | crawlex/access_profiles.py:348-372 | One call of `request` or `fetch_url` changes the client as specified; nothing is sent for an endpoint that is not allowed or while the circuit is open. |
| WeightedFrontier.Frontier.PopWeighted | src/scheduler.rs:544-562 | A key exactly when there is one; the chosen entry alone is removed and the others keep their order. |
| WeightedFrontier.ChosenIffInterval | src/scheduler.rs:549-560 | For a draw between 0 and 1 an entry is chosen if and only if its interval of the cumulative weights holds the pick. |
| WeightedFrontier.WeightlessIsNotPicked | src/scheduler.rs:553-560 | A weightless entry is chosen only in front and by a draw of zero. |
| WeightedFrontier.DefaultPicksByWeight | src/scheduler.rs:516-562 | With the weights of the source no fallback is taken: the interval rule decides. |
| WeightedFrontier.DefaultWeightsAre | src/scheduler.rs:516-523 | The weights of the source: 1.0, 0.7, 0.5 and 0.3 for depths 0 to 3, and 0.15 from there on. |
| WeightedFrontier.NoWeightTakesFirst | src/scheduler.rs:542-552 | If the weights do not sum to more than zero, the first entry is taken. |
| WeightedFrontier.RunConserves | src/scheduler.rs:534-562 | Over any run of pushes and pops the keys pushed are those handed out and those still held. |

## Left out

- Fetching over HTTP and TLS, the browser, storage, events, hooks, DNS and the command line: input and output around
  libraries that are not part of this model.
- The policy engine and `process_job` beyond how a job ends; each decision is an arbitrary input.
- Delays in `Dispatch`: a queued job may be taken at any time, which allows every order that a clock could produce.
- Failing queue operations, panicking tasks and the concurrency semaphore in `Dispatch`.
- Queue backends other than the in-memory one: the SQLite and RedDB queues override `requeue_after`.
- Integer widths: counters, ids and attempts do not wrap (`CrawlQueue.InMemoryQueue.Fail` saturates, `Dispatch` does not).
- The creation of a counter is merged with the first step of an acquire; the cumulative session cap and the sampling
  functions of src/scheduler.rs are not modelled.
- The bloom filter is a set of keys with an arbitrary answer for keys it was not given, and URL canonicalisation is an
  arbitrary function.
- Unicode upper-casing and base64 in the curl import are arbitrary functions; the JSON rendering and the Node
  rendering beyond string escaping are not modelled.
- Breaker.RequestProfileClient.Request: one method for `request` and `fetch_url`, which differ in the outcomes they
  can report; threads that share a client are not modelled.
- Breaker.RunKeepsInv: the delay is stated for stamps above zero, since the client treats a stamp of zero as unset;
  `Breaker.DelayKeptIff` says when the delay is kept after such a stamp.
- Sni.NameIsExtracted: the name is returned as bytes; the source replaces invalid UTF-8, which changes no ASCII name.
- CrawlQueue.InMemoryQueue.RequeueAfter: states the effect of the whole call; that the push comes before the completion
  is part of the steps in `Dispatch`.
- Calls of `next` on an item stream while an earlier one is pending: a `for await` loop makes none.
- Windows.TelemetryTracker.Observe: for a system clock that was set back it says which times are dropped and not how
  many of the events lie in a window.
- JsLiterals.StringLiterals: the UTF-8 check of a found literal always succeeds, as the source is UTF-8 and the cuts
  lie at ASCII characters, and is not modelled.
- Windows.RenderSamples.Percentile: real numbers, so neither NaN nor the order of the float comparison.
- WeightedFrontier.Frontier.PopWeighted: real weights, so no rounding in the cumulative sums.
- `evaluateRobots`, throttling and the HTTP fetcher of the SDK: what happens to a request is an arbitrary outcome.
- A consumer that breaks out of the spider's own item loop: the state it leaves is that of a mid-page checkpoint.
- The read-only queries of the queue and the graph, enum names, defaults and configuration.
