# nomadlogs, modelled in Dafny

nomadlogs is a small command-line tool that tails the logs of HashiCorp Nomad
tasks. `nomadlogs tail job:task …` starts one watcher per target. Every poll
interval the watcher lists the cluster's allocations. It picks the running
allocations of its job that have its task and are not already being
streamed. For each one whose detail record it can fetch, it starts a
consumer. The consumer reads the allocation's stdout and stderr frame
streams and pushes every non-empty line into a shared output buffer. It
stops at the first stream close (pushing a sentinel line) or the first
stream error (logged unless the task is unknown). `nomadlogs ls` prints one
row per allocation task state, stably sorted by job ID followed by task name.

This project models, sequentially and without the network, the rules in
`main.go`:

- `address.dfy`: `getNomadAddr`. The command-line value wins, then `NOMAD_ADDR`, then Nomad's default address.
- `targets.dfy`: the target-spec loop of `NewTailCommand`. `job:task` and `task` are accepted; a spec with two or more colons is an error.
- `discovery.dfy`: the poll loop over one allocation list (`Discover`, a function of the watched set, the list and the detail lookup). It has the selection test, the detail fetch, and the log lines.
- `consumer.dfy`: `watchAllocationLogs` as a function of the sequence of events the two streams deliver (`Consume`).
- `watcher.dfy`: the watcher as a class. It holds the watched set, the output buffer and the log. It has the poll tick (`Poll`), the event loop (`WatchAllocationLogs`, `Select`, `PushFrame`) and the consumer goroutine body (`RunConsumer`). Each method is proved against the functions above.
- `listing.dfy`: the row building of `ls` (nested loops, with the Go map's iteration order left free) and the in-place stable sort.
- `strings.dfy`: the parts of Go's `strings` package and string ordering the code relies on. These are `strings.Split` with a one-character separator, `strings.Contains`, and `<` on strings.
- `nomad.dfy`: the allocation record. `wrappers.dfy`: Option/Result. `sequences.dfy`: a concatenation lemma.

Collaborators are parameters:

- The allocation list is a `Result<seq<Allocation>, string>`.
- `Allocations().Info` is a function `string -> Option<Allocation>`.
- The two log streams are a sequence of `Event`s in the order `select` receives them.
- `log.Printf` output is a sequence of strings.
- The output channel is the sequence of everything pushed into it.

## Model

| member | source | states |
|---|---|---|
| Address.GetNomadAddr | main.go:22-31 | the result is never empty; it is the command-line value when that is non-empty, otherwise `NOMAD_ADDR` when that is non-empty, otherwise `http://127.0.0.1:4646` |
| Targets.ParseTask | main.go:71-80 | a spec is rejected exactly when it has two or more colons, with the error text `expecting 'job:task' or 'task', got <spec>`; an accepted spec's job and task contain no colon |
| Targets.ParseJobAndTask | main.go:75-77 | `job:task` (no colon in either part) parses to job `job`, task `task` |
| Targets.ParseBareTask | main.go:78-80 | a spec without a colon parses to the empty job and the spec as task |
| Targets.ParseTaskInverse | main.go:71-80 | an accepted spec is recovered from its parse: `job + ":" + task`, or the bare task when the job is empty |
| Targets.ParseTooManyColons | main.go:72-74 | any spec of the shape `a:b:c` is an error |
| Targets.NewTailCommand | main.go:62-82 | a client error is returned as is; otherwise the command is built exactly when every spec parses, keeps the address, and holds the parse of each spec in input order; otherwise the error is that of the first bad spec |
| Strings.Split | main.go:71 | `strings.Split` with a one-character separator: one more piece than separators, and no piece contains the separator |
| Strings.JoinSplit | main.go:71 | joining the pieces of a split with the separator gives back the input |
| Strings.SplitJoin | main.go:269 | splitting a join of separator-free pieces gives back those pieces |
| Strings.SplitAppend | main.go:269 | splitting `a + sep + b` is the pieces of `a` followed by those of `b` |
| Strings.SplitNoSeparator | main.go:71 | a string without the separator is split into itself alone |
| Strings.CountZero | main.go:72 | the separator count is zero exactly when the separator does not occur |
| Strings.DropEmpty | main.go:270-272 | the kept pieces are non-empty and come from the input |
| Strings.DropEmptyAppend | main.go:269-274 | dropping the empty pieces distributes over concatenation |
| Strings.DropEmptyKeepsNonEmpty | main.go:270-272 | a sequence without empty pieces is kept whole |
| Strings.ContainsAt | main.go:289 | `strings.Contains(s, sub)` holds exactly when `sub` occurs at some position of `s` |
| Strings.LessIrreflexive | main.go:147 | no string key is below itself |
| Strings.LessAsymmetric | main.go:147 | two string keys are never each below the other |
| Strings.LessTransitive | main.go:147 | string order is transitive |
| Strings.LessTotal | main.go:147 | of two different string keys, one is below the other |
| Strings.NotLessTransitive | main.go:144-148 | "not below" is transitive, so sorted neighbours give sorted pairs |
| Discovery.StartedAreSelected | main.go:222-245 | every consumer a poll starts is for the fetched detail of a listed allocation that passed the four tests |
| Discovery.NoDoubleStart | main.go:223-225 | a poll never starts a consumer for an ID already watched, nor two consumers for one ID |
| Discovery.StartedIff | main.go:222-245 | over a list with distinct IDs, a listed allocation gets a consumer exactly when it is not watched, has the task, belongs to the job (or any job), is running, and its detail fetch succeeds |
| Discovery.FailedInfoNotStarted | main.go:236-240 | an allocation whose detail fetch fails gets no consumer and its ID does not enter the watched set, so it stays eligible on the next poll |
| Discovery.SelectedAreCovered | main.go:222-245 | after a poll every selected allocation with a successful fetch is in the watched set |
| Discovery.NothingToStart | main.go:222-240 | when no selected allocation can be fetched, a poll starts nothing |
| Discovery.PollIdempotent | main.go:222-245 | a second poll over the same list, with no consumer finished, starts nothing |
| Discovery.DiscoverSkip | main.go:223-234 | an allocation failing a test is skipped without a log line |
| Discovery.DiscoverInfoFailed | main.go:236-240 | a failed detail fetch logs `could not retrieve allocation <id>` and skips |
| Discovery.DiscoverStart | main.go:242-245 | a successful fetch starts a consumer and watches its ID before the rest of the list is examined |
| Discovery.DiscoverDeferred | main.go:222-253 | the poll as written, in which the ID is added only inside the goroutine: every started consumer is for a listed allocation that passed the tests against the unchanged set |
| Discovery.DeferredPollsStartTwice | main.go:223-245 | as written, two polls before the goroutine runs start the same allocation twice; under sequential semantics the second poll starts nothing |
| Consumer.ConsumeUntilTerminal | main.go:262-299 | up to the first terminal event the frame lines are pushed; a close then pushes exactly its one sentinel; an error pushes nothing and is logged exactly when its text does not contain `unknown task name`; the consumer returns, and events after the terminal one change nothing |
| Consumer.ConsumeWithoutTerminal | main.go:262-286 | without a close or error, every frame's lines are pushed, nothing is logged and the consumer has not returned |
| Consumer.ConsumeTerminal | main.go:264-297 | a terminal first event decides the whole run and the consumer returns |
| Consumer.ConsumeFrame | main.go:269-274 | a frame's lines are pushed before those of the remaining events |
| Consumer.ConsumeSplit | main.go:262-286 | a run splits into the frame lines before position `i` followed by the run from `i` on |
| Consumer.FrameLinesAppend | main.go:262-286 | the frame lines of a concatenation are those of each part in order |
| Consumer.FrameLinesSnoc | main.go:262-286 | one more frame adds its own lines at the end |
| Consumer.EmittedWellFormed | main.go:262-299 | every pushed line is non-empty and contains no newline |
| Consumer.LinesOfWellFormed | main.go:269-274 | the lines of one frame are non-empty and newline-free |
| Consumer.LinesOfAppend | main.go:269-274 | the lines of `a + "\n" + b` are those of `a` then those of `b` |
| Consumer.LinesOfJoin | main.go:269-274 | newline-joined non-empty, newline-free lines are split back into exactly those lines |
| Watch.TagAppend | main.go:273 | tagging lines with their job and allocation distributes over concatenation |
| Watch.TagFrameStep | main.go:269-274 | the tagged output grows by one frame's tagged lines |
| Watch.Watcher.constructor | main.go:204-206 | a new watcher has its job and task, an empty watched set, output and log |
| Watch.Watcher.Poll | main.go:214-256 | a failed list call logs the error and changes nothing else; otherwise the consumers started and the log lines are those of `Discover` on the old watched set, the set grows by exactly their IDs, and the output is unchanged |
| Watch.Watcher.PushFrame | main.go:269-274 | appends exactly the non-empty newline-separated pieces of the frame, in order, tagged with the watcher's job and the allocation |
| Watch.Watcher.Select | main.go:263-297 | one `select` case: returns exactly on a terminal event; a frame pushes its lines, a close its sentinel, an error only its log line (if any) |
| Watch.Watcher.WatchAllocationLogs | main.go:258-300 | the output grows by the tagged lines of `Consume` over the events, the log by its log lines, and the method returns exactly when `Consume` says the loop returned |
| Watch.Watcher.RunConsumer | main.go:242-253 | the goroutine body: the consumer's output and log are those of `WatchAllocationLogs`; its ID is removed from the watched set exactly when the loop returns, and no other ID changes |
| Listing.FilterAppend | main.go:144-148 | the rows of one key in a concatenation are those of each part in order |
| Listing.FilterMember | main.go:144-148 | a row selected by key is one of the rows and has that key |
| Listing.FilterHead | main.go:144-148 | a non-empty sequence has a row with its first row's key |
| Listing.KeyOfRow | main.go:145-146 | a row's key is the given key exactly when the key is the job ID followed by the row's task |
| Listing.RowWithKeyAdd | main.go:139-140 | adding one task's row adds it under its own key only |
| Listing.RowSetAdd | main.go:139-140 | adding one task's row adds one new row to the multiset |
| Listing.AddRowStep | main.go:139-140 | one pass of the inner loop keeps the row multiset and per-key order invariants |
| Listing.AllocationStep | main.go:138-141 | finishing one allocation's task states extends the row multiset and per-key order by that allocation |
| Listing.AppendTaskRows | main.go:139-141 | whatever order the task-state map is visited in, appends exactly one row per task state of the allocation |
| Listing.BuildRows | main.go:137-142 | one row per (allocation, task state) pair, as a multiset; the rows of each key appear in list order |
| Listing.Swap | main.go:144 | exchanges two neighbours, a permutation |
| Listing.SwapKeepsKeyOrder | main.go:144 | exchanging neighbours with different keys keeps every key's rows in their order |
| Listing.SortStable | main.go:144-148 | `sort.SliceStable` by `jobId + task`: sorted, a permutation, and rows with equal keys keep their relative order |
| Listing.SortedAllPairs | main.go:144-148 | sorted neighbours imply every pair is in order |
| Listing.SortedUnique | main.go:144-148 | two sorted sequences whose rows of each key agree are equal |
| Listing.Ls | main.go:137-148 | the `ls` rows: every (allocation, task state) pair once, every pair of rows ordered by key, equal keys in list order |
| Listing.LsDeterministic | main.go:137-148 | the map's iteration order cannot change the listing: any two results meeting `Ls`'s postconditions are equal |

## Left out

- The Nomad HTTP client (`Allocations().List`, `Allocations().Info`, `AllocFS().Logs`, `NewClient`): foreign calls. They are parameters of the model: a listing result, a lookup function, and an event sequence.
- Goroutines, `sync.Mutex`, `sync.WaitGroup`, the output channel's capacity of 1000 and its blocking: concurrency. A poll tick and a consumer run are separate sequential methods.
- The `time.Tick` loop and `pollInterval`: one call of `Watch.Watcher.Poll` is one tick. The 5-second interval appears only as the text `5s` in the list-error log line.
- `tailCommand.Run` and `run`, which only start the goroutines and print what the channel delivers: concurrency and output formatting.
- `logLine.Format` (main.go:179-193): it rests on `encoding/json` decoding and `time.Format`, which are library behaviour.
- Flag parsing, `os.Args[1]` dispatch, colour output, table rendering, the `ID[:8]` truncation, and `log.Fatalf` exits: terminal plumbing. The `ls` model ends with the sorted rows.
- The `n` and `follow` fields and the `download` command: unused by the code.
- The Nomad allocation record keeps only the fields the core reads. `LastRestart` is an integer timestamp.
- `Listing.Ls` sorts an array copy of the built rows rather than the Go slice itself; the result is the same sequence.
- String order: Go compares strings byte by byte in UTF-8, while the model compares characters. The two agree on code-point order, which UTF-8 preserves.
- `Discovery.NoDoubleStart`, `Discovery.StartedIff`, `Discovery.SelectedAreCovered`, `Discovery.PollIdempotent` and `Discovery.FailedInfoNotStarted` assume that the detail lookup answers with the allocation asked about (`InfoKeepsId`). The code relies on this without checking it.
- `Discovery.StartedIff` is stated for lists with distinct IDs, which Nomad's list satisfies. With a repeated ID, only the first successful fetch starts a consumer.
- Zero targets: the tool's design calls an empty target list a fatal input error, but `NewTailCommand` accepts it (main.go:69-82). The model follows the code.
- Stream errors: the design has every terminal event push a sentinel line, but the code pushes a sentinel only on a close (main.go:266, main.go:277). An error only returns, logged or not (main.go:288-297). The model follows the code.
- A stream close or error whose event stream never arrives (the loop blocking forever) is modelled by a finite event sequence without a terminal event. The consumer has then not returned, and its ID stays watched.

## Findings

| source | as written | input that shows it | evidently intended | confidence | as-written member | corrected member |
|---|---|---|---|---|---|---|
| main.go:223-245 | the ID joins `allocationsWatched` only inside the spawned goroutine (main.go:244), and the test at main.go:223 reads the map without the lock | one running allocation with the watcher's task, a successful detail fetch, and a second tick (or a duplicate list entry) before the goroutine is scheduled: both polls start a consumer for it, so its lines are pushed twice | the ID is watched as soon as its consumer is decided on, so a later poll never starts a second consumer for a watched allocation | not executed; depends on goroutine scheduling | Discovery.DeferredPollsStartTwice | Discovery.PollIdempotent |
