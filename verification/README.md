# StressTester core in Dafny

A model of the load-generation core of the Translator stress tester. Four
driver scripts send queries to biomedical reasoning services and record what
came back:

- `kp_stress_test.py` is the batch-size sweep against knowledge providers.
  For each batch size it first makes one synchronous call per batch of
  identifiers to each provider. It then makes the same calls concurrently.
- `kp_stress_tests.py` is the per-endpoint query sweep. Each provider's stored
  query is trimmed to `b` identifiers per node and sent `n` times for every
  `(n, b)` pair. All providers run at once.
- `ara_stress_test.py` is the synchronous reasoning-agent driver. The agents
  run one at a time. Each agent gets 15 sequential calls, then concurrency
  levels 10, 50, 100 and 1000.
- `ars_stress_test.py` is the asynchronous aggregator driver. It uses the same
  plan as the ARA driver, but every call is a submit → poll → fetch-merged job.

The model replaces HTTP with abstract replies, the clock with a virtual
integer clock, and `asyncio.gather` with an order-preserving map. The
document the drivers write is modelled as a log of writes applied to a
registry of two tables (`sequential`, `concurrent`).

Modules, by file:

- `values.dfy`: statuses, result records, JSON fields.
- `calls.dfy`: the single-call outcome mapping, including the fatal `exit()` path.
- `stats.dfy`: the phase-statistics fold.
- `batching.dfy`: identifier slicing.
- `job_poller.dfy`: the ARS submit/poll/merge state machine.
- `registry.dfy`: document writes, their locality, and commutation across endpoints.
- `query_trim.dfy`: `generate_message` and the `"n_b"` keys.
- `phases.dfy`: sequential and gathered phases, and the writes each phase makes.
- `kp_sweep.dfy`, `aggregator_phases.dfy`, `ars_driver.dfy`, `ara_driver.dfy`, `kp_query_driver.dfy`: the four drivers.

Behaviours of the code that are easy to misread:

- A job whose budget runs out before its first poll reports the submit HTTP code, not the "timeout" sentinel (`JobPoller.ExpiredBeforePolling`).
- A poll that answers with a non-2xx code raises before `status` is reassigned, so the call keeps the previously held status.
- The embedded-errors test in the synchronous batch lookup reads `response["message"]`. A null message makes that test raise `TypeError`, which is caught and gives zero results. It is not fatal.
- In the query sweep, a stored query that cannot be trimmed (no `message.query_graph.nodes`, or a node whose `ids` is null) raises inside the `try`. The call then reports "timeout" with zero results and sends no request.
- A batch size of 0 is not rejected up front. The progress message divides by it, and the resulting `ZeroDivisionError` ends the run once there is at least one provider. The model records this as a stopped run.
- In the all-providers-at-once sweep, the document is a shared in-memory dict and nothing serialises writers. The model allows any interleaving of the providers' writes and proves that the result equals running the providers one after another.

## Model

| member | source | states |
|---|---|---|
| Calls.ResultCount | kp_stress_test.py:44 | the count is the length of `message.results`; a missing or null message, a message that is not an object, or a missing or null list gives 0, and a positive count implies the list was there |
| Calls.Execute | kp_stress_test.py:59-85 | status is "timeout" exactly when no response arrived, otherwise the HTTP code even when `raise_for_status` fails; zero results unless the reply is a 2xx decodable body, then `len(message.results)` |
| Calls.ExecuteStrict | kp_stress_test.py:23-56 | the call is fatal exactly when a 2xx decodable body's message passes the `"errors" in message` test (an object key, a substring or a list element); otherwise it yields the same record as the asynchronous lookup |
| Calls.ErrorCodeReported | kp_stress_test.py:34-35 | a non-2xx reply reports its code with zero results in both lookups, whatever the body |
| Calls.FatalNeedsSuccess | kp_stress_test.py:37-46 | an errors-bearing body is fatal behind a 2xx, an ordinary zero-result call behind a 500, and never fatal in the asynchronous lookup |
| Calls.NonObjectMessage | kp_stress_test.py:37-44 | a 2xx message that is not an object yields no results in either lookup, and is fatal in the synchronous lookup exactly when it mentions `errors` |
| Stats.Tally | kp_stress_test.py:110-113 | counting a status raises its value by one, leaves every other status's value unchanged, and grows the total by one |
| Stats.TallyShape | kp_stress_test.py:110-113 | an unseen status is appended with value 1; a seen one is incremented in place, so key order is kept and no value decreases |
| Stats.TallyWellFormed | kp_stress_test.py:110-113 | tallying keeps the histogram free of duplicate keys and of zero values |
| Stats.TotalResultsSnoc | kp_stress_test.py:108-109 | accumulating `num_results` from the back gives the same sum as from the front |
| Stats.Summarize | kp_stress_test.py:102-113 | `results` is the input in call order, `total_results` is the sum of the counts, each status's value is its number of occurrences, and the values sum to `len(results)` |
| Stats.KeysAreCounted | kp_stress_test.py:110-113 | a status is a histogram key exactly when its value is positive |
| Stats.StatusKeys | kp_stress_test.py:108-113 | the histogram's keys are exactly the statuses some call reported |
| Stats.EmptyPhase | kp_stress_tests.py:96-107 | no results give zero total, an empty histogram and an empty list |
| Stats.UniformPhase | ara_stress_test.py:63-68 | calls that all report the same record give one bucket holding their number, and the total is that number times the count |
| Stats.MixedPhase | ara_stress_test.py:57-68 | two 200s with three results and a 500 give total 6 and histogram {200: 2, 500: 1}, in first-seen order |
| Batching.Batches | kp_stress_test.py:97-98 | the batches `pool[ndx : min(ndx + b, n)]` for `ndx` in `range(0, n, b)`, for a non-zero b; their count, contents and concatenation are given by `Batching.BatchCount`, `Batching.BatchContents` and `Batching.BatchesCover` |
| Batching.BatchCount | kp_stress_test.py:97-98 | a positive batch size cuts a pool of n identifiers into exactly ceil(n/b) batches |
| Batching.BatchContents | kp_stress_test.py:97-98 | batch i is the window `pool[i*b : min((i+1)*b, n)]` |
| Batching.BatchLength | kp_stress_test.py:98 | every batch is non-empty and holds at most b identifiers, and every batch but the last holds exactly b |
| Batching.BatchShape | kp_stress_test.py:98 | the batch-length facts, for all batches at once |
| Batching.BatchesCover | kp_stress_test.py:97-98 | the batches joined in order give back the pool |
| Batching.SingleBatch | kp_stress_test.py:98 | a batch size at least the pool size gives exactly one batch, the whole pool |
| Batching.NegativeSize | kp_stress_test.py:97 | a negative batch size gives an empty range and so no batch |
| Batching.EmptyPool | kp_stress_test.py:97 | an empty pool gives no batch |
| JobPoller.MergedCount | ars_stress_test.py:53-58 | the merged count is `len(fields.data.message.results)` when the path exists, and 0 on a fetch fault or when `fields` or `data` is absent or null |
| JobPoller.PollLoop | ars_stress_test.py:39-62 | its run satisfies `JobPoller.LoopRun`: every poll it makes is taken at a stamp within the budget, and it expires only at a stamp past the budget; it continues only past non-terminal statuses, resolves exactly on Done/Error with that status and the merged count, and on expiry or fault keeps zero results and the last assigned status |
| JobPoller.LoopStep | ars_stress_test.py:39-62 | a non-terminal poll within budget followed by a run of the loop from the next poll, with the time that poll leaves and the status it assigns, is a run of the loop from this poll |
| JobPoller.Lookup | ars_stress_test.py:21-72 | a submit fault gives ("timeout", 0) and a failed submit gives (code, 0), both without polling; after a decodable 2xx submit, starting one sleep after the submit's latency, every poll is within budget, expiry happens only past it, a fault happens exactly at a faulting poll, and expiry or fault reports the last status assigned (the submit code or the previous poll's); results are non-zero only after a terminal status, which is then reported |
| JobPoller.PollBound | ars_stress_test.py:36-62 | with a clock that advances at least one interval per sleep, a call makes at most `budget / interval + 1` polls |
| JobPoller.StampGrows | ars_stress_test.py:36-62 | when the first reading follows a full sleep, the time read before poll j is at least j intervals, since each later poll starts a full sleep after the previous reading and latencies are never negative |
| JobPoller.StampShift | ars_stress_test.py:36-62 | the time read before a later poll is the same whether counted from one loop entry or from the next, with the time that poll leaves |
| JobPoller.ReferencePollBound | ars_stress_test.py:18-39 | with a 3600-second budget and a 10-second interval, a call polls at most 361 times |
| JobPoller.ExpiredBeforePolling | ars_stress_test.py:32-39 | a budget exhausted before the first poll reports the submit code with zero results |
| JobPoller.FailedMergeFetch | ars_stress_test.py:44-57 | a Done job whose merged fetch faults reports "Done" with zero results |
| JobPoller.JobCompletes | ars_stress_test.py:39-59 | Running then Done with a five-result merged message reports ("Done", 5) after two polls |
| JobPoller.JobNeverFinishes | ars_stress_test.py:39-62 | a job that stays Running ends by expiry with ("Running", 0) after at least one poll |
| Registry.Apply | kp_stress_test.py:92-114 | creating a map, reserving a key, filling it and replacing an entry each change exactly the slot or entry they name |
| Registry.ApplyAll | kp_stress_test.py:88-147 | the document after a sequence of writes performed in order; `Registry.ApplyAllAppend` splits a log, and `Registry.ApplyAllElsewhere` and `Registry.ApplyAllSpares` give its frame |
| Registry.ApplyAllAppend | kp_stress_test.py:88-147 | running two logs one after the other equals running their concatenation |
| Registry.ApplyAllElsewhere | kp_stress_test.py:92-114 | writes that never name a table and endpoint leave that entry unchanged |
| Registry.ApplyAllSpares | kp_stress_test.py:92-114 | writes that never name a key leave that slot unchanged |
| Registry.ReserveThenFill | kp_stress_test.py:92-114 | reserving `{}` and then filling a key gives the same document as the fill alone |
| Registry.Commute | kp_stress_tests.py:59-80 | two writes under different endpoints commute |
| Registry.MergeIsSerial | kp_stress_tests.py:129-130 | two endpoint-disjoint logs, interleaved in any way, give the same document as the first log followed by the second |
| Registry.InterleavingIsSerial | kp_stress_tests.py:129-130 | any interleaving of pairwise endpoint-disjoint logs gives the same document as running the logs one after another |
| QueryTrim.PrefixTo | kp_stress_tests.py:23 | Python's `xs[:k]` is a prefix, of length min(k, len) for k ≥ 0, and with all but the last -k elements for k < 0 |
| QueryTrim.GenerateMessage | kp_stress_tests.py:19-25 | trimming succeeds exactly when the node map exists and no `ids` is null; then `bypass_cache` is true, the other fields and node keys are unchanged, absent `ids` stay absent, and present `ids` become their first min(k, len) entries |
| QueryTrim.TrimIdempotent | kp_stress_tests.py:19-25 | trimming twice with the same non-negative count equals trimming once |
| QueryTrim.NegativeTrimNotIdempotent | kp_stress_tests.py:23 | with a negative count, a second trim removes one more id |
| QueryTrim.DecimalRoundTrip | kp_stress_tests.py:61 | `str(n)` for a natural number reads back as n |
| QueryTrim.PairKeyRoundTrip | kp_stress_tests.py:61 | the key `f"{n}_{b}"` parses back to (n, b) |
| QueryTrim.PairKeyInjective | kp_stress_tests.py:61 | two different (n, b) pairs never share a key |
| Phases.OneByOne | kp_stress_tests.py:62-66 | a sequential phase of n calls yields exactly n results, result i coming from call i |
| Phases.Gather | kp_stress_tests.py:92-94 | `asyncio.gather` over n launched calls returns their results in launch order; `Phases.GatherKeepsOrder` relates it to a sequential run |
| Phases.GatherKeepsOrder | kp_stress_tests.py:92-94 | the results of n gathered calls equal those of the same calls made one after another, whatever order they finish in |
| Phases.PhaseEffect | kp_stress_tests.py:59-80 | a variant phase leaves its own slot holding its statistics, and every other key and endpoint unchanged |
| Phases.PhasesEffect | kp_stress_tests.py:57-82 | phases in distinct slots each leave their statistics, and every slot or entry that no phase names is unchanged |
| Phases.WholeEffect | ara_stress_test.py:49-69 | the aggregator sequential write leaves the statistics themselves as the endpoint's entry and touches no other entry |
| KpSweep.SequentialLookups | kp_stress_test.py:95-100 | the synchronous loop stops exactly when some call embeds errors; otherwise call i records batch i with its outcome |
| KpSweep.ConcurrentLookups | kp_stress_test.py:129-131 | one asynchronous lookup per batch, gathered, with no embedded-errors exit; `KpSweep.LookupsAgree` relates it to the synchronous loop |
| KpSweep.LookupsAgree | kp_stress_test.py:23-85 | when no body embeds errors, the synchronous loop and the gathered lookups record the same results, batch for batch |
| KpSweep.SequentialStats | kp_stress_test.py:88-114 | a provider's sequential phase has no statistics exactly when a call exits; otherwise it has one record per batch, in order, its result total is the sum of the records' counts and its status histogram counts each status as often as the records carry it |
| KpSweep.ConcurrentStats | kp_stress_test.py:119-147 | a provider's concurrent phase has one record per batch, in launch order, each carrying its batch and the outcome of its reply; its result total and status histogram are the sum and count of the records |
| KpSweep.PassOf | kp_stress_test.py:90-116 | a pass completes exactly when every provider's phase completes; otherwise it keeps the phases before the first exit |
| KpSweep.SequentialPass | kp_stress_test.py:88-116 | the pass stops exactly when the batch size is 0 or some provider exits; the phases on disk are those of the providers before the stop, each under key b |
| KpSweep.ConcurrentPass | kp_stress_test.py:119-147 | one gathered phase per provider, in provider order, under key b of the concurrent table; `KpSweep.SizeEffect` states what it leaves in the document |
| KpSweep.Sweep | kp_stress_test.py:150-166 | the whole sweep stops exactly when some batch size's sequential pass stops, each pass answered by its own network; concurrent passes never stop it; the recorded phases are, for each size before the first stopping pass, its sequential then concurrent phases, followed by the phases the stopping pass kept |
| KpSweep.FirstStop | kp_stress_test.py:152-163 | the position of the first batch size whose sequential pass stops, or the number of sizes when none does |
| KpSweep.SweepStep | kp_stress_test.py:152-164 | a completed first size's two phases in front of the record of the later sizes form the record of the whole sweep |
| KpSweep.LayersCons | kp_stress_test.py:152-164 | the phases of the first n+1 sizes are those of the first size followed by those of the next n |
| KpSweep.RepeatedSizeCanStop | kp_stress_test.py:152-163 | a batch size listed twice is run twice: a clean first run leaves both its phases on disk, and an exit in the second run still stops the process |
| KpSweep.PhasesShareBatches | kp_stress_test.py:119-131 | for b > 0, the sequential and concurrent phases carry the same ceil(n/b) batches in the same order, and joined they give the pool |
| KpSweep.PassPairEffect | kp_stress_test.py:162-164 | a sequential and a concurrent pass under one key leave each provider's statistics in both tables and touch no other key or provider |
| KpSweep.SizeEffect | kp_stress_test.py:162-164 | when the sequential pass completes, key b of every provider holds its sequential and concurrent statistics, and every other key and provider is unchanged |
| KpSweep.ExitKeepsEarlierPhases | kp_stress_test.py:90-116 | when provider x is the first to exit, the pass stops with exactly the x earlier phases on disk |
| AggregatorPhases.PlanOfShaped | ara_stress_test.py:74-98 | an endpoint's level phases are concurrent phases at that endpoint, one per level in order, under distinct keys |
| AggregatorPhases.PlanShape | ara_stress_test.py:47-100 | an endpoint's writes are all under that endpoint; the first two go to the sequential table and the rest to the concurrent one |
| AggregatorPhases.LevelPhase | ara_stress_test.py:74-100 | the phase for level n at an endpoint: n gathered lookups, stored under key n of the concurrent table; `AggregatorPhases.PhaseSizes` gives its results |
| AggregatorPhases.PlanOf | ara_stress_test.py:47-100 | an endpoint's sequential statistics of 15 calls and its level phases in level order; `AggregatorPhases.PlanOfShaped` gives its shape |
| AggregatorPhases.PlanEffect | ara_stress_test.py:47-100 | an endpoint's writes replace its sequential entry with the statistics and fill each level's slot, leaving other endpoints unchanged |
| AggregatorPhases.EndpointEffect | ara_stress_test.py:47-100 | the sequential entry holds the 15-call statistics, level n holds the statistics of its n gathered calls, and other endpoints are unchanged |
| AggregatorPhases.PhaseSizes | ara_stress_test.py:53-84 | the sequential phase has exactly 15 results in call order, and level n has exactly n results in launch order |
| ArsDriver.MainEffect | ars_stress_test.py:75-130 | the "ars" sequential entry is the statistics of its 15 calls, and each level key holds that level's statistics |
| ArsDriver.Main | ars_stress_test.py:133-145 | every write of the run, all under "ars": the sequential phase, then one gathered phase per level; `ArsDriver.MainEffect` and `ArsDriver.OnlyArs` state the document it leaves |
| ArsDriver.OnlyArs | ars_stress_test.py:133-145 | no endpoint other than "ars" appears in the document |
| ArsDriver.CallsArePollBounded | ars_stress_test.py:36-62 | every call of the run polls at most 361 times |
| AraDriver.SerialCons | ara_stress_test.py:114-119 | one agent's writes followed by a serialized log of later agents form a serialized log |
| AraDriver.AllWritesSerial | ara_stress_test.py:114-119 | plans for distinct agents, run in order, leave a log serialized by agent |
| AraDriver.AllWritesEffect | ara_stress_test.py:105-121 | each agent's plan leaves its entry and level slots, and endpoints that are not agents are unchanged |
| AraDriver.MainIsSerial | ara_stress_test.py:114-119 | agents run strictly in list order, and within an agent the sequential phase precedes the concurrent ones |
| AraDriver.MainEffect | ara_stress_test.py:105-121 | every agent's sequential entry is its 15-call statistics, and each level key holds that level's statistics |
| AraDriver.Main | ara_stress_test.py:105-121 | every write of the run: the agents in list order, each agent's runs complete before the next starts; `AraDriver.MainIsSerial` and `AraDriver.MainEffect` state its order and its document |
| AraDriver.MainElsewhere | ara_stress_test.py:105-121 | endpoints that are not agents keep their entries |
| KpQueryDriver.QueryLookup | kp_stress_tests.py:28-51 | an untrimmable query gives ("timeout", 0) with no request; otherwise the trimmed message's reply gives "timeout" exactly when there is no response, else the code, with results only for a 2xx decodable body |
| KpQueryDriver.PairSlotInjective | kp_stress_tests.py:61 | different pairs are stored under different keys |
| KpQueryDriver.KeyedSlots | kp_stress_tests.py:54-110 | a provider's sequential runs then concurrent runs, each over distinct pairs, land in distinct slots under its name |
| KpQueryDriver.TestSlots | kp_stress_tests.py:113-117 | a provider's thirteen runs are all under its own name, in thirteen distinct slots |
| KpQueryDriver.PairPhaseResults | kp_stress_tests.py:57-94 | the run for (n, b) holds exactly n results, in call or launch order, each a lookup with b identifiers |
| KpQueryDriver.PairPhase | kp_stress_tests.py:57-108 | the (n, b) run of a provider: n lookups with b identifiers, one after another or gathered, stored under key `"n_b"`; `KpQueryDriver.PairPhaseResults` gives its results |
| KpQueryDriver.TestPhases | kp_stress_tests.py:113-117 | a provider's four sequential runs, then its nine concurrent runs; `KpQueryDriver.TestSlots` gives their slots |
| KpQueryDriver.UntrimmableRuns | kp_stress_tests.py:30-43 | a provider whose query cannot be trimmed records every run as n "timeout" calls with no results |
| KpQueryDriver.LogsSeparate | kp_stress_tests.py:129-130 | providers with distinct names write under disjoint endpoints |
| KpQueryDriver.MainIsSerial | kp_stress_tests.py:120-134 | any interleaving of the providers' writes gives the same document as running the providers one after another |
| KpQueryDriver.SerialEffect | kp_stress_tests.py:113-117 | phase lists of distinct endpoints, run in order, leave every phase's statistics in its slot and leave other endpoints unchanged |
| KpQueryDriver.MainEffect | kp_stress_tests.py:120-134 | whatever the interleaving, every run of every provider leaves its statistics in its own slot, and non-providers are unchanged |
| KpQueryDriver.PairStored | kp_stress_tests.py:57-108 | provider x's `"n_b"` slot in each table holds the statistics of exactly its (n, b) run |

## Left out

- Wall-clock timing (`response_time`, `total_time`) is left out. These are floating-point durations read from the clock, and only the poller's budget test depends on time. That test uses a virtual integer clock.
- The HTTP client and JSON decoding are not modelled. Each call's reply is an abstract value chosen by a network function of the call's site. The site is made of table, endpoint, variant and call index. No driver repeats a site within one network, because endpoints are dict keys and the pair and level lists hold no duplicates. The batch-size sweep may list a batch size twice, so each of its passes gets a network of its own (`KpSweep.Nets`).
- The asyncio scheduler is left out. `asyncio.gather` keeps launch order, and every `lookup` catches `Exception`, so gathering is modelled as an order-preserving map. `return_exceptions=True` never takes effect, and cancellation is not modelled.
- The cool-off sleeps between phases and between tests are timing only.
- File output is left out. This covers each `json.dump` after a phase and the initial and final dumps. A run's persisted document is the registry after the writes of the phases completed so far. `KpSweep.Run` records those phases when the process stops.
- Loading `curie_list.json`, `kps.json`, `aras.json` and `kp_queries.json` is left out; these become parameters. Argument parsing and `--batch_sizes` parsing are left out too, and the batch sizes are a parameter.
- Progress bars and `print` output are left out, except for the division in the progress message of the batch-size sweep.
- Payload construction (`generate_kp_message`, `generate_ara_message`) is static data shaping. generate_message.py is not part of this model.
- Copying the stored query before trimming needs no separate statement. Queries are immutable values in the model, so a stored query is the same before and after any number of lookups.
- A `message` that is not a JSON object is modelled only by whether it passes the embedded-errors test. In the synchronous lookup, a string containing `errors` or a list holding `"errors"` exits the process, as an object with an `errors` key does. Every other such message gives a zero-result call (`Calls.NonObjectMessage`). Its exact text is not modelled.
- The `ars` job identifier (`pk`) and the URL formatting are left out. The network function already determines every reply.
- Registry.Apply: a reserve on an entry that an aggregator sequential phase has already replaced is not modelled as the Python behaviour. Python would store a key inside the statistics dict. No driver ever issues such a write, because aggregator sequential entries are never reserved into.
