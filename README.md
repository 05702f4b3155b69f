# Advanced Container Manager: metrics, history, terminal sessions and project health

A Dafny model of the monitoring core of `advanced_manager.py`. The calls into Docker, Redis,
psutil and the clock become plain inputs. What is left is four small components:

- **Container metric derivation** (`Metrics`). A raw stats snapshot becomes a metric record.
  - CPU percent comes from two-point counter deltas and is guarded against a zero or negative
    system delta.
  - Memory percent is guarded against a zero limit.
  - Network traffic is summed over all interfaces.
  - Block I/O defaults to 0.
  - Percentages are exact reals, before rounding.
- **Bounded metric history** (`History`), with two backends.
  - Redis: keyed lists, newest first. Each store is `LPUSH` then `LTRIM 0 99`. These are
    modelled as a map from key to list.
  - In-process: a single list shared by every metric type, oldest first. Each store appends,
    then pops the oldest entry once the list holds more than 100.
  - One read path: `get_container_stats_history`.
- **Terminal session registry** (`Terminal`).
  - Sessions are keyed by `<container id>_<seconds>`.
  - Creation is refused for a container that is not running.
  - A command to an unknown session fails.
- **Project health** and the **process table** (`Projects`, `Processes`).
  - Health keeps the containers whose names start with the lower-cased project name, gives each a health
    value, and sums them up as an overall status plus one issue line per unhealthy container.
  - The process table zips each `top` row with the column titles, then looks fields up with
    defaults.

`Manager` models one cycle of the background sampling loop. The cycle stores the host sample
if it is non-empty. It then stores each running container's non-empty metrics, tagged with
the container's id, under `container:<id>`. `Manager` also holds the container manager's
read path.

Parameters stand in for everything from outside the code:

- the Docker and Redis availability flags;
- container statuses and health records;
- `exec_create` handles;
- stats snapshots and `top` output;
- the result of writing to a session socket (an oracle boolean);
- host samples;
- timestamps and `int(time.time())`.

The code behaves as follows where a reader might expect otherwise, and the model follows it:

- The in-memory history is capped at 100 entries in total. The cap is not per metric stream.
- The in-memory history is oldest first, while Redis is newest first. For a single stream,
  the two backends keep the same records in opposite orders (`BackendsAgreeOnOneStream`).
- Two sessions created for the same container in the same second get the same id. The second
  replaces the first (`SameSecondCreatesCollide`).
- No operation closes a session.

## Model

| member | source | states |
|---|---|---|
| `Metrics.Derive` | advanced_manager.py:93-122 | A snapshot derives no record exactly when the derivation raises (a missing `percpu_usage` when it is reached, or missing `networks`). A derived record carries the given timestamp and no container id, passes memory usage and limit through, has CPU percent 0 when total usage <= 0 or the system delta <= 0, memory percent 0 when the limit is <= 0, and zero block I/O without `blkio_stats`. |
| `Metrics.CollectContainerMetrics` | advanced_manager.py:84-126 | Returns a record exactly when Docker is available, the stats were fetched, and neither `percpu_usage` (when reached) nor `networks` is missing. CPU percent is 0 when total usage <= 0 or the system delta <= 0; otherwise it is cpu_delta / system_delta * cores * 100. Memory percent is 0 when the limit is <= 0; otherwise it is usage / limit * 100. Usage and limit pass through unchanged. rx/tx are the interface sums. Block read/write are 0 without `blkio_stats` and are passed through otherwise. |
| `Metrics.SumAppend` | advanced_manager.py:107-111 | The rx and tx totals of two groups of interfaces taken together are the sums of the groups' totals. |
| `Metrics.SumRemove` | advanced_manager.py:109-111 | Removing one interface lowers the totals by exactly that interface's bytes. |
| `Metrics.SumOrderIndependent` | advanced_manager.py:109-111 | The totals do not depend on the order in which interfaces are listed (any permutation gives the same sums). |
| `Metrics.SumNonNegative` | advanced_manager.py:107-111 | Non-negative byte counters give non-negative totals. |
| `Metrics.SumBounds` | advanced_manager.py:107-111 | With non-negative counters, every interface's bytes are at most the total. |
| `Metrics.CpuPercentBounds` | advanced_manager.py:94-99 | When 0 <= container delta <= system delta, CPU percent lies between 0 and 100 times the number of cores. |
| `Metrics.MemoryPercentBounds` | advanced_manager.py:102-104 | When 0 <= usage <= limit, memory percent lies between 0 and 100. |
| `Metrics.CpuAndMemoryScenario` | advanced_manager.py:94-104 | Usage 1000 to 1400 against system 10000 to 11000 on 4 cores gives 160 percent; 256 MiB of a 512 MiB limit gives 50 percent. |
| `History.EntryGet` | advanced_manager.py:135-139 | An in-memory entry has exactly the top-level keys `type`, `data` and `timestamp`. |
| `History.Appended` | advanced_manager.py:135-141 | After an in-memory store, a history of at most 100 stays at most 100, and the new entry is last. Below 100 it is a plain append. At 100, exactly the oldest entry is dropped and the rest keep their order. |
| `History.AppendedAllKeepsNewest` | advanced_manager.py:135-141 | From an empty history, a series of stores keeps exactly the last min(n, 100) values, oldest first. After 101 stores only the first one is gone. |
| `History.Pushed` | advanced_manager.py:132 | `LPUSH` puts the value at the head of the key's list, creating the list if needed, and leaves other keys alone. |
| `History.Trimmed` | advanced_manager.py:133 | `LTRIM key start stop` leaves other keys alone and does nothing for a key that does not exist. The key survives exactly when the clipped range is non-empty. With start 0 it keeps the first stop+1 elements of the key's list. |
| `History.RedisStored` | advanced_manager.py:130-133 | After a Redis store, the key's list starts with the new record. Its length is min(old + 1, 100), its tail is a prefix of the old list, and every other key is unchanged. |
| `History.RedisStoredAllKeepsNewest` | advanced_manager.py:130-133 | From a key never written, a series of stores leaves the last min(n, 100) values, newest first. |
| `History.BackendsAgreeOnOneStream` | advanced_manager.py:128-141 | For a single metric stream, the Redis list is the in-memory list read backwards. |
| `History.Stored` | advanced_manager.py:128-141 | Under Redis, the in-memory history is unchanged. The `metrics:<type>` list starts with the record and has length min(old + 1, 100), and every other key is unchanged. In memory, Redis is unchanged and the new entry (type, record, timestamp) is last. A history of at most 100 stays at most 100. Below 100 it is a plain append, and at 100 only the oldest entry is dropped. |
| `History.RedisClient.LPush` | advanced_manager.py:132 | The server's lists become `Pushed` of the old lists. |
| `History.RedisClient.LTrim` | advanced_manager.py:133 | The server's lists become `Trimmed` of the old lists. |
| `History.RedisClient.LRangeAll` | advanced_manager.py:489 | `LRANGE key 0 -1` returns the whole list, or nothing for an unknown key. |
| `History.MetricsCollector.constructor` | advanced_manager.py:64-66 | The collector starts with an empty in-memory history and a cap of 100. |
| `History.MetricsCollector.StoreMetrics` | advanced_manager.py:128-141 | Under Redis, only the `metrics:<type>` list changes (push then trim) and the in-memory history is untouched. Otherwise, only the in-memory history changes (bounded append) and Redis is untouched. The cap invariant holds throughout. |
| `History.HistoryAsWritten` | advanced_manager.py:494-496 | The in-memory read as written returns at most as many entries as the history holds. Each is an entry of the history whose top-level `container_id` is the requested id. |
| `History.HistoryAsWrittenIsEmpty` | advanced_manager.py:494-496 | The in-memory read as written returns nothing, for every history and every container id. |
| `History.StoreThenReadInMemory` | advanced_manager.py:494-496 | After storing container c's tagged record in memory, the read as written returns [], while filtering on the record's `container_id` returns the entry. |
| `History.HistoryFor` | advanced_manager.py:494-496 | The corrected read returns exactly the history's entries whose record carries the container id (both directions), and never more entries than the history holds. |
| `History.HistoryForAppend` | advanced_manager.py:494-496 | Storing an entry for the container adds it last to that container's read; storing any other entry adds nothing. |
| `History.HistoryForSplit` | advanced_manager.py:494-496 | The corrected read of a concatenation is the read of the first part followed by the read of the second. So it keeps the container's entries in stored order. |
| `Terminal.SessionId` | advanced_manager.py:169 | A session id begins with the container id, followed by `_`, followed by a non-empty run of decimal digits. |
| `Terminal.SessionIdInjective` | advanced_manager.py:169 | The session id `<container>_<seconds>` determines both the container id and the second. |
| `Text.NatToStringInjective` | advanced_manager.py:169 | Distinct second counts print to distinct strings. |
| `Text.NatToString` | advanced_manager.py:169 | `str(seconds)` is a non-empty run of decimal digits. |
| `Text.NatToStringDigits` | advanced_manager.py:169 | `str(seconds)` has two or more digits exactly when seconds >= 10. |
| `Terminal.TerminalManager.constructor` | advanced_manager.py:146-147 | The registry starts empty. |
| `Terminal.TerminalManager.CreateSession` | advanced_manager.py:149-179 | Succeeds exactly when Docker is available, the container's status is `running` and `exec_create` returns a handle. On failure the registry is unchanged. On success the id is `<container>_<seconds>` and it maps to {container, exec handle, no socket}. |
| `Terminal.TerminalManager.SendCommand` | advanced_manager.py:181-203 | Succeeds exactly when the session id is registered and the command is delivered. It never changes the registry. |
| `Terminal.SameSecondCreatesCollide` | advanced_manager.py:169-174 | Two creates for one container in the same second return the same id, and only the second exec handle stays registered. |
| `Terminal.SessionLifecycle` | advanced_manager.py:149-203 | Creates in different seconds give distinct ids. A non-running container gets no session. A command to a live session succeeds when delivered; one to an unknown id fails. |
| `Text.LowerChar` | advanced_manager.py:303 | An ASCII capital maps to the lower-case letter 32 code points above it. Every other character is unchanged. |
| `Text.StartsWith` | advanced_manager.py:303 | `startswith` holds exactly when the prefix is no longer than the string and agrees with it at every position. |
| `Text.Lower` | advanced_manager.py:303 | `lower()` keeps the length and lower-cases each ASCII capital, leaving other characters unchanged. |
| `Projects.ProjectContainers` | advanced_manager.py:302-303 | A container belongs to the project exactly when it is listed and its name starts with the lower-cased project name. |
| `Projects.ProjectContainersAppend` | advanced_manager.py:302-303 | Listing one more container adds it, last, to the project's containers exactly when its name starts with the lower-cased project name. |
| `Projects.ProjectContainersSplit` | advanced_manager.py:302-303 | Filtering a concatenation gives the filter of the first part followed by the filter of the second. So project containers keep their listing order. |
| `Projects.ProjectContainersCount` | advanced_manager.py:302-303 | A container whose name starts with the lower-cased project name is kept as many times as it is listed. Any other container is never kept. |
| `Projects.HealthOf` | advanced_manager.py:305-320 | Name and status are copied. A non-running container's health stays `unknown`, with no failing streak. A failing streak is present exactly when a running container has a health record. A running container without a health record keeps `unknown`. One with a health record takes the record's status, or `unknown` when the record has none, and its failing streak is the record's `FailingStreak`, or 0 when absent. One whose health record raised gets `running`. |
| `Projects.Unhealthy` | advanced_manager.py:328 | The unhealthy list is no longer than the container list. Each of its members is one of the containers and has health `unhealthy`. |
| `Projects.UnhealthySplit` | advanced_manager.py:328 | The unhealthy filter of a concatenation is the filter of the first part followed by the filter of the second. So unhealthy containers keep their order. |
| `Projects.UnhealthyCount` | advanced_manager.py:328 | An unhealthy container occurs in the unhealthy list exactly as many times as in the container list. Any other container never occurs. Together with `Projects.Issues`, each unhealthy container gets exactly one issue line. |
| `Projects.UnhealthyMembers` | advanced_manager.py:328 | The unhealthy list holds exactly the containers whose health is `unhealthy`. It is empty exactly when there are none. |
| `Projects.Issues` | advanced_manager.py:331 | Issue i is `Container <name> is unhealthy` for the i-th unhealthy container, with one issue per container. |
| `Projects.GetProjectHealth` | advanced_manager.py:286-338 | Returns None exactly when the project is unknown. Without Docker, the status is healthy with no containers. When listing raises, overall is `error` with the message as the single issue. Otherwise there is one health entry per project container, in order. Overall is `no_containers` exactly when there are none, `unhealthy` exactly when some container is unhealthy, and `healthy` otherwise. The issues are one line per unhealthy container. |
| `Processes.ZipGet` | advanced_manager.py:426-427 | A lookup in the zipped row returns either the default or the row's cell at some position where the title is the key. |
| `Processes.RowInfo` | advanced_manager.py:426-434 | Each of the six fields of a process record is either its default (`''`, or `'0.0'` for `%CPU` and `%MEM`) or one of the row's cells. |
| `Processes.ZipGetMissing` | advanced_manager.py:426-434 | A title absent from the zipped columns yields the default. |
| `Processes.ZipGetFound` | advanced_manager.py:426-434 | A title yields the row's cell at its last position within the shorter of titles and row. |
| `Processes.PsEfRow` | advanced_manager.py:426-434 | With `ps -ef` titles, `PID` and `TIME` come from the row, and `USER`, `COMMAND`, `%CPU` and `%MEM` take their defaults. |
| `Processes.GetContainerProcesses` | advanced_manager.py:409-439 | The result is empty without Docker, for a non-running or missing container, when `top` raises, or when `Processes` or `Titles` is missing. Otherwise it has one record per row, in order, built from that row zipped with the titles. |
| `Manager.ContainerStore` | advanced_manager.py:515-518 | One listed container gives at most one store. It gives one exactly when its stats were fetched and derive to a record. That store is keyed `container:<id>` and its record carries the id. |
| `Manager.ContainerStoresTagged` | advanced_manager.py:513-518 | Every container store of a cycle is keyed `container:<id>`. Its record carries that id and is the non-empty derivation of a listed container's stats. A cycle never makes more container stores than containers were listed. |
| `Manager.ContainerStoresKeys` | advanced_manager.py:513-518 | Every container store of a cycle is filed under `container:<id>` for the id of one of the listed containers. |
| `Manager.ContainerStoresDistinctKeys` | advanced_manager.py:513-518 | When the listed containers have pairwise distinct ids, no two container stores of a cycle use the same key. So each `container:<id>` key gets at most one store. |
| `Manager.ContainerStoresCount` | advanced_manager.py:513-518 | When every listed container derives a record, each gives exactly one store, in listing order, under its own key. |
| `Manager.CycleStores` | advanced_manager.py:508-518 | A non-empty host sample is stored first, under `system`. It is the only host store. Without Docker, or when listing fails, there is at most that one store. Otherwise there is at most one store more than the number of listed containers. |
| `Manager.CycleStoresTagged` | advanced_manager.py:508-518 | Every store a cycle makes is tagged: `system` for the host, and `container:<id>` with a matching record id for containers. |
| `Manager.StoredAllKeepsTagged` | advanced_manager.py:517-518 | Tagged stores keep the in-memory history tagged, eviction included. |
| `Manager.TaggedFiltersAgree` | advanced_manager.py:517-518 | In a tagged history, filtering on the record's `container_id` picks the same entries as filtering on the type `container:<id>`. |
| `Manager.RedisStoreThenRead` | advanced_manager.py:488-489 | A record stored under `metrics:container:<id>` is the first item the stats-history read for that id returns. |
| `Manager.StoredAllAppend` | advanced_manager.py:508-518 | Running two batches of stores one after the other has the same effect as running their concatenation. |
| `Manager.StoreOneContainer` | advanced_manager.py:515-518 | One loop step of the cycle. The collector's state changes by exactly that container's store: none when its metrics are empty, otherwise its id-tagged record stored under `container:<id>`. |
| `Manager.StoreContainerMetrics` | advanced_manager.py:514-518 | The collector's new state is the old state after every listed container's store, in listing order. |
| `Manager.CollectMetricsCycle` | advanced_manager.py:503-523 | The collector's new state is the old state after the cycle's stores, in order: the host sample if non-empty, then each running container's non-empty, id-tagged metrics. The pause is 10 s when listing the containers raised and 5 s otherwise. |
| `Manager.AdvancedContainerManager.constructor` | advanced_manager.py:343-346 | The manager owns a fresh, empty terminal registry and a fresh, empty collector. |
| `Manager.AdvancedContainerManager.CreateTerminalSession` | advanced_manager.py:480-482 | The same contract as `CreateSession`, applied to the manager's registry. |
| `Manager.AdvancedContainerManager.GetContainerStatsHistory` | advanced_manager.py:484-496 | Under Redis, returns the whole `metrics:container:<id>` list (newest first), or nothing when the read raises. In memory, it applies the filter as written (top-level `container_id`) and so always returns nothing. |
| `Manager.AdvancedContainerManager.GetContainerStatsHistoryCorrected` | advanced_manager.py:484-496 | The read with the intended in-memory filter. Redis behaves as above. In memory, it returns exactly the entries whose record carries the id (both directions), oldest first. |

## Findings

| source | as written | input that shows it | evidently intended | confidence | as-written member | corrected member |
|---|---|---|---|---|---|---|
| advanced_manager.py:495-496 | The in-memory read keeps entries whose top-level `container_id` equals the id. Stored entries only have `type`, `data` and `timestamp` at the top level, and the background loop puts `container_id` inside `data` (line 517). | Store one tagged metrics record for container `c1`, then read the history of `c1`: the result is `[]`. | Filter on the record's `container_id` inside `data`, so the read returns that container's entries, oldest first. | not executed | `History.StoreThenReadInMemory` | `Manager.AdvancedContainerManager.GetContainerStatsHistoryCorrected` |

`History.HistoryAsWrittenIsEmpty` proves that the as-written filter is empty for every history.
`Manager.AdvancedContainerManager.GetContainerStatsHistory` models the read as written, and its
contract states that the in-memory branch returns nothing.
`Manager.AdvancedContainerManager.GetContainerStatsHistoryCorrected` uses the corrected filter
`History.HistoryFor`. That filter is proved to return exactly the container's entries, in stored
order (`History.HistoryForAppend`, `History.HistoryForSplit`).

## Left out

- Host sampling (`collect_system_metrics`: psutil and `os.getloadavg`) is I/O. A host record is an input to the cycle.
- Docker calls (`containers.get`, `stats`, `list`, `top`, `exec_create`, `exec_start`, socket `send`) are foreign I/O. Their results are parameters, and the socket write is an oracle boolean.
- Redis network failures inside `store_metrics` are not modelled. Such a failure would raise out of the cycle into the 10 s back-off. Redis is modelled as an abstract keyed-list store with `LPUSH`, `LTRIM` with non-negative indices, and `LRANGE 0 -1`.
- JSON serialisation of Redis items is not modelled: records are stored as values, and a `json.dumps`/`json.loads` round trip is taken to be the identity.
- `round(x, 2)` and IEEE floating point are not modelled. Percentages are exact reals.
- Timestamps (`datetime.now().isoformat()`) and `int(time.time())` are parameters. One cycle uses one timestamp throughout.
- The background thread, its endless loop and its sleeps are scheduling and concurrency. One cycle is modelled, and it returns the pause length.
- Flask routes, templates and Socket.IO handlers are web and push plumbing.
- Project provisioning (`add_project`, git clone/pull) and configuration load/save are file and network I/O. `get_projects`/`get_project` are plain lookups that surround it.
- `get_container_inspect`, `get_all_containers` and `get_container_logs_with_options` are thin wrappers over Docker data.
- The `hours` argument of `get_container_stats_history` is left out because the source never uses it.
- Raw stats snapshots are typed. A missing `percpu_usage` or `networks` key is modelled as the raised error (an empty result). Other missing keys, such as `memory_stats.limit`, cannot be expressed.
- `GetProjectHealth` treats a configured project as present. An empty project dict, which Python treats as false, is not distinguished because `add_project` never writes one.
- `GetProjectHealth` models only two failures: listing the containers raising (overall `error`) and reading the health record raising (health `running`). Other exceptions inside the per-container loop are not modelled.
- `Text.Lower` lower-cases ASCII letters only. Python's `str.lower` also maps non-ASCII letters.
- `Text.LowerChar` maps only the ASCII capitals and leaves every other character unchanged, for the same reason: non-ASCII case mapping is not modelled.
