/** Bounded metric history (advanced_manager.py, MetricsCollector.store_metrics): either a
    Redis list per metric type, newest first and trimmed to 100 entries, or one in-process
    list shared by every metric type, oldest first, from which the oldest entry is popped
    once it holds more than 100. */
module History {
  import opened Wrappers
  import opened Metrics

  /** `max_history`. */
  const MaxHistory: nat := 100

  /** One element of the in-memory list: `{'type': ..., 'data': ..., 'timestamp': ...}`. */
  datatype Entry = Entry(metricsType: string, data: MetricData, timestamp: string)

  /** A top-level value of an in-memory entry seen as a dict. */
  datatype Value = Str(s: string) | Dict(d: MetricData)

  /** `entry.get(key)`: an entry has exactly the keys `type`, `data` and `timestamp`. */
  function EntryGet(e: Entry, key: string): (r: Option<Value>)
    ensures r.Some? <==> key in {"type", "data", "timestamp"}
  {
    if key == "type" then Some(Str(e.metricsType))
    else if key == "data" then Some(Dict(e.data))
    else if key == "timestamp" then Some(Str(e.timestamp))
    else None
  }

  // ---------------------------------------------------------------------------------------
  // The in-memory backend

  /** `append` followed by `pop(0)` when the list has grown past `max_history`. */
  function Appended<T>(h: seq<T>, x: T): (r: seq<T>)
    ensures |h| <= MaxHistory ==> |r| <= MaxHistory
    ensures |r| > 0 && r[|r| - 1] == x
    ensures |h| < MaxHistory ==> r == h + [x]
    ensures |h| >= MaxHistory ==> r == h[1..] + [x]
  {
    var g := h + [x];
    if |g| > MaxHistory then g[1..] else g
  }

  /** Several appends in a row. */
  function AppendedAll<T>(h: seq<T>, xs: seq<T>): seq<T> {
    if xs == [] then h else Appended(AppendedAll(h, xs[..|xs| - 1]), xs[|xs| - 1])
  }

  function Min(a: int, b: int): int {
    if a <= b then a else b
  }

  /** Starting from an empty history, what is kept are exactly the last 100 values appended,
      oldest first; appending 101 values evicts only the first one. */
  lemma {:induction false} AppendedAllKeepsNewest<T>(xs: seq<T>)
    ensures AppendedAll([], xs) == xs[|xs| - Min(|xs|, MaxHistory)..]
    decreases |xs|
  {
    if xs != [] {
      var xs' := xs[..|xs| - 1];
      AppendedAllKeepsNewest(xs');
      var h := AppendedAll([], xs');
      assert h == xs'[|xs'| - Min(|xs'|, MaxHistory)..];
      if |xs'| < MaxHistory {
        assert h == xs';
        assert xs' + [xs[|xs| - 1]] == xs;
      } else {
        assert h[1..] + [xs[|xs| - 1]] == xs[|xs| - MaxHistory..];
      }
    }
  }

  // ---------------------------------------------------------------------------------------
  // The Redis backend: an ordered-list store keyed by string

  /** `LRANGE key 0 -1`: the whole list, empty for a key that was never written. */
  function ListAt(lists: map<string, seq<MetricData>>, key: string): seq<MetricData> {
    if key in lists then lists[key] else []
  }

  /** `LPUSH key value`: the value becomes the head of the list, which is created if absent. */
  function Pushed(lists: map<string, seq<MetricData>>, key: string, v: MetricData): (r: map<string, seq<MetricData>>)
    ensures r.Keys == lists.Keys + {key}
    ensures ListAt(r, key) == [v] + ListAt(lists, key)
    ensures forall k :: k != key ==> ListAt(r, k) == ListAt(lists, k)
  {
    lists[key := [v] + ListAt(lists, key)]
  }

  /** `LTRIM key start stop` for non-negative indices: keeps positions `start..stop`
      inclusive, clipped to the list; a list left empty disappears. */
  function Trimmed(lists: map<string, seq<MetricData>>, key: string, start: nat, stop: nat): (r: map<string, seq<MetricData>>)
    ensures forall k :: k != key ==> ListAt(r, k) == ListAt(lists, k)
    ensures key !in lists ==> r == lists
    ensures key in lists ==> (key in r <==> start < Min(|lists[key]|, stop + 1))
    ensures start == 0 && key in lists && lists[key] != [] ==>
      key in r && ListAt(r, key) == lists[key][..Min(|lists[key]|, stop + 1)]
  {
    if key !in lists then lists
    else
      var l := lists[key];
      var hi := Min(|l|, stop + 1);
      if start >= hi then lists - {key} else lists[key := l[start..hi]]
  }

  /** The Redis half of `store_metrics`: push, then trim to the first `max_history`. */
  function RedisStored(lists: map<string, seq<MetricData>>, key: string, v: MetricData): (r: map<string, seq<MetricData>>)
    ensures key in r
    ensures |ListAt(r, key)| == Min(|ListAt(lists, key)| + 1, MaxHistory)
    ensures ListAt(r, key)[0] == v
    ensures ListAt(r, key)[1..] == ListAt(lists, key)[..|ListAt(r, key)| - 1]
    ensures forall k :: k != key ==> ListAt(r, k) == ListAt(lists, k)
  {
    var pushed := Pushed(lists, key, v);
    var r := Trimmed(pushed, key, 0, MaxHistory - 1);
    assert ListAt(r, key) == ([v] + ListAt(lists, key))[..Min(|ListAt(lists, key)| + 1, MaxHistory)];
    r
  }

  /** Several stores to one key in a row. */
  function RedisStoredAll(lists: map<string, seq<MetricData>>, key: string, xs: seq<MetricData>): map<string, seq<MetricData>> {
    if xs == [] then lists else RedisStored(RedisStoredAll(lists, key, xs[..|xs| - 1]), key, xs[|xs| - 1])
  }

  /** Starting from a key that was never written, the list holds the last 100 values
      stored, newest first. */
  lemma {:induction false} RedisStoredAllKeepsNewest(lists: map<string, seq<MetricData>>, key: string, xs: seq<MetricData>)
    requires key !in lists
    ensures var l := ListAt(RedisStoredAll(lists, key, xs), key);
      && |l| == Min(|xs|, MaxHistory)
      && forall i :: 0 <= i < |l| ==> l[i] == xs[|xs| - 1 - i]
    decreases |xs|
  {
    if xs != [] {
      var xs' := xs[..|xs| - 1];
      RedisStoredAllKeepsNewest(lists, key, xs');
      var before := RedisStoredAll(lists, key, xs');
      var l := ListAt(RedisStoredAll(lists, key, xs), key);
      assert RedisStoredAll(lists, key, xs) == RedisStored(before, key, xs[|xs| - 1]);
      forall i | 0 <= i < |l| ensures l[i] == xs[|xs| - 1 - i] {
        if i > 0 {
          assert l[i] == l[1..][i - 1] == ListAt(before, key)[i - 1];
          assert xs'[|xs'| - 1 - (i - 1)] == xs[|xs| - 1 - i];
        }
      }
    }
  }

  /** For one metric stream the two backends keep the same records: the Redis list is the
      in-memory list read backwards. */
  lemma BackendsAgreeOnOneStream(lists: map<string, seq<MetricData>>, key: string, xs: seq<MetricData>)
    requires key !in lists
    ensures var l := ListAt(RedisStoredAll(lists, key, xs), key);
      var h := AppendedAll([], xs);
      && |l| == |h|
      && forall i :: 0 <= i < |l| ==> l[i] == h[|h| - 1 - i]
  {
    RedisStoredAllKeepsNewest(lists, key, xs);
    AppendedAllKeepsNewest(xs);
  }

  // ---------------------------------------------------------------------------------------
  // The collector's state and its store operation

  datatype StoreState = StoreState(history: seq<Entry>, lists: map<string, seq<MetricData>>)

  /** The effect of one `store_metrics(metricsType, data)` call. */
  function Stored(redisAvailable: bool, st: StoreState, metricsType: string, data: MetricData, now: string): (r: StoreState)
    ensures redisAvailable ==>
      var key := "metrics:" + metricsType;
      && r.history == st.history
      && |ListAt(r.lists, key)| > 0 && ListAt(r.lists, key)[0] == data
      && |ListAt(r.lists, key)| == Min(|ListAt(st.lists, key)| + 1, MaxHistory)
      && forall k :: k != key ==> ListAt(r.lists, k) == ListAt(st.lists, k)
    ensures !redisAvailable ==>
      var e := Entry(metricsType, data, now);
      && r.lists == st.lists
      && |r.history| > 0 && r.history[|r.history| - 1] == e
      && (|st.history| <= MaxHistory ==> |r.history| <= MaxHistory)
      && (|st.history| < MaxHistory ==> r.history == st.history + [e])
      && (|st.history| >= MaxHistory ==> r.history == st.history[1..] + [e])
  {
    if redisAvailable then StoreState(st.history, RedisStored(st.lists, "metrics:" + metricsType, data))
    else StoreState(Appended(st.history, Entry(metricsType, data, now)), st.lists)
  }

  /** The Redis server, seen as a map from key to list. */
  class RedisClient {
    var lists: map<string, seq<MetricData>>

    constructor (initial: map<string, seq<MetricData>>)
      ensures lists == initial
    {
      lists := initial;
    }

    method LPush(key: string, value: MetricData)
      modifies this
      ensures lists == Pushed(old(lists), key, value)
    {
      lists := Pushed(lists, key, value);
    }

    method LTrim(key: string, start: nat, stop: nat)
      modifies this
      ensures lists == Trimmed(old(lists), key, start, stop)
    {
      lists := Trimmed(lists, key, start, stop);
    }

    /** `LRANGE key 0 -1`. */
    method LRangeAll(key: string) returns (items: seq<MetricData>)
      ensures items == ListAt(lists, key)
    {
      items := if key in lists then lists[key] else [];
    }
  }

  class MetricsCollector {
    /** The module-wide `REDIS_AVAILABLE` flag, fixed at start-up. */
    const redisAvailable: bool
    const redis: RedisClient
    const maxHistory: nat
    var metricsHistory: seq<Entry>

    ghost predicate Valid()
      reads this
    {
      maxHistory == MaxHistory && |metricsHistory| <= maxHistory
    }

    function State(): StoreState
      reads this, redis
    {
      StoreState(metricsHistory, redis.lists)
    }

    constructor (redisAvailable: bool, redis: RedisClient)
      ensures Valid()
      ensures this.redisAvailable == redisAvailable && this.redis == redis
      ensures metricsHistory == []
    {
      this.redisAvailable := redisAvailable;
      this.redis := redis;
      maxHistory := 100;
      metricsHistory := [];
    }

    /** `store_metrics(metrics_type, data)`; `now` is the entry's timestamp. */
    method StoreMetrics(metricsType: string, data: MetricData, now: string)
      requires Valid()
      modifies this, redis
      ensures Valid()
      ensures redisAvailable ==>
        && redis.lists == RedisStored(old(redis.lists), "metrics:" + metricsType, data)
        && metricsHistory == old(metricsHistory)
      ensures !redisAvailable ==>
        && metricsHistory == Appended(old(metricsHistory), Entry(metricsType, data, now))
        && redis.lists == old(redis.lists)
      ensures State() == Stored(redisAvailable, old(State()), metricsType, data, now)
    {
      if redisAvailable {
        var key := "metrics:" + metricsType;
        redis.LPush(key, data);
        redis.LTrim(key, 0, maxHistory - 1);
      } else {
        metricsHistory := metricsHistory + [Entry(metricsType, data, now)];
        if |metricsHistory| > maxHistory {
          metricsHistory := metricsHistory[1..];
        }
      }
    }
  }

  // ---------------------------------------------------------------------------------------
  // Reading the in-memory history back

  /** The in-memory read as written: keep the entries whose top-level `container_id`
      equals the requested id. */
  function HistoryAsWritten(h: seq<Entry>, containerId: string): (r: seq<Entry>)
    ensures |r| <= |h|
    ensures forall i :: 0 <= i < |r| ==> r[i] in h && EntryGet(r[i], "container_id") == Some(Str(containerId))
  {
    if h == [] then []
    else HistoryAsWritten(h[..|h| - 1], containerId)
         + (if EntryGet(h[|h| - 1], "container_id") == Some(Str(containerId)) then [h[|h| - 1]] else [])
  }

  /** No entry has a top-level `container_id`, so the read as written returns nothing. */
  lemma {:induction false} HistoryAsWrittenIsEmpty(h: seq<Entry>, containerId: string)
    ensures HistoryAsWritten(h, containerId) == []
    decreases |h|
  {
    if h != [] {
      HistoryAsWrittenIsEmpty(h[..|h| - 1], containerId);
      assert EntryGet(h[|h| - 1], "container_id") == None;
    }
  }

  /** The entry stores metrics tagged with this container's id (the tag the background
      loop puts inside `data`). */
  predicate EntryFor(e: Entry, containerId: string) {
    e.data.ContainerData? && e.data.container.containerId == Some(containerId)
  }

  /** The read with the filter applied to `data['container_id']`: the history's entries for
      that container, oldest first. */
  function HistoryFor(h: seq<Entry>, containerId: string): (r: seq<Entry>)
    ensures |r| <= |h|
    ensures forall e :: e in r <==> e in h && EntryFor(e, containerId)
  {
    if h == [] then []
    else HistoryFor(h[..|h| - 1], containerId)
         + (if EntryFor(h[|h| - 1], containerId) then [h[|h| - 1]] else [])
  }

  /** Reads commute with appends: appending an entry for the container adds it, last, to the
      container's history, and appending any other entry adds nothing. */
  lemma HistoryForAppend(h: seq<Entry>, e: Entry, containerId: string)
    ensures HistoryFor(h + [e], containerId)
      == HistoryFor(h, containerId) + (if EntryFor(e, containerId) then [e] else [])
  {
    assert (h + [e])[..|h + [e]| - 1] == h;
  }

  /** The read distributes over concatenation, so it keeps the container's entries in the
      order they were stored. */
  lemma {:induction false} HistoryForSplit(a: seq<Entry>, b: seq<Entry>, containerId: string)
    ensures HistoryFor(a + b, containerId) == HistoryFor(a, containerId) + HistoryFor(b, containerId)
    decreases |b|
  {
    if b != [] {
      var b' := b[..|b| - 1];
      var e := b[|b| - 1];
      HistoryForSplit(a, b', containerId);
      assert a + b == (a + b') + [e];
      assert b == b' + [e];
      HistoryForAppend(a + b', e, containerId);
      HistoryForAppend(b', e, containerId);
    } else {
      assert a + b == a;
    }
  }

  /** An in-memory store of a tagged container record followed by a read, as written and
      with the filter on `data`: only the latter finds the record. */
  lemma StoreThenReadInMemory(m: ContainerMetrics, containerId: string, now: string)
    requires m.containerId == Some(containerId)
    ensures var e := Entry("container:" + containerId, ContainerData(m), now);
      var st := Stored(false, StoreState([], map[]), "container:" + containerId, ContainerData(m), now);
      && st.history == [e]
      && HistoryAsWritten(st.history, containerId) == []
      && HistoryFor(st.history, containerId) == [e]
  {
    var e := Entry("container:" + containerId, ContainerData(m), now);
    assert [e][..0] == [];
    HistoryAsWrittenIsEmpty([e], containerId);
  }
}
