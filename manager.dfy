/** The container manager's read path and one cycle of the background sampling loop
    (advanced_manager.py, AdvancedContainerManager and collect_metrics_background). */
module Manager {
  import opened Wrappers
  import opened Metrics
  import opened History
  import opened Terminal

  /** What `get_container_stats_history` returns: the Redis items, or in-memory entries. */
  datatype HistoryView = RedisItems(items: seq<MetricData>) | MemoryEntries(entries: seq<Entry>)

  /** A container reported running by `containers.list()` and its stats snapshot (None when
      fetching it raised). */
  datatype Listed = Listed(id: string, stats: Option<ContainerStats>)

  /** One `store_metrics(metricsType, data)` call. */
  datatype StoreOp = StoreOp(metricsType: string, data: MetricData)

  /** The stores the container half of a cycle makes: a record only for each container whose
      metrics are non-empty, tagged with its id, under `container:<id>`. */
  function ContainerStores(cs: seq<Listed>, now: string): seq<StoreOp> {
    if cs == [] then [] else ContainerStores(cs[..|cs| - 1], now) + ContainerStore(cs[|cs| - 1], now)
  }

  /** The stores one cycle makes, in order. */
  function CycleStores(system: Option<SystemMetrics>, dockerAvailable: bool, running: Result<seq<Listed>>, now: string): (r: seq<StoreOp>)
    ensures system.Some? ==> |r| > 0 && r[0] == StoreOp("system", SystemData(system.value))
    ensures !(dockerAvailable && running.Success?) ==> |r| <= 1
    ensures dockerAvailable && running.Success? ==> |r| <= |running.value| + 1
    ensures forall i :: 0 <= i < |r| ==> (r[i].data.SystemData? <==> system.Some? && i == 0)
  {
    var sys := if system.Some? then [StoreOp("system", SystemData(system.value))] else [];
    if dockerAvailable && running.Success? then
      ContainerStoresTagged(running.value, now);
      var cont := ContainerStores(running.value, now);
      assert forall i :: |sys| <= i < |sys + cont| ==> (sys + cont)[i] == cont[i - |sys|] && cont[i - |sys|] in cont;
      sys + cont
    else sys
  }

  function StoredAll(redisAvailable: bool, st: StoreState, ops: seq<StoreOp>, now: string): StoreState {
    if ops == [] then st
    else
      var op := ops[|ops| - 1];
      Stored(redisAvailable, StoredAll(redisAvailable, st, ops[..|ops| - 1], now), op.metricsType, op.data, now)
  }

  /** A store operation keeps the two notions of "metrics of container c" in step: its data
      carries container id c exactly when it is stored under `container:c`. */
  predicate Tagged(op: StoreOp) {
    match op.data
    case SystemData(_) => op.metricsType == "system"
    case ContainerData(m) => m.containerId.Some? && op.metricsType == "container:" + m.containerId.value
  }

  /** Every container store of a cycle is tagged, comes from a listed container whose
      snapshot derived to a record, and there is at most one per listed container. */
  lemma {:induction false} ContainerStoresTagged(cs: seq<Listed>, now: string)
    ensures |ContainerStores(cs, now)| <= |cs|
    ensures forall op :: op in ContainerStores(cs, now) ==>
      && op.data.ContainerData? && Tagged(op)
      && exists c :: c in cs && c.stats.Some? && Derive(c.stats.value, now).Some?
                     && op.data.container == Derive(c.stats.value, now).value.(containerId := Some(c.id))
    decreases |cs|
  {
    if cs != [] {
      var cs' := cs[..|cs| - 1];
      ContainerStoresTagged(cs', now);
      assert forall c :: c in cs' ==> c in cs;
    }
  }

  /** Every container store is filed under the key of some listed container. */
  lemma ContainerStoresKeys(cs: seq<Listed>, now: string)
    ensures forall op :: op in ContainerStores(cs, now) ==>
      exists k :: 0 <= k < |cs| && op.metricsType == "container:" + cs[k].id
  {
    ContainerStoresTagged(cs, now);
    forall op | op in ContainerStores(cs, now)
      ensures exists k :: 0 <= k < |cs| && op.metricsType == "container:" + cs[k].id
    {
      var c :| c in cs && c.stats.Some? && Derive(c.stats.value, now).Some?
               && op.data.container == Derive(c.stats.value, now).value.(containerId := Some(c.id));
      var k :| 0 <= k < |cs| && cs[k] == c;
      assert op.metricsType == "container:" + cs[k].id;
    }
  }

  /** No two store operations go to the same key. */
  predicate DistinctKeys(ops: seq<StoreOp>) {
    forall i, j :: 0 <= i < j < |ops| ==> ops[i].metricsType != ops[j].metricsType
  }

  /** When the listed containers have pairwise distinct ids, a cycle stores at most one
      record under each `container:<id>` key. */
  lemma {:induction false} ContainerStoresDistinctKeys(cs: seq<Listed>, now: string)
    requires forall i, j :: 0 <= i < j < |cs| ==> cs[i].id != cs[j].id
    ensures DistinctKeys(ContainerStores(cs, now))
    decreases |cs|
  {
    if cs != [] {
      var cs' := cs[..|cs| - 1];
      var last := cs[|cs| - 1];
      var pre := ContainerStores(cs', now);
      var ops := ContainerStores(cs, now);
      ContainerStoresDistinctKeys(cs', now);
      ContainerStoresKeys(cs', now);
      assert ops == pre + ContainerStore(last, now);
      assert DistinctKeys(pre);
      forall i, j | 0 <= i < j < |ops| ensures ops[i].metricsType != ops[j].metricsType {
        if j >= |pre| {
          assert j == |pre| && ops[j] == ContainerStore(last, now)[0];
          assert ops[i] == pre[i] && pre[i] in pre;
          var k :| 0 <= k < |cs'| && pre[i].metricsType == "container:" + cs'[k].id;
          assert cs'[k] == cs[k];
          assert ops[j].metricsType == "container:" + last.id;
          if ops[i].metricsType == ops[j].metricsType {
            ContainerPrefixCancels(cs[k].id, last.id);
          }
        } else {
          assert ops[i] == pre[i] && ops[j] == pre[j];
        }
      }
    }
  }

  /** When every listed container's stats derive to a record, each yields exactly one store,
      in listing order, under its own key. */
  lemma {:induction false} ContainerStoresCount(cs: seq<Listed>, now: string)
    requires forall i :: 0 <= i < |cs| ==> cs[i].stats.Some? && Derive(cs[i].stats.value, now).Some?
    ensures |ContainerStores(cs, now)| == |cs|
    ensures forall i :: 0 <= i < |cs| ==> ContainerStores(cs, now)[i].metricsType == "container:" + cs[i].id
    decreases |cs|
  {
    if cs != [] {
      ContainerStoresCount(cs[..|cs| - 1], now);
    }
  }

  predicate AllTagged(h: seq<Entry>) {
    forall i :: 0 <= i < |h| ==> Tagged(StoreOp(h[i].metricsType, h[i].data))
  }

  lemma ContainerPrefixCancels(a: string, b: string)
    requires "container:" + a == "container:" + b
    ensures a == b
  {
    assert a == ("container:" + a)[10..];
  }

  /** In a history written by tagged stores, filtering on `data['container_id']` and
      filtering on the entry's type pick out the same entries. */
  lemma TaggedFiltersAgree(h: seq<Entry>, containerId: string, i: nat)
    requires AllTagged(h) && i < |h|
    ensures EntryFor(h[i], containerId) <==> h[i].metricsType == "container:" + containerId
  {
    assert Tagged(StoreOp(h[i].metricsType, h[i].data));
    if h[i].metricsType == "container:" + containerId && h[i].data.ContainerData? {
      ContainerPrefixCancels(h[i].data.container.containerId.value, containerId);
    }
  }

  /** Tagged stores keep an in-memory history tagged. */
  lemma {:induction false} StoredAllKeepsTagged(st: StoreState, ops: seq<StoreOp>, now: string)
    requires AllTagged(st.history)
    requires forall op :: op in ops ==> Tagged(op)
    ensures AllTagged(StoredAll(false, st, ops, now).history)
    decreases |ops|
  {
    if ops != [] {
      var ops' := ops[..|ops| - 1];
      assert forall op :: op in ops' ==> op in ops;
      StoredAllKeepsTagged(st, ops', now);
      var h := StoredAll(false, st, ops', now).history;
      var op := ops[|ops| - 1];
      var h2 := Appended(h, Entry(op.metricsType, op.data, now));
      assert h2 == StoredAll(false, st, ops, now).history;
      forall i | 0 <= i < |h2| ensures Tagged(StoreOp(h2[i].metricsType, h2[i].data)) {
        if i == |h2| - 1 {
          assert h2[i] == Entry(op.metricsType, op.data, now);
        } else if |h| < MaxHistory {
          assert h2[i] == h[i];
        } else {
          assert h2[i] == h[i + 1];
        }
      }
    }
  }

  /** Every store one cycle makes is tagged. */
  lemma CycleStoresTagged(system: Option<SystemMetrics>, dockerAvailable: bool, running: Result<seq<Listed>>, now: string)
    ensures forall op :: op in CycleStores(system, dockerAvailable, running, now) ==> Tagged(op)
  {
    if dockerAvailable && running.Success? {
      ContainerStoresTagged(running.value, now);
    }
  }

  /** A record stored for container c under Redis is what the stats-history read for c
      returns first. */
  lemma RedisStoreThenRead(lists: map<string, seq<MetricData>>, containerId: string, d: MetricData)
    ensures var l := ListAt(RedisStored(lists, "metrics:" + ("container:" + containerId), d), "metrics:container:" + containerId);
      |l| > 0 && l[0] == d
  {
    assert "metrics:" + ("container:" + containerId) == "metrics:container:" + containerId;
  }

  lemma ContainerStoresStep(cs: seq<Listed>, i: nat, now: string)
    requires i < |cs|
    ensures ContainerStores(cs[..i + 1], now) == ContainerStores(cs[..i], now) + ContainerStore(cs[i], now)
  {
    assert cs[..i + 1][..i] == cs[..i];
  }

  lemma StoredAllSnoc(redisAvailable: bool, st: StoreState, ops: seq<StoreOp>, op: StoreOp, now: string)
    ensures StoredAll(redisAvailable, st, ops + [op], now)
         == Stored(redisAvailable, StoredAll(redisAvailable, st, ops, now), op.metricsType, op.data, now)
  {
    assert (ops + [op])[..|ops|] == ops;
  }

  /** Stores in two batches are the stores of both, one batch after the other. */
  lemma {:induction false} StoredAllAppend(redisAvailable: bool, st: StoreState, a: seq<StoreOp>, b: seq<StoreOp>, now: string)
    ensures StoredAll(redisAvailable, st, a + b, now)
         == StoredAll(redisAvailable, StoredAll(redisAvailable, st, a, now), b, now)
    decreases |b|
  {
    if b == [] {
      assert a + b == a;
    } else {
      var b' := b[..|b| - 1];
      var op := b[|b| - 1];
      assert a + b == (a + b') + [op];
      assert b == b' + [op];
      StoredAllSnoc(redisAvailable, st, a + b', op, now);
      StoredAllAppend(redisAvailable, st, a, b', now);
      StoredAllSnoc(redisAvailable, StoredAll(redisAvailable, st, a, now), b', op, now);
    }
  }

  /** The store, if any, that one listed container gives rise to. */
  function ContainerStore(c: Listed, now: string): (r: seq<StoreOp>)
    ensures |r| <= 1
    ensures r != [] <==> c.stats.Some? && Derive(c.stats.value, now).Some?
    ensures r != [] ==>
      && r[0].metricsType == "container:" + c.id && Tagged(r[0])
      && r[0].data.ContainerData? && r[0].data.container.containerId == Some(c.id)
  {
    var d := if c.stats.Some? then Derive(c.stats.value, now) else None;
    if d.Some? then [StoreOp("container:" + c.id, ContainerData(d.value.(containerId := Some(c.id))))] else []
  }

  /** The body of the loop over `containers.list()`: collect, and store only a non-empty
      result, tagged with the container's id. */
  method StoreOneContainer(collector: MetricsCollector, c: Listed, now: string)
    requires collector.Valid()
    modifies collector, collector.redis
    ensures collector.Valid()
    ensures collector.State() == StoredAll(collector.redisAvailable, old(collector.State()), ContainerStore(c, now), now)
  {
    var m := CollectContainerMetrics(true, c.stats, now);
    if m.Some? {
      var tagged := m.value.(containerId := Some(c.id));
      collector.StoreMetrics("container:" + c.id, ContainerData(tagged), now);
      assert ContainerStore(c, now) == [StoreOp("container:" + c.id, ContainerData(tagged))];
      assert ContainerStore(c, now)[..0] == [];
    }
  }

  /** The container half of a cycle: the loop over `containers.list()`. */
  method StoreContainerMetrics(collector: MetricsCollector, cs: seq<Listed>, now: string)
    requires collector.Valid()
    modifies collector, collector.redis
    ensures collector.Valid()
    ensures collector.State() == StoredAll(collector.redisAvailable, old(collector.State()), ContainerStores(cs, now), now)
  {
    ghost var st0 := collector.State();
    var ra := collector.redisAvailable;
    for i := 0 to |cs|
      invariant collector.Valid()
      invariant collector.State() == StoredAll(ra, st0, ContainerStores(cs[..i], now), now)
    {
      ContainerStoresStep(cs, i, now);
      StoredAllAppend(ra, st0, ContainerStores(cs[..i], now), ContainerStore(cs[i], now), now);
      StoreOneContainer(collector, cs[i], now);
    }
    assert cs[..|cs|] == cs;
  }

  /** One cycle of `collect_metrics_background`: store the host sample if non-empty, then,
      when the runtime is available, the non-empty, id-tagged metrics of every running
      container. Returns the pause before the next cycle: 5 seconds, or 10 when listing the
      containers raised. */
  method CollectMetricsCycle(collector: MetricsCollector, system: Option<SystemMetrics>,
                             dockerAvailable: bool, running: Result<seq<Listed>>, now: string)
    returns (delay: nat)
    requires collector.Valid()
    modifies collector, collector.redis
    ensures collector.Valid()
    ensures collector.State()
      == StoredAll(collector.redisAvailable, old(collector.State()), CycleStores(system, dockerAvailable, running, now), now)
    ensures delay == if dockerAvailable && running.Failure? then 10 else 5
  {
    var ra := collector.redisAvailable;
    ghost var st0 := collector.State();
    ghost var sysOps := if system.Some? then [StoreOp("system", SystemData(system.value))] else [];
    if system.Some? {
      collector.StoreMetrics("system", SystemData(system.value), now);
      assert sysOps[..0] == [];
    }
    ghost var st1 := collector.State();
    assert st1 == StoredAll(ra, st0, sysOps, now);
    if !dockerAvailable || running.Failure? {
      assert CycleStores(system, dockerAvailable, running, now) == sysOps;
      return if dockerAvailable then 10 else 5;
    }
    StoreContainerMetrics(collector, running.value, now);
    StoredAllAppend(ra, st0, sysOps, ContainerStores(running.value, now), now);
    return 5;
  }

  class AdvancedContainerManager {
    const terminalManager: TerminalManager
    const metricsCollector: MetricsCollector

    constructor (redisAvailable: bool, redis: RedisClient)
      ensures fresh(terminalManager) && fresh(metricsCollector)
      ensures terminalManager.activeSessions == map[]
      ensures metricsCollector.Valid() && metricsCollector.metricsHistory == []
      ensures metricsCollector.redisAvailable == redisAvailable && metricsCollector.redis == redis
    {
      terminalManager := new TerminalManager();
      metricsCollector := new MetricsCollector(redisAvailable, redis);
    }

    /** `create_terminal_session`: hands over to the terminal manager. */
    method CreateTerminalSession(containerId: string, dockerAvailable: bool, status: Option<string>,
                                 exec: Option<string>, seconds: nat)
      returns (sessionId: Option<string>)
      modifies terminalManager
      ensures sessionId.Some? <==> dockerAvailable && status == Some("running") && exec.Some?
      ensures sessionId.None? ==> terminalManager.activeSessions == old(terminalManager.activeSessions)
      ensures sessionId.Some? ==>
        && sessionId.value == SessionId(containerId, seconds)
        && terminalManager.activeSessions
           == old(terminalManager.activeSessions)[sessionId.value := Session(containerId, exec.value, None)]
    {
      sessionId := terminalManager.CreateSession(containerId, dockerAvailable, status, exec, seconds);
    }

    /** `get_container_stats_history(container_id)`: under Redis the whole list for
        `metrics:container:<id>`, newest first, or nothing when the read raises
        (`redisReachable` false); otherwise the in-memory entries whose top-level
        `container_id` is the id, which no entry has, so nothing. */
    method GetContainerStatsHistory(containerId: string, redisReachable: bool) returns (r: HistoryView)
      ensures metricsCollector.redisAvailable && redisReachable ==>
        r == RedisItems(ListAt(metricsCollector.redis.lists, "metrics:container:" + containerId))
      ensures metricsCollector.redisAvailable && !redisReachable ==> r == RedisItems([])
      ensures !metricsCollector.redisAvailable ==>
        r == MemoryEntries(HistoryAsWritten(metricsCollector.metricsHistory, containerId))
      ensures !metricsCollector.redisAvailable ==> r == MemoryEntries([])
    {
      if metricsCollector.redisAvailable {
        if !redisReachable {
          return RedisItems([]);
        }
        var items := metricsCollector.redis.LRangeAll("metrics:container:" + containerId);
        return RedisItems(items);
      }
      HistoryAsWrittenIsEmpty(metricsCollector.metricsHistory, containerId);
      return MemoryEntries(HistoryAsWritten(metricsCollector.metricsHistory, containerId));
    }

    /** The same read with the in-memory filter applied to the record's `container_id`,
        where the background loop puts it: the container's entries, oldest first. */
    method GetContainerStatsHistoryCorrected(containerId: string, redisReachable: bool) returns (r: HistoryView)
      ensures metricsCollector.redisAvailable && redisReachable ==>
        r == RedisItems(ListAt(metricsCollector.redis.lists, "metrics:container:" + containerId))
      ensures metricsCollector.redisAvailable && !redisReachable ==> r == RedisItems([])
      ensures !metricsCollector.redisAvailable ==>
        r.MemoryEntries? && forall e :: e in r.entries <==> e in metricsCollector.metricsHistory && EntryFor(e, containerId)
      ensures !metricsCollector.redisAvailable ==>
        r == MemoryEntries(HistoryFor(metricsCollector.metricsHistory, containerId))
    {
      if metricsCollector.redisAvailable {
        if !redisReachable {
          return RedisItems([]);
        }
        var items := metricsCollector.redis.LRangeAll("metrics:container:" + containerId);
        return RedisItems(items);
      }
      return MemoryEntries(HistoryFor(metricsCollector.metricsHistory, containerId));
    }
  }
}
