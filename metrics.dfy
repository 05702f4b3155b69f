/** Per-container metric derivation: one raw stats snapshot from the container runtime
    becomes one metric record (advanced_manager.py, MetricsCollector). */
module Metrics {
  import opened Wrappers

  /** One interface's entry of `stats['networks']`. */
  datatype Interface = Interface(name: string, rxBytes: int, txBytes: int)

  datatype BlkioStats = BlkioStats(readBytes: int, writeBytes: int)

  /** The fields of a `container.stats(stream=False)` snapshot that the derivation reads.
      `percpuUsage` and `networks` are None when the runtime omitted those keys; `blkio`
      is None when the snapshot has no `blkio_stats`. */
  datatype ContainerStats = ContainerStats(
    cpuTotalUsage: int,
    precpuTotalUsage: int,
    systemCpuUsage: int,
    presystemCpuUsage: int,
    percpuUsage: Option<seq<int>>,
    memoryUsage: int,
    memoryLimit: int,
    networks: Option<seq<Interface>>,
    blkio: Option<BlkioStats>)

  /** The record `collect_container_metrics` returns; `containerId` is the key the background
      loop adds before storing (None as derived). Percentages are exact, before rounding. */
  datatype ContainerMetrics = ContainerMetrics(
    timestamp: string,
    cpuPercent: real,
    memoryPercent: real,
    memoryUsage: int,
    memoryLimit: int,
    networkRx: int,
    networkTx: int,
    blockRead: int,
    blockWrite: int,
    containerId: Option<string>)

  /** The record `collect_system_metrics` returns; its values come from the host and are
      taken as given. */
  datatype SystemMetrics = SystemMetrics(
    timestamp: string,
    cpuPercent: real,
    memoryPercent: real,
    diskUsage: real,
    networkIo: seq<(string, int)>,
    loadAverage: seq<real>)

  /** What one `store_metrics` call stores as `data`. */
  datatype MetricData = SystemData(system: SystemMetrics) | ContainerData(container: ContainerMetrics)

  function CpuDelta(s: ContainerStats): int {
    s.cpuTotalUsage - s.precpuTotalUsage
  }

  function SystemDelta(s: ContainerStats): int {
    s.systemCpuUsage - s.presystemCpuUsage
  }

  /** The snapshot makes the derivation raise: `percpu_usage` is read only when the CPU
      formula is reached, `networks` always. */
  predicate Raises(s: ContainerStats) {
    (s.cpuTotalUsage > 0 && SystemDelta(s) > 0 && s.percpuUsage.None?) || s.networks.None?
  }

  /** The guarded two-point CPU formula. */
  function CpuPercent(s: ContainerStats): real
    requires !Raises(s)
  {
    if s.cpuTotalUsage > 0 && SystemDelta(s) > 0
    then (CpuDelta(s) as real / SystemDelta(s) as real) * |s.percpuUsage.value| as real * 100.0
    else 0.0
  }

  function MemoryPercent(s: ContainerStats): real {
    if s.memoryLimit > 0 then (s.memoryUsage as real / s.memoryLimit as real) * 100.0 else 0.0
  }

  /** Sum of `rx_bytes` over the interfaces, in iteration order. */
  function SumRx(ifs: seq<Interface>): int {
    if ifs == [] then 0 else SumRx(ifs[..|ifs| - 1]) + ifs[|ifs| - 1].rxBytes
  }

  function SumTx(ifs: seq<Interface>): int {
    if ifs == [] then 0 else SumTx(ifs[..|ifs| - 1]) + ifs[|ifs| - 1].txBytes
  }

  /** The record derived from a snapshot, or None when the derivation raises. */
  function Derive(s: ContainerStats, now: string): (r: Option<ContainerMetrics>)
    ensures r.None? <==> Raises(s)
    ensures r.Some? ==> var m := r.value;
      && m.timestamp == now && m.containerId.None?
      && m.memoryUsage == s.memoryUsage && m.memoryLimit == s.memoryLimit
      && (s.cpuTotalUsage <= 0 || SystemDelta(s) <= 0 ==> m.cpuPercent == 0.0)
      && (s.memoryLimit <= 0 ==> m.memoryPercent == 0.0)
      && (s.blkio.None? ==> m.blockRead == 0 && m.blockWrite == 0)
  {
    if Raises(s) then None
    else Some(ContainerMetrics(
      now, CpuPercent(s), MemoryPercent(s), s.memoryUsage, s.memoryLimit,
      SumRx(s.networks.value), SumTx(s.networks.value),
      if s.blkio.Some? then s.blkio.value.readBytes else 0,
      if s.blkio.Some? then s.blkio.value.writeBytes else 0,
      None))
  }

  /** `collect_container_metrics`: `dockerAvailable` is the module-wide availability flag and
      `snapshot` is None when looking the container up or fetching its stats raised.
      None stands for the empty dict the source returns on every failure. */
  method CollectContainerMetrics(dockerAvailable: bool, snapshot: Option<ContainerStats>, now: string)
    returns (r: Option<ContainerMetrics>)
    ensures r.Some? <==> dockerAvailable && snapshot.Some? && !Raises(snapshot.value)
    ensures r.Some? ==> var s := snapshot.value; var m := r.value;
      && m.timestamp == now
      && (s.cpuTotalUsage <= 0 || SystemDelta(s) <= 0 ==> m.cpuPercent == 0.0)
      && (s.cpuTotalUsage > 0 && SystemDelta(s) > 0 ==>
            m.cpuPercent == (CpuDelta(s) as real / SystemDelta(s) as real) * |s.percpuUsage.value| as real * 100.0)
      && (s.memoryLimit <= 0 ==> m.memoryPercent == 0.0)
      && (s.memoryLimit > 0 ==> m.memoryPercent == (s.memoryUsage as real / s.memoryLimit as real) * 100.0)
      && m.memoryUsage == s.memoryUsage && m.memoryLimit == s.memoryLimit
      && m.networkRx == SumRx(s.networks.value) && m.networkTx == SumTx(s.networks.value)
      && (s.blkio.None? ==> m.blockRead == 0 && m.blockWrite == 0)
      && (s.blkio.Some? ==> m.blockRead == s.blkio.value.readBytes && m.blockWrite == s.blkio.value.writeBytes)
      && m.containerId.None?
    ensures dockerAvailable && snapshot.Some? ==> r == Derive(snapshot.value, now)
  {
    if !dockerAvailable || snapshot.None? {
      return None;
    }
    var s := snapshot.value;

    var cpuUsage := 0.0;
    if s.cpuTotalUsage > 0 {
      var cpuDelta := s.cpuTotalUsage - s.precpuTotalUsage;
      var systemDelta := s.systemCpuUsage - s.presystemCpuUsage;
      if systemDelta > 0 {
        if s.percpuUsage.None? {
          return None;
        }
        cpuUsage := (cpuDelta as real / systemDelta as real) * |s.percpuUsage.value| as real * 100.0;
      }
    }

    var memoryUsage := 0.0;
    if s.memoryLimit > 0 {
      memoryUsage := (s.memoryUsage as real / s.memoryLimit as real) * 100.0;
    }

    if s.networks.None? {
      return None;
    }
    var ifs := s.networks.value;
    var networkRx, networkTx := 0, 0;
    for i := 0 to |ifs|
      invariant networkRx == SumRx(ifs[..i])
      invariant networkTx == SumTx(ifs[..i])
    {
      assert ifs[..i + 1][..i] == ifs[..i];
      networkRx := networkRx + ifs[i].rxBytes;
      networkTx := networkTx + ifs[i].txBytes;
    }
    assert ifs[..|ifs|] == ifs;

    r := Some(ContainerMetrics(
      now, cpuUsage, memoryUsage, s.memoryUsage, s.memoryLimit, networkRx, networkTx,
      if s.blkio.Some? then s.blkio.value.readBytes else 0,
      if s.blkio.Some? then s.blkio.value.writeBytes else 0,
      None));
  }

  /** Traffic splits over a partition of the interfaces. */
  lemma {:induction false} SumAppend(a: seq<Interface>, b: seq<Interface>)
    ensures SumRx(a + b) == SumRx(a) + SumRx(b)
    ensures SumTx(a + b) == SumTx(a) + SumTx(b)
    decreases |b|
  {
    if b == [] {
      assert a + b == a;
    } else {
      var b' := b[..|b| - 1];
      assert (a + b)[..|a + b| - 1] == a + b';
      SumAppend(a, b');
    }
  }

  /** Taking out the interface at position `k` takes out exactly its traffic. */
  lemma {:induction false} SumRemove(b: seq<Interface>, k: nat)
    requires k < |b|
    ensures SumRx(b) == SumRx(b[..k] + b[k + 1..]) + b[k].rxBytes
    ensures SumTx(b) == SumTx(b[..k] + b[k + 1..]) + b[k].txBytes
  {
    var pre, x, post := b[..k], [b[k]], b[k + 1..];
    assert b == pre + (x + post);
    SumAppend(pre, x + post);
    SumAppend(x, post);
    SumAppend(pre, post);
    assert x[..0] == [];
  }

  /** The totals do not depend on the order in which the interfaces are reported. */
  lemma {:induction false} SumOrderIndependent(a: seq<Interface>, b: seq<Interface>)
    requires multiset(a) == multiset(b)
    ensures SumRx(a) == SumRx(b) && SumTx(a) == SumTx(b)
    decreases |a|
  {
    if a == [] {
      assert |b| == |multiset(b)| == 0;
    } else {
      var x := a[|a| - 1];
      var a' := a[..|a| - 1];
      assert a == a' + [x];
      assert x in multiset(b);
      var k :| 0 <= k < |b| && b[k] == x;
      var b' := b[..k] + b[k + 1..];
      assert b == b[..k] + [x] + b[k + 1..];
      assert multiset(b') == multiset(b) - multiset{x};
      SumRemove(b, k);
      SumOrderIndependent(a', b');
    }
  }

  /** Traffic counters are byte counts: non-negative per interface gives non-negative totals
      that bound every single interface. */
  lemma {:induction false} SumBounds(ifs: seq<Interface>, k: nat)
    requires forall i :: 0 <= i < |ifs| ==> ifs[i].rxBytes >= 0 && ifs[i].txBytes >= 0
    requires k < |ifs|
    ensures ifs[k].rxBytes <= SumRx(ifs) && ifs[k].txBytes <= SumTx(ifs)
    decreases |ifs|
  {
    var last := |ifs| - 1;
    SumNonNegative(ifs[..last]);
    if k < last {
      SumBounds(ifs[..last], k);
    }
  }

  lemma {:induction false} SumNonNegative(ifs: seq<Interface>)
    requires forall i :: 0 <= i < |ifs| ==> ifs[i].rxBytes >= 0 && ifs[i].txBytes >= 0
    ensures SumRx(ifs) >= 0 && SumTx(ifs) >= 0
    decreases |ifs|
  {
    if ifs != [] {
      SumNonNegative(ifs[..|ifs| - 1]);
    }
  }

  /** When the container's usage grew by no more than the whole system's, the CPU percentage
      lies between 0 and 100 times the number of cores. */
  lemma CpuPercentBounds(s: ContainerStats)
    requires !Raises(s)
    requires 0 <= CpuDelta(s) <= SystemDelta(s)
    ensures 0.0 <= CpuPercent(s)
    ensures s.percpuUsage.Some? ==> CpuPercent(s) <= |s.percpuUsage.value| as real * 100.0
  {
    if s.cpuTotalUsage > 0 && SystemDelta(s) > 0 {
      var f := CpuDelta(s) as real / SystemDelta(s) as real;
      var n := |s.percpuUsage.value| as real;
      FractionBounds(CpuDelta(s) as real, SystemDelta(s) as real);
      ScaleBounds(f, n);
      var p := f * n;
      assert CpuPercent(s) == p * 100.0;
    }
  }

  lemma ScaleBounds(f: real, n: real)
    requires 0.0 <= f <= 1.0 && 0.0 <= n
    ensures 0.0 <= f * n <= n
  {
  }

  lemma FractionBounds(a: real, b: real)
    requires 0.0 <= a <= b && b > 0.0
    ensures 0.0 <= a / b <= 1.0
  {
  }

  /** Usage within the limit gives a percentage between 0 and 100. */
  lemma MemoryPercentBounds(s: ContainerStats)
    requires 0 <= s.memoryUsage <= s.memoryLimit
    ensures 0.0 <= MemoryPercent(s) <= 100.0
  {
    if s.memoryLimit > 0 {
      FractionBounds(s.memoryUsage as real, s.memoryLimit as real);
    }
  }

  /** Usage going from 1000 to 1400 while the system goes from 10000 to 11000 on 4 cores is
      160 percent; 256 MiB of a 512 MiB limit is 50 percent. */
  lemma CpuAndMemoryScenario()
    ensures var s := ContainerStats(1400, 1000, 11000, 10000, Some([0, 0, 0, 0]),
                                    268435456, 536870912, Some([]), None);
      && !Raises(s) && CpuPercent(s) == 160.0 && MemoryPercent(s) == 50.0
  {
    var s := ContainerStats(1400, 1000, 11000, 10000, Some([0, 0, 0, 0]),
                            268435456, 536870912, Some([]), None);
    assert CpuDelta(s) == 400 && SystemDelta(s) == 1000;
    assert (400 as real / 1000 as real) == 0.4;
    assert (268435456 as real / 536870912 as real) == 0.5;
  }
}
