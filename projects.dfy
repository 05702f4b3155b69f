/** Project health aggregation (advanced_manager.py, AdvancedProjectManager.get_project_health):
    the containers whose name starts with the lower-cased project name are checked one by
    one and summarised as one overall status with a list of issues. */
module Projects {
  import opened Wrappers
  import opened Text

  /** A configured project; its settings play no part in the health check. */
  datatype Project = Project(repoUrl: string, branch: string)

  /** What `container.attrs['State']['Health']` yields: nothing (absent or empty), a
      health record whose `Status` and `FailingStreak` keys may be missing, or an error
      raised while reading it. */
  datatype HealthProbe = NoHealth | Health(status: Option<string>, failingStreak: Option<int>) | ProbeError

  /** One entry of `docker_client.containers.list(all=True)`. */
  datatype Container = Container(name: string, status: string, probe: HealthProbe)

  /** `{'name', 'status', 'health'}` plus `failing_streak` when a health record was read. */
  datatype ContainerHealth = ContainerHealth(name: string, status: string, health: string, failingStreak: Option<int>)

  datatype HealthStatus = HealthStatus(overall: string, containers: seq<ContainerHealth>, lastCheck: string, issues: seq<string>)

  /** The containers that belong to project `name`, in listing order. */
  function ProjectContainers(all: seq<Container>, name: string): (r: seq<Container>)
    ensures |r| <= |all|
    ensures forall c {:trigger c in r} :: c in r <==> c in all && StartsWith(c.name, Lower(name))
  {
    if all == [] then []
    else ProjectContainers(all[..|all| - 1], name)
         + (if StartsWith(all[|all| - 1].name, Lower(name)) then [all[|all| - 1]] else [])
  }

  /** Listing one more container adds it, last, exactly when it belongs to the project. */
  lemma ProjectContainersAppend(all: seq<Container>, x: Container, name: string)
    ensures ProjectContainers(all + [x], name)
      == ProjectContainers(all, name) + (if StartsWith(x.name, Lower(name)) then [x] else [])
  {
    assert (all + [x])[..|all + [x]| - 1] == all;
  }

  /** The filter distributes over concatenation, so it keeps listing order. */
  lemma {:induction false} ProjectContainersSplit(a: seq<Container>, b: seq<Container>, name: string)
    ensures ProjectContainers(a + b, name) == ProjectContainers(a, name) + ProjectContainers(b, name)
    decreases |b|
  {
    if b == [] {
      assert a + b == a;
    } else {
      var b' := b[..|b| - 1];
      var x := b[|b| - 1];
      var keep := if StartsWith(x.name, Lower(name)) then [x] else [];
      assert ProjectContainers(a + b, name) == ProjectContainers(a + b', name) + keep by {
        assert a + b == (a + b') + [x];
        ProjectContainersAppend(a + b', x, name);
      }
      assert ProjectContainers(b, name) == ProjectContainers(b', name) + keep by {
        assert b == b' + [x];
        ProjectContainersAppend(b', x, name);
      }
      ProjectContainersSplit(a, b', name);
    }
  }

  /** Each matching container is kept as many times as it is listed, and no other is kept. */
  lemma {:induction false} ProjectContainersCount(all: seq<Container>, name: string, c: Container)
    ensures multiset(ProjectContainers(all, name))[c]
      == if StartsWith(c.name, Lower(name)) then multiset(all)[c] else 0
    decreases |all|
  {
    if all != [] {
      var all' := all[..|all| - 1];
      ProjectContainersCount(all', name, c);
      assert all == all' + [all[|all| - 1]];
    }
  }

  /** The health record of one container: only a running container is probed, and it keeps
      `unknown` unless the probe returns a health record. */
  function HealthOf(c: Container): (h: ContainerHealth)
    ensures h.name == c.name && h.status == c.status
    ensures c.status != "running" ==> h.health == "unknown" && h.failingStreak.None?
    ensures h.failingStreak.Some? <==> c.status == "running" && c.probe.Health?
    ensures c.status == "running" && c.probe.NoHealth? ==> h.health == "unknown"
    ensures c.status == "running" && c.probe.Health? ==> h.health == c.probe.status.GetOr("unknown")
    ensures c.status == "running" && c.probe.Health? ==> h.failingStreak == Some(c.probe.failingStreak.GetOr(0))
    ensures c.status == "running" && c.probe.ProbeError? ==> h.health == "running"
  {
    var unknown := ContainerHealth(c.name, c.status, "unknown", None);
    if c.status != "running" then unknown
    else match c.probe
      case NoHealth => unknown
      case Health(s, f) => ContainerHealth(c.name, c.status, s.GetOr("unknown"), Some(f.GetOr(0)))
      case ProbeError => ContainerHealth(c.name, c.status, "running", None)
  }

  /** `[c for c in containers if c.get("health") == "unhealthy"]`. */
  function Unhealthy(cs: seq<ContainerHealth>): (r: seq<ContainerHealth>)
    ensures |r| <= |cs|
    ensures forall i :: 0 <= i < |r| ==> r[i].health == "unhealthy" && r[i] in cs
  {
    if cs == [] then []
    else Unhealthy(cs[..|cs| - 1]) + (if cs[|cs| - 1].health == "unhealthy" then [cs[|cs| - 1]] else [])
  }

  /** The unhealthy filter distributes over concatenation, so it keeps order. */
  lemma {:induction false} UnhealthySplit(a: seq<ContainerHealth>, b: seq<ContainerHealth>)
    ensures Unhealthy(a + b) == Unhealthy(a) + Unhealthy(b)
    decreases |b|
  {
    if b == [] {
      assert a + b == a;
    } else {
      var b' := b[..|b| - 1];
      UnhealthySplit(a, b');
      assert (a + b)[..|a + b| - 1] == a + b';
      assert (a + b)[|a + b| - 1] == b[|b| - 1];
    }
  }

  /** An unhealthy container is kept as many times as it occurs, and no other is kept. */
  lemma {:induction false} UnhealthyCount(cs: seq<ContainerHealth>, c: ContainerHealth)
    ensures multiset(Unhealthy(cs))[c] == if c.health == "unhealthy" then multiset(cs)[c] else 0
    decreases |cs|
  {
    if cs != [] {
      var cs' := cs[..|cs| - 1];
      UnhealthyCount(cs', c);
      assert cs == cs' + [cs[|cs| - 1]];
    }
  }

  lemma {:induction false} UnhealthyMembers(cs: seq<ContainerHealth>)
    ensures |Unhealthy(cs)| <= |cs|
    ensures forall c :: c in Unhealthy(cs) <==> c in cs && c.health == "unhealthy"
    ensures Unhealthy(cs) == [] <==> forall i :: 0 <= i < |cs| ==> cs[i].health != "unhealthy"
    decreases |cs|
  {
    if cs != [] {
      var cs' := cs[..|cs| - 1];
      UnhealthyMembers(cs');
      assert cs == cs' + [cs[|cs| - 1]];
      assert forall c :: c in cs <==> c in cs' || c == cs[|cs| - 1];
    }
  }

  function IssueText(name: string): string {
    "Container " + name + " is unhealthy"
  }

  /** One issue line per unhealthy container, in order. */
  function Issues(unhealthy: seq<ContainerHealth>): (r: seq<string>)
    ensures |r| == |unhealthy|
    ensures forall i :: 0 <= i < |r| ==> r[i] == IssueText(unhealthy[i].name)
  {
    if unhealthy == [] then [] else [IssueText(unhealthy[0].name)] + Issues(unhealthy[1..])
  }

  /** `get_project_health(name)`. `dockerAvailable` is the module-wide flag, `listing` the
      outcome of `containers.list(all=True)` (a failure carries `str(e)`), `now` the
      `last_check` timestamp. */
  method GetProjectHealth(projects: map<string, Project>, name: string, dockerAvailable: bool,
                          listing: Result<seq<Container>>, now: string)
    returns (r: Option<HealthStatus>)
    ensures r.None? <==> name !in projects
    ensures r.Some? ==> r.value.lastCheck == now
    ensures r.Some? && !dockerAvailable ==> r.value == HealthStatus("healthy", [], now, [])
    ensures r.Some? && dockerAvailable && listing.Failure? ==>
      r.value == HealthStatus("error", [], now, [listing.error])
    ensures r.Some? && dockerAvailable && listing.Success? ==>
      var pcs := ProjectContainers(listing.value, name);
      var hs := r.value;
      && |hs.containers| == |pcs|
      && (forall i :: 0 <= i < |pcs| ==> hs.containers[i] == HealthOf(pcs[i]))
      && (hs.overall == "no_containers" <==> pcs == [])
      && (hs.overall == "unhealthy" <==> exists i :: 0 <= i < |pcs| && hs.containers[i].health == "unhealthy")
      && (hs.overall == "healthy" <==> pcs != [] && forall i :: 0 <= i < |pcs| ==> hs.containers[i].health != "unhealthy")
      && hs.issues == Issues(Unhealthy(hs.containers))
  {
    if name !in projects {
      return None;
    }
    var status := HealthStatus("healthy", [], now, []);
    if dockerAvailable {
      if listing.Failure? {
        status := status.(overall := "error", issues := status.issues + [listing.error]);
      } else {
        var pcs := ProjectContainers(listing.value, name);
        var containers: seq<ContainerHealth> := [];
        for i := 0 to |pcs|
          invariant |containers| == i
          invariant forall j :: 0 <= j < i ==> containers[j] == HealthOf(pcs[j])
        {
          containers := containers + [HealthOf(pcs[i])];
        }
        status := status.(containers := containers);
        UnhealthyMembers(containers);
        if pcs == [] {
          status := status.(overall := "no_containers");
        } else {
          var unhealthy := Unhealthy(containers);
          if unhealthy != [] {
            status := status.(overall := "unhealthy", issues := Issues(unhealthy));
          }
        }
      }
    }
    return Some(status);
  }
}
