/** Terminal session registry (advanced_manager.py, TerminalManager): a dictionary from
    session id to the container and exec instance the session talks to. */
module Terminal {
  import opened Wrappers
  import opened Text

  /** `{'container_id': ..., 'exec_id': ..., 'socket': None}`; the exec id is the runtime's
      handle, and no operation ever sets the socket. */
  datatype Session = Session(containerId: string, execId: string, socket: Option<string>)

  /** `f"{container_id}_{int(time.time())}"`. */
  function SessionId(containerId: string, seconds: nat): (id: string)
    ensures |id| > |containerId| + 1
    ensures id[..|containerId|] == containerId && id[|containerId|] == '_'
    ensures forall i :: |containerId| < i < |id| ==> IsDigit(id[i])
  {
    containerId + "_" + NatToString(seconds)
  }

  /** A session id determines the container and the second it was created in: the part
      after the last underscore is all digits. */
  lemma SessionIdInjective(c1: string, s1: nat, c2: string, s2: nat)
    requires SessionId(c1, s1) == SessionId(c2, s2)
    ensures c1 == c2 && s1 == s2
  {
    var d1, d2 := NatToString(s1), NatToString(s2);
    var id := SessionId(c1, s1);
    assert id == c1 + "_" + d1 == c2 + "_" + d2;
    // Both underscores are the last one: everything after either of them is a digit.
    assert id[|c1|] == '_' && id[|c2|] == '_';
    assert forall i :: |c1| < i < |id| ==> IsDigit(id[i]) by {
      forall i | |c1| < i < |id| ensures IsDigit(id[i]) {
        assert id[i] == d1[i - |c1| - 1];
      }
    }
    assert forall i :: |c2| < i < |id| ==> IsDigit(id[i]) by {
      forall i | |c2| < i < |id| ensures IsDigit(id[i]) {
        assert id[i] == d2[i - |c2| - 1];
      }
    }
    assert |c1| == |c2|;
    assert c1 == id[..|c1|] == c2;
    assert d1 == id[|c1| + 1..] == d2;
    NatToStringInjective(s1, s2);
  }

  class TerminalManager {
    var activeSessions: map<string, Session>

    constructor ()
      ensures activeSessions == map[]
    {
      activeSessions := map[];
    }

    /** `create_session(container_id)`. The runtime's answers are parameters:
        `dockerAvailable` is the module-wide flag, `status` is the container's status (None
        when looking it up raised), `exec` the handle `exec_create` returned (None when it
        raised) and `seconds` the value of `int(time.time())`. */
    method CreateSession(containerId: string, dockerAvailable: bool, status: Option<string>,
                         exec: Option<string>, seconds: nat)
      returns (sessionId: Option<string>)
      modifies this
      ensures sessionId.Some? <==> dockerAvailable && status == Some("running") && exec.Some?
      ensures sessionId.None? ==> activeSessions == old(activeSessions)
      ensures sessionId.Some? ==>
        && sessionId.value == SessionId(containerId, seconds)
        && activeSessions == old(activeSessions)[sessionId.value := Session(containerId, exec.value, None)]
    {
      if !dockerAvailable {
        return None;
      }
      if status != Some("running") {
        return None;
      }
      if exec.None? {
        return None;
      }
      var id := containerId + "_" + NatToString(seconds);
      activeSessions := activeSessions[id := Session(containerId, exec.value, None)];
      return Some(id);
    }

    /** `send_command(session_id, command)`. Starting the exec instance and writing the
        command to its socket is the oracle `delivered` (false when any of those calls
        raised). The registry is never changed. */
    method SendCommand(sessionId: string, command: string, delivered: bool) returns (ok: bool)
      ensures ok <==> sessionId in activeSessions && delivered
    {
      if sessionId !in activeSessions {
        return false;
      }
      ok := delivered;
    }
  }

  /** Two sessions created for one container within one second share an id, so the second
      replaces the first and only one remains registered; a command to it reaches the
      second exec instance. */
  method SameSecondCreatesCollide(containerId: string, exec1: string, exec2: string, seconds: nat)
    returns (first: Option<string>, second: Option<string>, registered: map<string, Session>)
    ensures first.Some? && first == second
    ensures registered == map[first.value := Session(containerId, exec2, None)]
  {
    var tm := new TerminalManager();
    first := tm.CreateSession(containerId, true, Some("running"), Some(exec1), seconds);
    second := tm.CreateSession(containerId, true, Some("running"), Some(exec2), seconds);
    registered := tm.activeSessions;
  }

  /** Sessions made in different seconds are kept side by side; a stopped container gets
      none; a command to a live session is accepted whenever it is delivered, and one to an
      unknown id never is. */
  method SessionLifecycle(containerId: string, exec1: string, exec2: string, s1: nat, s2: nat)
    returns (a: Option<string>, b: Option<string>, stopped: Option<string>, sent: bool, unknown: bool)
    requires s1 != s2
    ensures a.Some? && b.Some? && a != b
    ensures stopped.None?
    ensures sent
    ensures !unknown
  {
    var tm := new TerminalManager();
    a := tm.CreateSession(containerId, true, Some("running"), Some(exec1), s1);
    b := tm.CreateSession(containerId, true, Some("running"), Some(exec2), s2);
    if a == b {
      SessionIdInjective(containerId, s1, containerId, s2);
    }
    stopped := tm.CreateSession(containerId, true, Some("exited"), Some(exec1), s1);
    sent := tm.SendCommand(a.value, "ls\n", true);
    unknown := tm.SendCommand(containerId, "ls\n", true);
  }
}
