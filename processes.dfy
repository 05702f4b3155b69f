/** The process table of a container (advanced_manager.py,
    AdvancedContainerManager.get_container_processes): each row of `container.top()` is
    zipped with the column titles and six columns are picked out, with defaults. */
module Processes {
  import opened Wrappers

  /** What `container.top()` returns: the `Titles` and `Processes` keys, either of which may
      be missing. */
  datatype TopOutput = TopOutput(titles: Option<seq<string>>, processes: Option<seq<seq<string>>>)

  datatype ProcessInfo = ProcessInfo(pid: string, user: string, time: string, command: string,
                                     cpu: string, memory: string)

  /** `dict(zip(headers, row)).get(key, default)`: zip stops at the shorter list and a later
      duplicate title overrides an earlier one. */
  function ZipGet(headers: seq<string>, row: seq<string>, key: string, default: string): (r: string)
    ensures r == default || exists i :: 0 <= i < |headers| && i < |row| && headers[i] == key && row[i] == r
    decreases |headers|
  {
    var n := if |headers| <= |row| then |headers| else |row|;
    if n == 0 then default
    else if headers[n - 1] == key then row[n - 1]
    else ZipGet(headers[..n - 1], row[..n - 1], key, default)
  }

  /** A title that occurs nowhere among the zipped columns gives the default. */
  lemma {:induction false} ZipGetMissing(headers: seq<string>, row: seq<string>, key: string, default: string)
    requires forall i :: 0 <= i < |headers| && i < |row| ==> headers[i] != key
    ensures ZipGet(headers, row, key, default) == default
    decreases |headers|
  {
    var n := if |headers| <= |row| then |headers| else |row|;
    if n > 0 {
      ZipGetMissing(headers[..n - 1], row[..n - 1], key, default);
    }
  }

  /** The value under a title is the row's cell at the title's last zipped position. */
  lemma {:induction false} ZipGetFound(headers: seq<string>, row: seq<string>, key: string, default: string, k: nat)
    requires k < |headers| && k < |row| && headers[k] == key
    requires forall j :: k < j < |headers| && j < |row| ==> headers[j] != key
    ensures ZipGet(headers, row, key, default) == row[k]
    decreases |headers|
  {
    var n := if |headers| <= |row| then |headers| else |row|;
    if n - 1 != k {
      ZipGetFound(headers[..n - 1], row[..n - 1], key, default, k);
    }
  }

  /** The record built for one process row. */
  function RowInfo(headers: seq<string>, row: seq<string>): (p: ProcessInfo)
    ensures p.pid == "" || p.pid in row
    ensures p.user == "" || p.user in row
    ensures p.time == "" || p.time in row
    ensures p.command == "" || p.command in row
    ensures p.cpu == "0.0" || p.cpu in row
    ensures p.memory == "0.0" || p.memory in row
  {
    ProcessInfo(ZipGet(headers, row, "PID", ""), ZipGet(headers, row, "USER", ""),
                ZipGet(headers, row, "TIME", ""), ZipGet(headers, row, "COMMAND", ""),
                ZipGet(headers, row, "%CPU", "0.0"), ZipGet(headers, row, "%MEM", "0.0"))
  }

  /** With the usual `ps -ef` titles, a row's cells become its fields and the columns ps does
      not print get their defaults. */
  lemma PsEfRow(uid: string, pid: string, ppid: string, c: string, stime: string, tty: string,
                time: string, cmd: string)
    ensures RowInfo(["UID", "PID", "PPID", "C", "STIME", "TTY", "TIME", "CMD"],
                    [uid, pid, ppid, c, stime, tty, time, cmd])
         == ProcessInfo(pid, "", time, "", "0.0", "0.0")
  {
    var h := ["UID", "PID", "PPID", "C", "STIME", "TTY", "TIME", "CMD"];
    var r := [uid, pid, ppid, c, stime, tty, time, cmd];
    ZipGetFound(h, r, "PID", "", 1);
    ZipGetFound(h, r, "TIME", "", 6);
    ZipGetMissing(h, r, "USER", "");
    ZipGetMissing(h, r, "COMMAND", "");
    ZipGetMissing(h, r, "%CPU", "0.0");
    ZipGetMissing(h, r, "%MEM", "0.0");
  }

  /** `get_container_processes(container_id)`: `dockerAvailable` is the module-wide flag,
      `status` the container's status (None when the lookup raised), `top` the result of
      `container.top()` (None when it raised). Every failure gives the empty list. */
  method GetContainerProcesses(dockerAvailable: bool, status: Option<string>, top: Option<TopOutput>)
    returns (ps: seq<ProcessInfo>)
    ensures !dockerAvailable || status != Some("running") || top.None? ==> ps == []
    ensures top.Some? && (top.value.processes.None? || top.value.titles.None?) ==> ps == []
    ensures dockerAvailable && status == Some("running") && top.Some?
            && top.value.processes.Some? && top.value.titles.Some? ==>
      var rows := top.value.processes.value;
      && |ps| == |rows|
      && forall i :: 0 <= i < |rows| ==> ps[i] == RowInfo(top.value.titles.value, rows[i])
  {
    ps := [];
    if !dockerAvailable || status != Some("running") || top.None? {
      return;
    }
    var t := top.value;
    if t.processes.Some? {
      if t.titles.None? {
        // `top['Titles']` raises KeyError, which the method turns into [].
        return [];
      }
      var headers := t.titles.value;
      var rows := t.processes.value;
      for i := 0 to |rows|
        invariant |ps| == i
        invariant forall j :: 0 <= j < i ==> ps[j] == RowInfo(headers, rows[j])
      {
        ps := ps + [RowInfo(headers, rows[i])];
      }
    }
  }
}
