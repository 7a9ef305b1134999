/** Starting the agents: go_agent's bounded fork retry, and main's loop that
    starts the agents and keeps the pids of those that started in a compact
    prefix of its `process` array. */
module Spawning {
  import opened AgentConfig

  /** What go_agent reports to main: the pid of the started child, or that
      every fork attempt failed. */
  datatype Spawn = Started(pid: int) | Unspawnable

  /** The first fork attempt that did not fail, over the outcomes fork gives
      on successive attempts (a negative number is a failure, otherwise the
      child's pid as the parent sees it). */
  function FirstFork(attempts: seq<int>): Spawn {
    if attempts == [] then Unspawnable
    else if attempts[0] >= 0 then Started(attempts[0])
    else FirstFork(attempts[1..])
  }

  /** go_agent's fork loop: fork is tried until it succeeds, at most RETRY
      times in all. */
  method ForkWithRetry(attempts: seq<int>) returns (r: Spawn, tries: nat)
    requires |attempts| == RETRY
    requires forall j :: 0 <= j < |attempts| ==> attempts[j] != 0
    ensures r == FirstFork(attempts)
    ensures 1 <= tries <= RETRY
    ensures forall j :: 0 <= j < tries - 1 ==> attempts[j] < 0
    ensures r.Started? ==> r.pid == attempts[tries - 1] && r.pid > 0
    ensures r.Unspawnable? <==> forall j :: 0 <= j < |attempts| ==> attempts[j] < 0
    ensures r.Unspawnable? ==> tries == RETRY
  {
    var retry := 0;
    var pid := attempts[0];
    while pid < 0 && retry + 1 < RETRY
      invariant 0 <= retry < RETRY && pid == attempts[retry]
      invariant forall j :: 0 <= j < retry ==> attempts[j] < 0
      invariant FirstFork(attempts) == FirstFork(attempts[retry..])
      decreases RETRY - retry
    {
      assert attempts[retry..][1..] == attempts[retry + 1..];
      retry := retry + 1;
      pid := attempts[retry];
    }
    tries := retry + 1;
    if pid >= 0 {
      r := Started(pid);
    } else {
      assert attempts[retry..] == [pid];
      r := Unspawnable;
    }
  }

  /** The go_agent outcome of each call main makes, one attempt stream per call. */
  function Outcomes(forks: seq<seq<int>>): (os: seq<Spawn>)
    ensures |os| == |forks|
  {
    seq(|forks|, i requires 0 <= i < |forks| => FirstFork(forks[i]))
  }

  /** The pids of the agents started by the first `i` calls, in start order. */
  function StartedBefore(os: seq<Spawn>, i: nat): (pids: seq<int>)
    requires i <= |os|
    ensures |pids| <= i
  {
    if i == 0 then []
    else StartedBefore(os, i - 1) + (if os[i - 1].Started? then [os[i - 1].pid] else [])
  }

  /** The pids of all started agents, in the order they were started. */
  function StartedPids(os: seq<Spawn>): (pids: seq<int>)
    ensures |pids| <= |os|
  {
    StartedBefore(os, |os|)
  }

  /** go_agent's return value as the code computes it: the pid of a started
      child and the failure value ERROR share one int. */
  function ReturnAsWritten(r: Spawn): int {
    if r.Unspawnable? then ERROR else r.pid
  }

  /** The pids main keeps as written after the first `i` calls: every return
      value that differs from ERROR. */
  function KeptBefore(os: seq<Spawn>, i: nat): (pids: seq<int>)
    requires i <= |os|
    ensures forall j :: 0 <= j < |pids| ==> pids[j] != ERROR
  {
    if i == 0 then []
    else
      var v := ReturnAsWritten(os[i - 1]);
      KeptBefore(os, i - 1) + (if v != ERROR then [v] else [])
  }

  /** Two calls, the first starting a child whose pid happens to be 999999
      and the second a child with pid 42. As written, the first is taken for
      a failed spawn: only one of the two running children is kept (so main
      waits for one and audits one log), and the second call is handed name
      index 0, the running first child's name, where the corrected loop
      hands it index 1. */
  lemma SentinelPidDropped()
    ensures var os := Outcomes([[ERROR], [42]]);
            && StartedPids(os) == [ERROR, 42]
            && KeptBefore(os, |os|) == [42]
            && |KeptBefore(os, 1)| == 0
            && |StartedBefore(os, 1)| == 1
  {
    var os := Outcomes([[ERROR], [42]]);
    assert os[0] == Started(ERROR) && os[1] == Started(42);
    assert StartedBefore(os, 1) == StartedBefore(os, 0) + [ERROR];
    assert StartedBefore(os, 2) == StartedBefore(os, 1) + [42];
    assert KeptBefore(os, 2) == KeptBefore(os, 1) + [42];
  }

  /** Away from that one pid, the code as written keeps exactly the started
      agents. */
  lemma {:induction false} AsWrittenAgrees(os: seq<Spawn>, i: nat)
    requires i <= |os|
    requires forall j :: 0 <= j < i ==> os[j] != Started(ERROR)
    ensures KeptBefore(os, i) == StartedBefore(os, i)
  {
    if i > 0 {
      AsWrittenAgrees(os, i - 1);
    }
  }

  /** main's spawn loop (agent.c:89-95): one go_agent call per requested
      agent, the i-th with fork outcomes `forks[i]`. `handed[i]` is the index
      into AGENTS of the name the i-th call receives: the next agent not yet
      started, so a failed call's name goes to the next call. `p` counts the
      started agents and `process[..p]` holds their pids in order, so the
      child of each call that started sits at the slot of its name. */
  method SpawnAgents(numAgents: nat, forks: seq<seq<int>>, process: array<int>) returns (p: nat, handed: seq<nat>)
    requires 1 <= numAgents <= MAX_AGENTS && |forks| == numAgents
    requires forall i :: 0 <= i < |forks| ==> |forks[i]| == RETRY
    requires forall i, j :: 0 <= i < |forks| && 0 <= j < |forks[i]| ==> forks[i][j] != 0
    requires process.Length == MAX_AGENTS
    modifies process
    ensures p == |StartedPids(Outcomes(forks))| && p <= numAgents
    ensures process[..p] == StartedPids(Outcomes(forks))
    ensures |handed| == numAgents
    ensures forall i :: 0 <= i < numAgents ==> handed[i] == |StartedBefore(Outcomes(forks), i)| <= i
    ensures forall i :: 0 <= i < numAgents && Outcomes(forks)[i].Started? ==>
              handed[i] < p && process[handed[i]] == Outcomes(forks)[i].pid
  {
    p, handed := StartEach(numAgents, forks, process);
    var os := Outcomes(forks);
    SlotsHanded(os, numAgents, process[..p], handed);
    forall i | 0 <= i < numAgents && os[i].Started?
      ensures handed[i] < p && process[handed[i]] == os[i].pid
    {
      assert process[handed[i]] == process[..p][handed[i]];
    }
  }

  /** The loop of SpawnAgents, call by call. */
  method StartEach(numAgents: nat, forks: seq<seq<int>>, process: array<int>) returns (p: nat, handed: seq<nat>)
    requires 1 <= numAgents <= MAX_AGENTS && |forks| == numAgents
    requires forall i :: 0 <= i < |forks| ==> |forks[i]| == RETRY
    requires forall i, j :: 0 <= i < |forks| && 0 <= j < |forks[i]| ==> forks[i][j] != 0
    requires process.Length == MAX_AGENTS
    modifies process
    ensures p == |StartedPids(Outcomes(forks))| && p <= numAgents
    ensures process[..p] == StartedPids(Outcomes(forks))
    ensures |handed| == numAgents
    ensures forall i :: 0 <= i < numAgents ==> handed[i] == |StartedBefore(Outcomes(forks), i)| <= i
  {
    var os := Outcomes(forks);
    var i := 0;
    var q: nat := 0;
    handed := [];
    while i < numAgents
      invariant 0 <= i <= numAgents
      invariant q == |StartedBefore(os, i)| && q <= i
      invariant process[..q] == StartedBefore(os, i)
      invariant |handed| == i
      invariant handed == HandedBefore(os, i)
    {
      var r, tries := ForkWithRetry(forks[i]);
      handed := handed + [q];
      ghost var kept := process[..q];
      process[q] := ReturnAsWritten(r);
      assert process[..q] == kept;
      if r.Started? {
        assert process[..q + 1] == kept + [r.pid];
        q := q + 1;
      }
      i := i + 1;
    }
    HandedAt(os, numAgents);
    p := q;
  }

  /** The indices of the names the first `i` calls receive. */
  function HandedBefore(os: seq<Spawn>, i: nat): (ks: seq<nat>)
    requires i <= |os|
    ensures |ks| == i
  {
    if i == 0 then [] else HandedBefore(os, i - 1) + [|StartedBefore(os, i - 1)|]
  }

  lemma {:induction false} HandedAt(os: seq<Spawn>, i: nat)
    requires i <= |os|
    ensures forall j :: 0 <= j < i ==> HandedBefore(os, i)[j] == |StartedBefore(os, j)| <= j
  {
    if i > 0 {
      HandedAt(os, i - 1);
    }
  }

  /** The child of a call that started sits at the slot of its name index. */
  lemma {:induction false} StartedSlots(os: seq<Spawn>, n: nat)
    requires n <= |os|
    ensures forall i :: 0 <= i < n && os[i].Started? ==>
              |StartedBefore(os, i)| < |StartedBefore(os, n)|
              && StartedBefore(os, n)[|StartedBefore(os, i)|] == os[i].pid
  {
    if n > 0 {
      StartedSlots(os, n - 1);
      var before := StartedBefore(os, n - 1);
      forall i | 0 <= i < n && os[i].Started?
        ensures |StartedBefore(os, i)| < |StartedBefore(os, n)|
        ensures StartedBefore(os, n)[|StartedBefore(os, i)|] == os[i].pid
      {
        if i < n - 1 {
          assert StartedBefore(os, n)[|StartedBefore(os, i)|] == before[|StartedBefore(os, i)|];
        }
      }
    }
  }

  /** The slots main fills, read through the name indices handed out. */
  lemma SlotsHanded(os: seq<Spawn>, n: nat, slots: seq<int>, handed: seq<nat>)
    requires n <= |os| && slots == StartedBefore(os, n) && |handed| == n
    requires forall i :: 0 <= i < n ==> handed[i] == |StartedBefore(os, i)|
    ensures forall i :: 0 <= i < n && os[i].Started? ==> handed[i] < |slots| && slots[handed[i]] == os[i].pid
  {
    StartedSlots(os, n);
  }
}
