/** The pure parts of the agents program: clamping the requested number of
    agents, turning a raw random draw into an operation amount, and the sums
    the controller compares with the account. */
module Agent {
  import opened AgentConfig

  /** Number of agents actually created for a requested count: the request
      when it lies in [1, MAX_AGENTS], otherwise the default of one agent. */
  function ClampAgents(requested: int): (n: int)
    ensures 1 <= n <= MAX_AGENTS
    ensures 1 <= requested <= MAX_AGENTS ==> n == requested
    ensures requested < 1 || requested > MAX_AGENTS ==> n == 1
  {
    if requested < 1 || requested > MAX_AGENTS then 1 else requested
  }

  function Abs(x: int): nat {
    if x < 0 then -x else x
  }

  /** The amount an agent deposits (positive) or withdraws (negative) for a
      nonzero raw draw `r` of the random generator. Zero is never produced and
      the magnitude never exceeds `range`. All operands are positive, so C's
      truncating division and Dafny's Euclidean division agree here. */
  function GenRand(r: int, range: int): (v: int)
    requires r > 0 && range > 0
    ensures v != 0 && -range <= v <= range
    ensures Abs(v) == (r / 1117) % range + 1
    ensures v < 0 <==> (r / 1111) % 2 == 1
  {
    var sign := (r / 1111) % 2;
    var n := (r / 1117) % range + 1;
    if sign == 0 then n else 0 - n
  }

  /** Sum of the amounts in one log, accumulated front to back. */
  function Sum(log: seq<int>): int {
    if log == [] then 0 else Sum(log[..|log| - 1]) + log[|log| - 1]
  }

  lemma SumAppend(log: seq<int>, x: int)
    ensures Sum(log + [x]) == Sum(log) + x
  {
    assert (log + [x])[..|log|] == log;
  }

  /** What one log contributes to the controller's total: its sum, or 0 when
      the log file cannot be opened. */
  function Contribution(logs: map<string, seq<int>>, name: string, unreadable: set<string>): int {
    if name in logs && name !in unreadable then Sum(logs[name]) else 0
  }

  /** The sum of the logs of `names`, without the starting sum. */
  function LogsTotal(logs: map<string, seq<int>>, names: seq<string>, unreadable: set<string>): int {
    if names == [] then 0
    else LogsTotal(logs, names[..|names| - 1], unreadable)
         + Contribution(logs, names[|names| - 1], unreadable)
  }

  /** The balance the controller expects: the starting sum plus every logged
      amount of the agents in `names`. */
  function ControlSum(logs: map<string, seq<int>>, names: seq<string>, unreadable: set<string>): int {
    START_SUM + LogsTotal(logs, names, unreadable)
  }

  /** Appending to a log whose owner is not among `names` leaves their total alone. */
  lemma {:induction false} LogsTotalOther(logs: map<string, seq<int>>, names: seq<string>,
                                          unreadable: set<string>, who: string, entries: seq<int>)
    requires who !in names
    ensures LogsTotal(logs[who := entries], names, unreadable) == LogsTotal(logs, names, unreadable)
  {
    if names != [] {
      LogsTotalOther(logs, names[..|names| - 1], unreadable, who, entries);
    }
  }

  /** Whatever is in an unreadable log, it contributes nothing to the total. */
  lemma {:induction false} LogsTotalUnreadable(logs: map<string, seq<int>>, names: seq<string>,
                                               unreadable: set<string>, who: string, entries: seq<int>)
    requires who in unreadable
    ensures LogsTotal(logs[who := entries], names, unreadable) == LogsTotal(logs, names, unreadable)
  {
    if names != [] {
      LogsTotalUnreadable(logs, names[..|names| - 1], unreadable, who, entries);
    }
  }

  /** Appending `x` to the readable log of an agent that occurs exactly once in
      `names` raises the total by exactly `x`. */
  lemma {:induction false} LogsTotalAppend(logs: map<string, seq<int>>, names: seq<string>,
                                           unreadable: set<string>, who: string, x: int)
    requires who in logs && who !in unreadable
    requires who in names
    requires forall i, j :: 0 <= i < j < |names| ==> names[i] != names[j]
    ensures LogsTotal(logs[who := logs[who] + [x]], names, unreadable)
            == LogsTotal(logs, names, unreadable) + x
  {
    var init := names[..|names| - 1];
    var last := names[|names| - 1];
    var logs' := logs[who := logs[who] + [x]];
    if last == who {
      assert who !in init by {
        forall i | 0 <= i < |init| ensures init[i] != who {
          assert init[i] == names[i];
        }
      }
      LogsTotalOther(logs, init, unreadable, who, logs[who] + [x]);
      SumAppend(logs[who], x);
    } else {
      assert who in init by {
        var i :| 0 <= i < |names| && names[i] == who;
        assert i < |names| - 1 && init[i] == who;
      }
      LogsTotalAppend(logs, init, unreadable, who, x);
    }
  }

  /** Bound on a log whose entries are all within the operation range. */
  lemma {:induction false} SumBound(log: seq<int>)
    requires forall i :: 0 <= i < |log| ==> -(MAX_OPER as int) <= log[i] <= MAX_OPER
    ensures -(|log| * MAX_OPER) <= Sum(log) <= |log| * MAX_OPER
  {
    if log != [] {
      SumBound(log[..|log| - 1]);
    }
  }
}
