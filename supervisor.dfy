/** The whole program as main runs it: clamp the requested number of agents,
    initialise the account, start the agents, let them run (as one serial
    interleaving of their iterations), stop on the first agent that fails,
    and otherwise audit the account against the logs. */
module Supervisor {
  import opened AgentConfig
  import opened Agent
  import opened Ledger
  import opened Spawning

  /** How a run ends: an agent terminated abnormally (main kills the others
      and exits with status 1, without an audit), or all agents succeeded and
      the controller gave its verdict. */
  datatype RunResult = AgentFailed | Audited(audit: Audit)

  /** The raw draws of the events, in event order. */
  function Raws(events: seq<Event>): (raws: seq<int>)
    ensures |raws| == |events| && forall j :: 0 <= j < |events| ==> raws[j] == events[j].raw
  {
    seq(|events|, j requires 0 <= j < |events| => events[j].raw)
  }

  /** The amounts the events' draws turn into, in event order. */
  ghost function Amounts(events: seq<Event>): (xs: seq<int>)
    requires forall j :: 0 <= j < |events| ==> events[j].raw > 0
    ensures |xs| == |events|
  {
    Deltas(Raws(events))
  }

  lemma AmountsSnoc(events: seq<Event>)
    requires forall j :: 0 <= j < |events| ==> events[j].raw > 0
    requires events != []
    ensures Amounts(events)
            == Amounts(events[..|events| - 1]) + [GenRand(events[|events| - 1].raw, MAX_OPER)]
  {
    assert Raws(events)[..|events| - 1] == Raws(events[..|events| - 1]);
  }

  /** Every amount drawn is within the operation range. */
  lemma {:induction false} AmountsBounded(events: seq<Event>)
    requires forall j :: 0 <= j < |events| ==> events[j].raw > 0
    ensures forall j :: 0 <= j < |events| ==> -(MAX_OPER as int) <= Amounts(events)[j] <= MAX_OPER
  {
    if events != [] {
      AmountsBounded(events[..|events| - 1]);
      AmountsSnoc(events);
    }
  }

  /** The amounts drawn by agents whose log the controller can open, in event
      order. */
  ghost function Visible(events: seq<Event>, unreadable: set<string>): seq<int>
    requires forall j :: 0 <= j < |events| ==> events[j].raw > 0 && events[j].agent < |AGENTS|
  {
    if events == [] then []
    else
      var e := events[|events| - 1];
      Visible(events[..|events| - 1], unreadable)
        + (if AGENTS[e.agent] in unreadable then [] else [GenRand(e.raw, MAX_OPER)])
  }

  /** With every started agent's log readable, the controller sees every
      amount drawn. */
  lemma {:induction false} VisibleAllReadable(p: nat, events: seq<Event>, unreadable: set<string>)
    requires p <= MAX_AGENTS && Schedule(p, events)
    requires forall k :: 0 <= k < p ==> AGENTS[k] !in unreadable
    ensures Visible(events, unreadable) == Amounts(events)
  {
    if events != [] {
      VisibleAllReadable(p, events[..|events| - 1], unreadable);
      AmountsSnoc(events);
    }
  }

  /** The turns of a run in which every iteration commits. */
  ghost function Committing(events: seq<Event>): (ts: seq<Turn>)
    requires forall j :: 0 <= j < |events| ==> events[j].raw > 0
  {
    if events == [] then []
    else
      var e := events[|events| - 1];
      Committing(events[..|events| - 1]) + [Ran(e.agent, GenRand(e.raw, MAX_OPER), Committed)]
  }

  /** A run that took a turn for each of `count` events, every one a commit. */
  predicate AllCommitted(turns: seq<Turn>, count: nat) {
    |turns| == count && forall j :: 0 <= j < |turns| ==> turns[j].Ran? && turns[j].outcome == Committed
  }

  ghost predicate AllCommit(events: seq<Event>) {
    forall j :: 0 <= j < |events| ==> OutcomeOf(events[j].io) == Committed
  }

  /** Nobody is dead while every iteration so far committed. */
  lemma {:induction false} NoneDead(events: seq<Event>, k: nat)
    requires forall j :: 0 <= j < |events| ==> events[j].raw > 0
    ensures !Dead(k, Committing(events))
  {
    if events != [] {
      var m := |events| - 1;
      var ts := Committing(events);
      assert ts[..|ts| - 1] == Committing(events[..m]);
      NoneDead(events[..m], k);
    }
  }

  /** When every file operation succeeds, every iteration of the run commits,
      in event order, and the semaphore ends free. */
  lemma {:induction false} RunAllCommit(n: nat, events: seq<Event>, b0: Books)
    requires n <= MAX_AGENTS && Schedule(n, events) && HasLogs(b0, n) && !b0.held
    requires AllCommit(events)
    ensures Run(n, events, b0).turns == Committing(events) && !Run(n, events, b0).books.held
  {
    if events != [] {
      var m := |events| - 1;
      RunAllCommit(n, events[..m], b0);
      NoneDead(events[..m], events[m].agent);
    }
  }

  /** In such a run the amounts that reach the account are all the amounts drawn. */
  lemma {:induction false} AppliedAllCommit(events: seq<Event>)
    requires forall j :: 0 <= j < |events| ==> events[j].raw > 0
    ensures Applied(Committing(events)) == Amounts(events)
  {
    if events != [] {
      var m := |events| - 1;
      var ts := Committing(events);
      assert ts[..|ts| - 1] == Committing(events[..m]);
      AppliedAllCommit(events[..m]);
      AmountsSnoc(events);
    }
  }

  /** Logs that are all empty sum to nothing. */
  lemma {:induction false} LogsTotalEmpty(logs: map<string, seq<int>>, names: seq<string>, unreadable: set<string>)
    requires forall i :: 0 <= i < |names| ==> names[i] in logs && logs[names[i]] == []
    ensures LogsTotal(logs, names, unreadable) == 0
  {
    if names != [] {
      LogsTotalEmpty(logs, names[..|names| - 1], unreadable);
    }
  }

  /** Number of events of agent `k`. */
  function Count(k: nat, events: seq<Event>): nat {
    if events == [] then 0
    else Count(k, events[..|events| - 1]) + (if events[|events| - 1].agent == k then 1 else 0)
  }

  /** Number of events of the agents below `p`. */
  function CountBelow(p: nat, events: seq<Event>): nat {
    if p == 0 then 0 else CountBelow(p - 1, events) + Count(p - 1, events)
  }

  lemma {:induction false} CountBelowSnoc(p: nat, events: seq<Event>, e: Event)
    ensures CountBelow(p, events + [e]) == CountBelow(p, events) + (if e.agent < p then 1 else 0)
  {
    assert (events + [e])[..|events|] == events;
    if p > 0 {
      CountBelowSnoc(p - 1, events, e);
    }
  }

  /** When every event belongs to an agent below `p`, the per-agent counts add
      up to the number of events. */
  lemma {:induction false} CountAll(p: nat, events: seq<Event>)
    requires forall j :: 0 <= j < |events| ==> events[j].agent < p
    ensures CountBelow(p, events) == |events|
  {
    if events == [] {
      if p > 0 {
        CountAll(p - 1, events);
      }
    } else {
      var m := |events| - 1;
      CountAll(p, events[..m]);
      CountBelowSnoc(p, events[..m], events[m]);
      assert events[..m] + [events[m]] == events;
    }
  }

  lemma {:induction false} CountUniform(p: nat, events: seq<Event>)
    requires forall k :: 0 <= k < p ==> Count(k, events) == OPERATIONS
    ensures CountBelow(p, events) == p * OPERATIONS
  {
    if p > 0 {
      CountUniform(p - 1, events);
    }
  }

  /** With at most MAX_AGENTS agents doing OPERATIONS operations each, the
      final balance is within START_SUM +- MAX_AGENTS * OPERATIONS * MAX_OPER,
      so check_point's read never equals the sentinel ERROR. */
  lemma BalanceNeverSentinel(p: nat, events: seq<Event>)
    requires p <= MAX_AGENTS && Schedule(p, events)
    requires forall k :: 0 <= k < p ==> Count(k, events) == OPERATIONS
    ensures -300 <= START_SUM + Sum(Amounts(events)) <= 500
    ensures START_SUM + Sum(Amounts(events)) != ERROR
  {
    CountAll(p, events);
    CountUniform(p, events);
    AmountsBounded(events);
    SumBound(Amounts(events));
  }

  /** Every turn of such a run is a commit. */
  lemma CommittingShape(events: seq<Event>)
    requires forall i :: 0 <= i < |events| ==> events[i].raw > 0
    ensures |Committing(events)| == |events|
    ensures forall j :: 0 <= j < |events| ==> Committing(events)[j].Ran? && Committing(events)[j].outcome == Committed
  {
    CommittingLength(events);
    forall j | 0 <= j < |events|
      ensures Committing(events)[j].Ran? && Committing(events)[j].outcome == Committed
    {
      CommittingAt(events, j);
    }
  }

  /** The serial run completes with every turn committed exactly when every
      iteration's file operations succeed. */
  lemma RunVerdictTurns(p: nat, events: seq<Event>, b0: Books)
    requires p <= MAX_AGENTS && Schedule(p, events) && HasLogs(b0, p) && !b0.held
    ensures AllCommit(events) <==> AllCommitted(Run(p, events, b0).turns, |events|)
  {
    if AllCommit(events) {
      RunAllCommit(p, events, b0);
      CommittingShape(events);
    } else {
      var res := Run(p, events, b0);
      RunShape(p, events, b0);
      if |res.turns| == |events| {
        var j :| 0 <= j < |events| && OutcomeOf(events[j].io) != Committed;
        assert TurnFits(res.turns[j], events[j], res.turns[..j]);
      }
    }
  }

  /** When every iteration commits, starting from the books init leaves, the
      account ends at the starting sum plus every amount drawn, and equals
      what the logs add up to. */
  lemma RunVerdictBooks(p: nat, events: seq<Event>, b0: Books)
    requires p <= MAX_AGENTS && Schedule(p, events) && AllCommit(events)
    requires b0.account == START_SUM && !b0.held
    requires forall k :: 0 <= k < |AGENTS| ==> AGENTS[k] in b0.logs && b0.logs[AGENTS[k]] == []
    ensures var res := Run(p, events, b0);
            res.books.account == START_SUM + Sum(Amounts(events)) && Conserved(res.books, p)
  {
    RunAllCommit(p, events, b0);
    CommittingShape(events);
    AppliedAllCommit(events);
    RunAccount(p, events, b0);
    LogsTotalEmpty(b0.logs, AGENTS[..p], {});
    RunConserves(p, events, b0);
  }

  /** When every iteration commits, the logs the controller can open add up
      to exactly the amounts their agents drew. */
  lemma {:induction false} RunVisible(p: nat, events: seq<Event>, b0: Books, unreadable: set<string>)
    requires p <= MAX_AGENTS && Schedule(p, events) && HasLogs(b0, p) && !b0.held && AllCommit(events)
    ensures LogsTotal(Run(p, events, b0).books.logs, AGENTS[..p], unreadable)
            == LogsTotal(b0.logs, AGENTS[..p], unreadable) + Sum(Visible(events, unreadable))
  {
    if events == [] {
      assert Visible(events, unreadable) == [];
    } else {
      var m := |events| - 1;
      var e := events[m];
      var x := GenRand(e.raw, MAX_OPER);
      var name := AGENTS[e.agent];
      var logs := Run(p, events[..m], b0).books.logs;
      RunVisible(p, events[..m], b0, unreadable);
      RunAllCommit(p, events[..m], b0);
      NoneDead(events[..m], e.agent);
      assert Run(p, events, b0).books.logs == logs[name := logs[name] + [x]];
      LogsTotalCommit(logs, p, e.agent, unreadable, x);
      assert Visible(events, unreadable)
             == Visible(events[..m], unreadable) + (if name !in unreadable then [x] else []);
      SumAppendIf(Visible(events[..m], unreadable), name !in unreadable, x);
    }
  }

  /** One commit by agent `a` among the first `p` raises their readable log
      total by its amount when `a`'s log can be opened, and by nothing when
      it cannot. */
  lemma LogsTotalCommit(logs: map<string, seq<int>>, p: nat, a: nat, unreadable: set<string>, x: int)
    requires a < p <= MAX_AGENTS && AGENTS[a] in logs
    ensures LogsTotal(logs[AGENTS[a] := logs[AGENTS[a]] + [x]], AGENTS[..p], unreadable)
            == LogsTotal(logs, AGENTS[..p], unreadable) + (if AGENTS[a] in unreadable then 0 else x)
  {
    var name := AGENTS[a];
    if name in unreadable {
      LogsTotalUnreadable(logs, AGENTS[..p], unreadable, name, logs[name] + [x]);
    } else {
      AgentsDistinct();
      assert AGENTS[..p][a] == name;
      LogsTotalAppend(logs, AGENTS[..p], unreadable, name, x);
    }
  }

  /** check_point's expected value after a run in which every iteration
      commits, from init's books: the starting sum plus the amounts drawn by
      agents whose log can be opened; all of them when every log can. */
  lemma RunControl(p: nat, events: seq<Event>, b0: Books, unreadable: set<string>)
    requires p <= MAX_AGENTS && Schedule(p, events) && AllCommit(events) && !b0.held
    requires forall k :: 0 <= k < |AGENTS| ==> AGENTS[k] in b0.logs && b0.logs[AGENTS[k]] == []
    ensures ControlSum(Run(p, events, b0).books.logs, AGENTS[..p], unreadable)
            == START_SUM + Sum(Visible(events, unreadable))
    ensures (forall k :: 0 <= k < p ==> AGENTS[k] !in unreadable) ==> Visible(events, unreadable) == Amounts(events)
  {
    RunVisible(p, events, b0, unreadable);
    LogsTotalEmpty(b0.logs, AGENTS[..p], unreadable);
    if forall k :: 0 <= k < p ==> AGENTS[k] !in unreadable {
      VisibleAllReadable(p, events, unreadable);
    }
  }

  /** The amounts that reached the account are no more than the turns taken,
      and each lies in the operation range when every turn's does. */
  lemma {:induction false} AppliedBounded(turns: seq<Turn>)
    requires forall j :: 0 <= j < |turns| && turns[j].Ran? ==> -(MAX_OPER as int) <= turns[j].amount <= MAX_OPER
    ensures |Applied(turns)| <= |turns|
    ensures forall i :: 0 <= i < |Applied(turns)| ==> -(MAX_OPER as int) <= Applied(turns)[i] <= MAX_OPER
  {
    if turns != [] {
      AppliedBounded(turns[..|turns| - 1]);
    }
  }

  /** Every value update computes while the agents run stays far from ERROR,
      whatever the file outcomes: before event k the balance is within
      [-300, 500], and what update returns for that iteration's update
      (old + 2·amount, compared with ERROR at agent.c:247) and for its
      rollback (at agent.c:253) is within [-320, 520]. So neither comparison
      takes a success for a failure. */
  lemma UpdateNeverSentinel(p: nat, events: seq<Event>, b0: Books, k: nat)
    requires p <= MAX_AGENTS && Schedule(p, events) && HasLogs(b0, p) && !b0.held && b0.account == START_SUM
    requires forall a :: 0 <= a < p ==> Count(a, events) == OPERATIONS
    requires k < |events|
    ensures var before := Run(p, events[..k], b0).books.account;
            var x := GenRand(events[k].raw, MAX_OPER);
            && -300 <= before <= 500
            && -320 <= before + x + x <= 520 && before + x + x != ERROR
            && -320 <= (before + x) + (-x) + (-x) <= 520 && (before + x) + (-x) + (-x) != ERROR
  {
    CountAll(p, events);
    CountUniform(p, events);
    var pre := events[..k];
    var turns := Run(p, pre, b0).turns;
    RunAccount(p, pre, b0);
    RunShape(p, pre, b0);
    forall j | 0 <= j < |turns| && turns[j].Ran?
      ensures -(MAX_OPER as int) <= turns[j].amount <= MAX_OPER
    {
      assert TurnFits(turns[j], pre[j], turns[..j]);
    }
    AppliedBounded(turns);
    SumBound(Applied(turns));
  }

  /** Each account update, at the finer grain: whatever order the run's
      single changes take, the balance an update reads (init's sum plus the
      changes before it) stays within [-700, 900], and the value update returns
      for it, the balance plus twice its amount, never equals ERROR. This holds
      for an iteration's update (agent.c:247) and for a rollback (agent.c:253),
      including one that sees another agent's update that is rolled back later. */
  lemma AnyOrderNeverSentinel(p: nat, events: seq<Event>, b0: Books, cs: seq<Change>, i: nat)
    requires p <= MAX_AGENTS && Schedule(p, events) && HasLogs(b0, p) && !b0.held && b0.account == START_SUM
    requires forall a :: 0 <= a < p ==> Count(a, events) == OPERATIONS
    requires multiset(cs) == multiset(Changes(Run(p, events, b0).turns))
    requires i < |cs| && cs[i].AddToAccount?
    ensures var before := START_SUM + Added(cs[..i]);
            var x := cs[i].amount;
            && -700 <= before <= 900
            && -720 <= before + x + x <= 920 && before + x + x != ERROR
  {
    CountAll(p, events);
    CountUniform(p, events);
    var turns := Run(p, events, b0).turns;
    RunShape(p, events, b0);
    forall j | 0 <= j < |turns| && turns[j].Ran?
      ensures -(MAX_OPER as int) <= turns[j].amount <= MAX_OPER
    {
      assert TurnFits(turns[j], events[j], turns[..j]);
    }
    ChangesBounded(turns);
    ChangesShape(turns);
    assert |cs| == |Changes(turns)| by {
      assert |multiset(cs)| == |multiset(Changes(turns))|;
    }
    forall c | c in cs && c.AddToAccount?
      ensures -(MAX_OPER as int) <= c.amount <= MAX_OPER
    {
      assert c in multiset(Changes(turns));
    }
    assert cs[i] in cs;
    assert forall c :: c in cs[..i] ==> c in cs;
    AddedBound(cs[..i]);
  }

  lemma {:induction false} CommittingAt(events: seq<Event>, j: nat)
    requires forall i :: 0 <= i < |events| ==> events[i].raw > 0
    requires j < |events|
    ensures |Committing(events)| == |events|
    ensures Committing(events)[j].Ran? && Committing(events)[j].outcome == Committed
  {
    if events != [] {
      var m := |events| - 1;
      if j < m {
        CommittingAt(events[..m], j);
      } else {
        CommittingLength(events[..m]);
      }
    }
  }

  lemma {:induction false} CommittingLength(events: seq<Event>)
    requires forall i :: 0 <= i < |events| ==> events[i].raw > 0
    ensures |Committing(events)| == |events|
  {
    if events != [] {
      CommittingLength(events[..|events| - 1]);
    }
  }

  /** The agents' work and the controller's audit, once `p` agents have
      started: init's books, a serial interleaving of the agents'
      iterations, and, unless an agent failed, check_point for the `p`
      started agents. The logs named in `unreadable` cannot be opened by
      sum_up and count 0; `accountIo` is how the read of the account fares. */
  method RunAndAudit(p: nat, events: seq<Event>, unreadable: set<string>, accountIo: FileIo)
    returns (r: RunResult)
    requires p <= MAX_AGENTS && Schedule(p, events)
    requires forall k :: 0 <= k < p ==> Count(k, events) == OPERATIONS
    ensures r.AgentFailed? <==> !AllCommit(events)
    ensures r.Audited? && !accountIo.Ok() ==> r.audit == CantRead
    ensures r.Audited? && accountIo.Ok() ==>
              && !r.audit.CantRead?
              && r.audit.control == START_SUM + Sum(Visible(events, unreadable))
              && r.audit.actual == START_SUM + Sum(Amounts(events))
              && r.audit.actual != ERROR
              && (r.audit.Passed? <==> Sum(Visible(events, unreadable)) == Sum(Amounts(events)))
    ensures r.Audited? && accountIo.Ok() && (forall k :: 0 <= k < p ==> AGENTS[k] !in unreadable) ==>
              r.audit == Passed(START_SUM + Sum(Amounts(events)), START_SUM + Sum(Amounts(events)))
  {
    var bank := new Bank();
    ghost var b0 := bank.View();
    RunVerdictTurns(p, events, b0);
    if AllCommit(events) {
      RunVerdictBooks(p, events, b0);
      RunControl(p, events, b0, unreadable);
    }
    var turns := bank.Interleave(p, events);
    if !AllCommitted(turns, |events|) {
      return AgentFailed;
    }
    BalanceNeverSentinel(p, events);
    var audit := bank.CheckPoint(p, unreadable, accountIo);
    r := Audited(audit);
  }

  /** main from start to finish. `forks[i]` are the fork outcomes of the i-th
      go_agent call. `events` is one serial interleaving of the iterations of
      the agents that started, each doing its OPERATIONS iterations; agent k
      of the events is the child in slot k of `process`, which is the child
      of the call that was handed name AGENTS[k]. `unreadable` and
      `accountIo` say which of the controller's opens fail. An agent fails
      exactly when some iteration does not commit. When none does, the
      account holds the starting sum plus every amount drawn, the controller
      expects the starting sum plus the amounts in the logs it can open, and
      the audit passes exactly when the two agree, always when every log can
      be opened. `pids` are the started children in slot order. */
  method Supervise(requested: int, forks: seq<seq<int>>, events: seq<Event>,
                   unreadable: set<string>, accountIo: FileIo)
    returns (r: RunResult, pids: seq<int>)
    requires |forks| == ClampAgents(requested)
    requires forall i :: 0 <= i < |forks| ==> |forks[i]| == RETRY
    requires forall i, j :: 0 <= i < |forks| && 0 <= j < |forks[i]| ==> forks[i][j] != 0
    requires Schedule(|StartedPids(Outcomes(forks))|, events)
    requires forall k :: 0 <= k < |StartedPids(Outcomes(forks))| ==> Count(k, events) == OPERATIONS
    ensures pids == StartedPids(Outcomes(forks))
    ensures forall i :: 0 <= i < |forks| && Outcomes(forks)[i].Started? ==>
              |StartedBefore(Outcomes(forks), i)| < |pids|
              && pids[|StartedBefore(Outcomes(forks), i)|] == Outcomes(forks)[i].pid
    ensures r.AgentFailed? <==> !AllCommit(events)
    ensures r.Audited? && !accountIo.Ok() ==> r.audit == CantRead
    ensures r.Audited? && accountIo.Ok() ==>
              && !r.audit.CantRead?
              && r.audit.control == START_SUM + Sum(Visible(events, unreadable))
              && r.audit.actual == START_SUM + Sum(Amounts(events))
              && r.audit.actual != ERROR
              && (r.audit.Passed? <==> Sum(Visible(events, unreadable)) == Sum(Amounts(events)))
    ensures r.Audited? && accountIo.Ok() && (forall k :: 0 <= k < |pids| ==> AGENTS[k] !in unreadable) ==>
              r.audit == Passed(START_SUM + Sum(Amounts(events)), START_SUM + Sum(Amounts(events)))
  {
    var n := ClampAgents(requested);
    var process := new int[MAX_AGENTS];
    var p, handed := SpawnAgents(n, forks, process);
    pids := process[..p];
    r := RunAndAudit(p, events, unreadable, accountIo);
  }
}
