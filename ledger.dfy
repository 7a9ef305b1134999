/** The shared account, the agents' personal logs and the binary semaphore
    that serialises access to the account, with the operations agents and the
    controller perform on them. */
module Ledger {
  import opened AgentConfig
  import opened Agent

  /** Whether each of the two fopen calls on a file succeeds: the one that
      reads it and the one that rewrites it. */
  datatype FileIo = FileIo(canRead: bool, canWrite: bool) {
    predicate Ok() { canRead && canWrite }
  }

  /** What update reports: the number it returns, or the ERROR sentinel. */
  datatype Reply = Returned(value: int) | Failed

  /** The file outcomes of one agent iteration: the account update, the log
      append, and the compensating update issued if the append fails. */
  datatype StepIo = StepIo(update: FileIo, canAppend: bool, rollback: FileIo)

  /** How one agent iteration ends. */
  datatype StepOutcome =
    | Committed        // ledger updated and amount logged
    | LedgerFailed     // the update failed; the lock stays held, the agent aborts
    | RolledBack       // the append failed and the amount was taken back; the agent aborts
    | RollbackFailed   // the append failed and so did the compensation; the agent aborts

  /** The iteration outcome an iteration's file outcomes lead to. */
  function OutcomeOf(io: StepIo): StepOutcome {
    if !io.update.Ok() then LedgerFailed
    else if io.canAppend then Committed
    else if io.rollback.Ok() then RolledBack
    else RollbackFailed
  }

  /** How an agent process ends: after all its operations, or aborted in
      iteration `at`. */
  datatype AgentExit = Finished | Aborted(at: nat, why: StepOutcome)

  /** The number of iterations an agent committed before it ended. */
  function Done(exit: AgentExit): nat {
    if exit.Finished? then OPERATIONS else exit.at
  }

  /** One step of a serial interleaving: agent `agent` runs one iteration with
      raw random draw `raw` and file outcomes `io`. */
  datatype Event = Event(agent: nat, raw: int, io: StepIo)

  /** What became of one event of agent `agent`: an iteration for `amount`
      ran and ended with `outcome`, or the agent had already exited. */
  datatype Turn = Ran(agent: nat, amount: int, outcome: StepOutcome) | Exited(agent: nat) {
    /** The iteration ended with the semaphore still held. */
    predicate Blocks() {
      Ran? && (outcome == LedgerFailed || outcome == RollbackFailed)
    }
  }

  /** The shared files and the semaphore, as one value: the account balance,
      whether the semaphore is held, and every agent's log. */
  datatype Books = Books(account: int, held: bool, logs: map<string, seq<int>>)

  /** A serial run so far: the books and the turns taken. */
  datatype Progress = Progress(books: Books, turns: seq<Turn>)

  /** The controller's verdict. */
  datatype Audit =
    | Passed(control: int, actual: int)    // SUCCESS
    | Thieves(control: int, actual: int)   // mismatch: the program exits with status 1
    | CantRead                             // the account could not be read: ERROR

  /** The amounts the agents' draws turn into. */
  function Deltas(raws: seq<int>): (ds: seq<int>)
    requires forall i :: 0 <= i < |raws| ==> raws[i] > 0
    ensures |ds| == |raws|
  {
    if raws == [] then [] else Deltas(raws[..|raws| - 1]) + [GenRand(raws[|raws| - 1], MAX_OPER)]
  }

  /** The effect of one agent iteration on the books (see Bank.Transact). */
  function TransactSpec(b: Books, name: string, amount: int, io: StepIo): Books
    requires name in b.logs
  {
    match OutcomeOf(io)
    case Committed => b.(account := b.account + amount, logs := b.logs[name := b.logs[name] + [amount]])
    case LedgerFailed => b.(held := true)
    case RolledBack => b
    case RollbackFailed => b.(account := b.account + amount, held := true)
  }

  /** The conservation invariant: the account equals the starting sum plus
      every amount logged by the first `n` agents. */
  ghost predicate Conserved(b: Books, n: nat)
    requires n <= |AGENTS|
  {
    b.account == ControlSum(b.logs, AGENTS[..n], {})
  }

  /** Agent `k` has exited after `turns`: one of its iterations ended in
      anything but a commit. */
  ghost predicate Dead(k: nat, turns: seq<Turn>) {
    if turns == [] then false
    else
      var t := turns[|turns| - 1];
      Dead(k, turns[..|turns| - 1]) || (t.Ran? && t.agent == k && t.outcome != Committed)
  }

  /** The amounts agent `k` committed during `turns`, in order. */
  ghost function CommittedBy(k: nat, turns: seq<Turn>): seq<int> {
    if turns == [] then []
    else
      var t := turns[|turns| - 1];
      CommittedBy(k, turns[..|turns| - 1])
        + (if t.Ran? && t.agent == k && t.outcome == Committed then [t.amount] else [])
  }

  /** The amounts that reached the account during `turns`: the committed
      ones, and those whose compensation failed. */
  ghost function Applied(turns: seq<Turn>): seq<int> {
    if turns == [] then []
    else
      var t := turns[|turns| - 1];
      Applied(turns[..|turns| - 1])
        + (if t.Ran? && (t.outcome == Committed || t.outcome == RollbackFailed) then [t.amount] else [])
  }

  /** Events name only the first `n` agents and carry nonzero draws. */
  ghost predicate Schedule(n: nat, events: seq<Event>) {
    forall j :: 0 <= j < |events| ==> events[j].agent < n && events[j].raw > 0
  }

  ghost predicate HasLogs(b: Books, n: nat)
    requires n <= |AGENTS|
  {
    forall k :: 0 <= k < n ==> AGENTS[k] in b.logs
  }

  /** One event of a serial interleaving. An event of an agent that has
      already aborted is skipped, since that process has exited. Once an
      iteration leaves the semaphore held, every further update would block,
      so nothing more happens. */
  ghost function Step(n: nat, p: Progress, e: Event): (q: Progress)
    requires n <= MAX_AGENTS && e.agent < n && e.raw > 0 && HasLogs(p.books, n)
    ensures HasLogs(q.books, n)
  {
    if p.books.held then p
    else if Dead(e.agent, p.turns) then Progress(p.books, p.turns + [Exited(e.agent)])
    else
      var amount := GenRand(e.raw, MAX_OPER);
      Progress(TransactSpec(p.books, AGENTS[e.agent], amount, e.io),
               p.turns + [Ran(e.agent, amount, OutcomeOf(e.io))])
  }

  /** The serial interleaving of `events`, starting from `b0`: each event is
      one whole iteration of the agent it names. The semaphore serialises
      only the single updates, so this is a coarser grain than the program's;
      AnyUpdateOrder shows that every order of the single updates and log
      appends reaches the same books. */
  ghost function Run(n: nat, events: seq<Event>, b0: Books): (p: Progress)
    requires n <= MAX_AGENTS && Schedule(n, events) && HasLogs(b0, n)
    ensures HasLogs(p.books, n)
    ensures |p.turns| <= |events|
    ensures !p.books.held ==> |p.turns| == |events|
    decreases |events|
  {
    if events == [] then Progress(b0, [])
    else Step(n, Run(n, events[..|events| - 1], b0), events[|events| - 1])
  }

  /** One iteration by an agent among the first `n` keeps the account equal
      to the starting sum plus all logged amounts, unless its compensation
      fails, which leaves the account off by exactly the amount. */
  lemma TransactConserves(b: Books, n: nat, k: nat, amount: int, io: StepIo)
    requires k < n <= MAX_AGENTS && HasLogs(b, n)
    ensures var b' := TransactSpec(b, AGENTS[k], amount, io);
            b'.account - ControlSum(b'.logs, AGENTS[..n], {})
              == b.account - ControlSum(b.logs, AGENTS[..n], {}) + (if OutcomeOf(io) == RollbackFailed then amount else 0)
  {
    if OutcomeOf(io) == Committed {
      AgentsDistinct();
      assert AGENTS[k] == AGENTS[..n][k];
      LogsTotalAppend(b.logs, AGENTS[..n], {}, AGENTS[k], amount);
    }
  }

  lemma SnocPrefix<T>(xs: seq<T>, x: T)
    ensures (xs + [x])[..|xs|] == xs && (xs + [x])[|xs|] == x
  {
  }

  ghost predicate NoFailedRollback(turns: seq<Turn>) {
    forall j :: 0 <= j < |turns| ==> turns[j].Ran? ==> turns[j].outcome != RollbackFailed
  }

  /** What one step adds: either nothing (blocked), or one turn at the end. */
  lemma StepExtends(n: nat, p: Progress, e: Event)
    requires n <= MAX_AGENTS && e.agent < n && e.raw > 0 && HasLogs(p.books, n)
    ensures var q := Step(n, p, e);
            && (p.books.held ==> q == p)
            && (!p.books.held ==> |q.turns| == |p.turns| + 1 && q.turns[..|p.turns|] == p.turns
                                  && q.turns[|p.turns|].agent == e.agent)
  {
    var q := Step(n, p, e);
    if !p.books.held {
      SnocPrefix(p.turns, q.turns[|p.turns|]);
    }
  }

  lemma StepConserves(n: nat, p: Progress, e: Event)
    requires n <= MAX_AGENTS && e.agent < n && e.raw > 0 && HasLogs(p.books, n)
    requires Conserved(p.books, n)
    ensures NoFailedRollback(Step(n, p, e).turns) ==> Conserved(Step(n, p, e).books, n)
  {
    var q := Step(n, p, e);
    StepExtends(n, p, e);
    if !p.books.held && !Dead(e.agent, p.turns) {
      TransactConserves(p.books, n, e.agent, GenRand(e.raw, MAX_OPER), e.io);
      if OutcomeOf(e.io) == RollbackFailed {
        assert !NoFailedRollback(q.turns) by {
          assert q.turns[|p.turns|].Ran? && q.turns[|p.turns|].outcome == RollbackFailed;
        }
      }
    }
  }

  /** Conservation for every serial interleaving: from books that balance,
      the account still equals the starting sum plus every logged amount,
      provided no compensation failed. */
  lemma {:induction false} RunConserves(n: nat, events: seq<Event>, b0: Books)
    requires n <= MAX_AGENTS && Schedule(n, events) && HasLogs(b0, n)
    requires Conserved(b0, n)
    ensures NoFailedRollback(Run(n, events, b0).turns) ==> Conserved(Run(n, events, b0).books, n)
  {
    if events != [] {
      var m := |events| - 1;
      var p := Run(n, events[..m], b0);
      StepExtends(n, p, events[m]);
      var q := Step(n, p, events[m]);
      if NoFailedRollback(q.turns) {
        assert NoFailedRollback(p.turns) by {
          forall j | 0 <= j < |p.turns| ensures p.turns[j] == q.turns[j] {
            assert q.turns[..|p.turns|][j] == q.turns[j];
          }
        }
        RunConserves(n, events[..m], b0);
        StepConserves(n, p, events[m]);
      }
    }
  }

  lemma StepAccount(n: nat, p: Progress, e: Event)
    requires n <= MAX_AGENTS && e.agent < n && e.raw > 0 && HasLogs(p.books, n)
    requires p.books.account == Sum(Applied(p.turns)) + START_SUM
    ensures Step(n, p, e).books.account == Sum(Applied(Step(n, p, e).turns)) + START_SUM
  {
    var q := Step(n, p, e);
    StepExtends(n, p, e);
    if !p.books.held {
      var t := q.turns[|p.turns|];
      assert q.turns == p.turns + [t];
      SumAppendIf(Applied(p.turns), t.Ran? && (t.outcome == Committed || t.outcome == RollbackFailed),
                  if t.Ran? then t.amount else 0);
    }
  }

  /** Every amount that reached the account is accounted for: the account
      moved from the starting sum by exactly the sum of the applied amounts. */
  lemma {:induction false} RunAccount(n: nat, events: seq<Event>, b0: Books)
    requires n <= MAX_AGENTS && Schedule(n, events) && HasLogs(b0, n)
    requires b0.account == START_SUM
    ensures Run(n, events, b0).books.account == START_SUM + Sum(Applied(Run(n, events, b0).turns))
  {
    if events != [] {
      var m := |events| - 1;
      RunAccount(n, events[..m], b0);
      StepAccount(n, Run(n, events[..m], b0), events[m]);
    }
  }

  lemma StepLogs(n: nat, p: Progress, e: Event, b0: Books, k: nat)
    requires n <= MAX_AGENTS && e.agent < n && e.raw > 0 && HasLogs(p.books, n) && HasLogs(b0, n) && k < n
    requires p.books.logs[AGENTS[k]] == b0.logs[AGENTS[k]] + CommittedBy(k, p.turns)
    ensures Step(n, p, e).books.logs[AGENTS[k]] == b0.logs[AGENTS[k]] + CommittedBy(k, Step(n, p, e).turns)
  {
    var q := Step(n, p, e);
    StepExtends(n, p, e);
    if !p.books.held {
      var t := q.turns[|p.turns|];
      assert q.turns == p.turns + [t];
      assert q.turns[..|q.turns| - 1] == p.turns;
      if t.Ran? && t.outcome == Committed && t.agent != k {
        AgentsDistinct();
        assert AGENTS[k] != AGENTS[t.agent];
      }
    }
  }

  /** Each log holds exactly its agent's committed amounts, in the order
      they were applied; a compensated amount never appears. */
  lemma {:induction false} RunLogs(n: nat, events: seq<Event>, b0: Books, k: nat)
    requires n <= MAX_AGENTS && Schedule(n, events) && HasLogs(b0, n) && k < n
    ensures Run(n, events, b0).books.logs[AGENTS[k]] == b0.logs[AGENTS[k]] + CommittedBy(k, Run(n, events, b0).turns)
  {
    if events == [] {
      assert b0.logs[AGENTS[k]] + [] == b0.logs[AGENTS[k]];
    } else {
      var m := |events| - 1;
      RunLogs(n, events[..m], b0, k);
      StepLogs(n, Run(n, events[..m], b0), events[m], b0, k);
    }
  }

  /** How one turn relates to its event. */
  ghost predicate TurnFits(t: Turn, e: Event, before: seq<Turn>)
    requires e.raw > 0
  {
    && t.agent == e.agent
    && (t.Exited? <==> Dead(e.agent, before))
    && (t.Ran? ==> t.amount == GenRand(e.raw, MAX_OPER) && t.outcome == OutcomeOf(e.io))
  }

  /** Every turn taken so far fits the event at the same position. */
  ghost predicate Fits(turns: seq<Turn>, events: seq<Event>)
    requires |turns| <= |events| && forall j :: 0 <= j < |events| ==> events[j].raw > 0
  {
    forall j :: 0 <= j < |turns| ==> TurnFits(turns[j], events[j], turns[..j])
  }

  /** The semaphore is held exactly when the last turn left it so. */
  ghost predicate HeldByLast(p: Progress) {
    p.books.held <==> |p.turns| > 0 && p.turns[|p.turns| - 1].Blocks()
  }

  lemma StepShape(n: nat, p: Progress, events: seq<Event>, m: nat)
    requires n <= MAX_AGENTS && m < |events| && Schedule(n, events) && HasLogs(p.books, n)
    requires |p.turns| <= m && (!p.books.held ==> |p.turns| == m)
    requires Fits(p.turns, events[..m]) && HeldByLast(p)
    ensures var q := Step(n, p, events[m]);
            |q.turns| <= m + 1 && Fits(q.turns, events[..m + 1]) && HeldByLast(q)
  {
    var q := Step(n, p, events[m]);
    StepExtends(n, p, events[m]);
    forall j | 0 <= j < |q.turns|
      ensures TurnFits(q.turns[j], events[j], q.turns[..j])
    {
      if j < |p.turns| {
        assert q.turns[j] == p.turns[j] && q.turns[..j] == p.turns[..j] && events[..m][j] == events[j];
      }
    }
  }

  /** The shape of a serial run from a free semaphore: the j-th turn belongs to
      the j-th event; it is skipped exactly when its agent already aborted;
      otherwise it applies the amount drawn from the event's raw value and
      ends as the event's file outcomes dictate. The run stops early only
      with the semaphore held, and it is held exactly when the last turn
      left it so. */
  lemma {:induction false} RunShape(n: nat, events: seq<Event>, b0: Books)
    requires n <= MAX_AGENTS && Schedule(n, events) && HasLogs(b0, n) && !b0.held
    ensures var p := Run(n, events, b0);
            && (|p.turns| < |events| ==> p.books.held)
            && HeldByLast(p)
            && Fits(p.turns, events)
  {
    if events != [] {
      var m := |events| - 1;
      var p := Run(n, events[..m], b0);
      assert Run(n, events, b0) == Step(n, p, events[m]);
      RunShape(n, events[..m], b0);
      StepShape(n, p, events, m);
      assert events[..m + 1] == events;
    }
  }

  /** The two kinds of change the agents make to the books, each on its own:
      an `update` of the account by an amount (agent.c:291-323; the
      iteration's update and its rollback are one each) and an append to a
      log (agent.c:327-337). The semaphore is released between them, so
      other agents' changes can fall in between. */
  datatype Change = AddToAccount(amount: int) | AppendToLog(name: string, amount: int)

  /** A log as the books hold it, a missing file reading as empty. */
  function LogOf(logs: map<string, seq<int>>, name: string): seq<int> {
    if name in logs then logs[name] else []
  }

  function Apply(b: Books, c: Change): Books {
    match c
    case AddToAccount(x) => b.(account := b.account + x)
    case AppendToLog(name, x) => b.(logs := b.logs[name := LogOf(b.logs, name) + [x]])
  }

  /** The books after the changes `cs`, made in order. */
  function ApplyAll(b: Books, cs: seq<Change>): Books {
    if cs == [] then b else Apply(ApplyAll(b, cs[..|cs| - 1]), cs[|cs| - 1])
  }

  /** What the changes add to the account, in total. */
  function Added(cs: seq<Change>): int {
    if cs == [] then 0
    else Added(cs[..|cs| - 1]) + (if cs[|cs| - 1].AddToAccount? then cs[|cs| - 1].amount else 0)
  }

  /** The amounts the changes append to `name`'s log, in order. */
  function AppendedTo(cs: seq<Change>, name: string): seq<int> {
    if cs == [] then []
    else
      var c := cs[|cs| - 1];
      AppendedTo(cs[..|cs| - 1], name) + (if c.AppendToLog? && c.name == name then [c.amount] else [])
  }

  /** After a sequence of changes the account has moved by their total, and
      the semaphore is untouched. */
  lemma {:induction false} ApplyAllAccount(b: Books, cs: seq<Change>)
    ensures ApplyAll(b, cs).account == b.account + Added(cs)
    ensures ApplyAll(b, cs).held == b.held
  {
    if cs != [] {
      ApplyAllAccount(b, cs[..|cs| - 1]);
    }
  }

  /** After a sequence of changes a log is its old self extended by exactly
      the amounts appended to it, in order; it exists when it did or when
      something was appended. */
  lemma {:induction false} ApplyAllLog(b: Books, cs: seq<Change>, name: string)
    ensures name in ApplyAll(b, cs).logs <==> name in b.logs || AppendedTo(cs, name) != []
    ensures LogOf(ApplyAll(b, cs).logs, name) == LogOf(b.logs, name) + AppendedTo(cs, name)
  {
    if cs == [] {
      assert LogOf(b.logs, name) + [] == LogOf(b.logs, name);
    } else {
      var m := |cs| - 1;
      ApplyAllLog(b, cs[..m], name);
      if cs[m].AppendToLog? && cs[m].name == name {
        assert AppendedTo(cs, name) == AppendedTo(cs[..m], name) + [cs[m].amount];
      } else {
        assert AppendedTo(cs, name) == AppendedTo(cs[..m], name) + [];
      }
    }
  }

  /** Two sequences of changes with the same total added to the account and
      the same appends to every log, in the same order, leave the same books,
      however else their changes are ordered. */
  lemma SameChangesSameBooks(b: Books, cs1: seq<Change>, cs2: seq<Change>)
    requires Added(cs1) == Added(cs2)
    requires forall name :: AppendedTo(cs1, name) == AppendedTo(cs2, name)
    ensures ApplyAll(b, cs1) == ApplyAll(b, cs2)
  {
    var logs1 := ApplyAll(b, cs1).logs;
    var logs2 := ApplyAll(b, cs2).logs;
    ApplyAllAccount(b, cs1);
    ApplyAllAccount(b, cs2);
    forall name
      ensures name in logs1 <==> name in logs2
      ensures name in logs1 ==> logs1[name] == logs2[name]
    {
      ApplyAllLog(b, cs1, name);
      ApplyAllLog(b, cs2, name);
    }
    assert logs1 == logs2;
  }

  lemma {:induction false} ApplyAllAppend(b: Books, cs: seq<Change>, ds: seq<Change>)
    ensures ApplyAll(b, cs + ds) == ApplyAll(ApplyAll(b, cs), ds)
  {
    if ds == [] {
      assert cs + ds == cs;
    } else {
      var m := |ds| - 1;
      assert (cs + ds)[..|cs + ds| - 1] == cs + ds[..m];
      ApplyAllAppend(b, cs, ds[..m]);
    }
  }

  /** The changes one turn makes: a commit is its update and its log append; a
      rolled-back iteration its update and the compensating update; a failed
      rollback only the update; a failed update or a skip nothing. */
  function TurnChanges(t: Turn): seq<Change> {
    if t.Exited? then []
    else
      match t.outcome
      case Committed =>
        [AddToAccount(t.amount)] + (if t.agent < |AGENTS| then [AppendToLog(AGENTS[t.agent], t.amount)] else [])
      case LedgerFailed => []
      case RolledBack => [AddToAccount(t.amount), AddToAccount(-t.amount)]
      case RollbackFailed => [AddToAccount(t.amount)]
  }

  /** The changes of a sequence of turns, turn by turn. */
  ghost function Changes(turns: seq<Turn>): seq<Change> {
    if turns == [] then [] else Changes(turns[..|turns| - 1]) + TurnChanges(turns[|turns| - 1])
  }

  /** One iteration from a free semaphore is its turn's changes. */
  lemma StepAsChanges(n: nat, p: Progress, e: Event)
    requires n <= MAX_AGENTS && e.agent < n && e.raw > 0 && HasLogs(p.books, n)
    requires !p.books.held && !Dead(e.agent, p.turns)
    ensures var t := Ran(e.agent, GenRand(e.raw, MAX_OPER), OutcomeOf(e.io));
            Step(n, p, e).books == ApplyAll(p.books, TurnChanges(t)).(held := Step(n, p, e).books.held)
  {
    var b := p.books;
    var x := GenRand(e.raw, MAX_OPER);
    var cs := TurnChanges(Ran(e.agent, x, OutcomeOf(e.io)));
    if |cs| == 2 {
      assert cs[..1][..0] == [] && cs[..1][0] == cs[0];
      assert ApplyAll(b, cs[..1]) == Apply(b, cs[0]);
    } else if |cs| == 1 {
      assert cs[..0] == [];
    }
  }

  /** A serial run from a free semaphore is its turns' changes applied in
      turn order: its books are those changes applied to the starting books,
      with the semaphore as the last turn left it. */
  lemma {:induction false} RunAsChanges(n: nat, events: seq<Event>, b0: Books)
    requires n <= MAX_AGENTS && Schedule(n, events) && HasLogs(b0, n) && !b0.held
    ensures var p := Run(n, events, b0);
            p.books == ApplyAll(b0, Changes(p.turns)).(held := p.books.held)
  {
    if events != [] {
      var m := |events| - 1;
      var e := events[m];
      var p := Run(n, events[..m], b0);
      RunAsChanges(n, events[..m], b0);
      StepExtends(n, p, e);
      var q := Step(n, p, e);
      if !p.books.held {
        var t := q.turns[|p.turns|];
        assert q.turns == p.turns + [t];
        assert q.turns[..|q.turns| - 1] == p.turns;
        assert Changes(q.turns) == Changes(p.turns) + TurnChanges(t);
        ApplyAllAppend(b0, Changes(p.turns), TurnChanges(t));
        ApplyAllAccount(b0, Changes(p.turns));
        assert ApplyAll(b0, Changes(p.turns)) == p.books;
        if Dead(e.agent, p.turns) {
          assert TurnChanges(t) == [];
        } else {
          assert t == Ran(e.agent, GenRand(e.raw, MAX_OPER), OutcomeOf(e.io));
          StepAsChanges(n, p, e);
        }
      }
    }
  }

  lemma {:induction false} AddedAppend(cs: seq<Change>, ds: seq<Change>)
    ensures Added(cs + ds) == Added(cs) + Added(ds)
  {
    if ds == [] {
      assert cs + ds == cs;
    } else {
      var m := |ds| - 1;
      assert (cs + ds)[..|cs + ds| - 1] == cs + ds[..m];
      AddedAppend(cs, ds[..m]);
    }
  }

  lemma {:induction false} AppendedToAppend(cs: seq<Change>, ds: seq<Change>, name: string)
    ensures AppendedTo(cs + ds, name) == AppendedTo(cs, name) + AppendedTo(ds, name)
  {
    if ds == [] {
      assert cs + ds == cs;
    } else {
      var m := |ds| - 1;
      assert (cs + ds)[..|cs + ds| - 1] == cs + ds[..m];
      AppendedToAppend(cs, ds[..m], name);
    }
  }

  /** What one turn's changes add to the account and append to a log. */
  lemma TurnEffect(t: Turn, name: string)
    ensures Added(TurnChanges(t))
            == if t.Ran? && (t.outcome == Committed || t.outcome == RollbackFailed) then t.amount else 0
    ensures AppendedTo(TurnChanges(t), name)
            == if t.Ran? && t.outcome == Committed && t.agent < |AGENTS| && AGENTS[t.agent] == name
               then [t.amount] else []
  {
    if t.Ran? && t.outcome != LedgerFailed {
      var head := [AddToAccount(t.amount)];
      var tail := TurnChanges(t)[1..];
      assert TurnChanges(t) == head + tail;
      OneChange(head[0], name);
      AddedAppend(head, tail);
      AppendedToAppend(head, tail, name);
      TailEffect(t, tail, name);
    }
  }

  /** What follows a turn's first update: the log append of a commit, the
      compensating update of a rollback, or nothing. */
  lemma TailEffect(t: Turn, tail: seq<Change>, name: string)
    requires t.Ran? && t.outcome != LedgerFailed && tail == TurnChanges(t)[1..]
    ensures Added(tail) == if t.outcome == RolledBack then -t.amount else 0
    ensures AppendedTo(tail, name)
            == if t.outcome == Committed && t.agent < |AGENTS| && AGENTS[t.agent] == name then [t.amount] else []
  {
    if tail != [] {
      assert tail == [tail[0]];
      OneChange(tail[0], name);
    }
  }

  lemma OneChange(c: Change, name: string)
    ensures Added([c]) == if c.AddToAccount? then c.amount else 0
    ensures AppendedTo([c], name) == if c.AppendToLog? && c.name == name then [c.amount] else []
  {
    assert [c][..0] == [];
  }

  /** The changes of a run move the account by exactly the amounts applied. */
  lemma {:induction false} ChangesAdded(turns: seq<Turn>)
    ensures Added(Changes(turns)) == Sum(Applied(turns))
  {
    if turns != [] {
      var m := |turns| - 1;
      var t := turns[m];
      ChangesAdded(turns[..m]);
      AddedAppend(Changes(turns[..m]), TurnChanges(t));
      TurnEffect(t, "");
      SumAppendIf(Applied(turns[..m]), t.Ran? && (t.outcome == Committed || t.outcome == RollbackFailed),
                  if t.Ran? then t.amount else 0);
    }
  }

  /** The changes of a run append to agent `k`'s log exactly what agent `k`
      committed: each log has a single writer. */
  lemma {:induction false} ChangesAppended(turns: seq<Turn>, k: nat)
    requires k < |AGENTS|
    ensures AppendedTo(Changes(turns), AGENTS[k]) == CommittedBy(k, turns)
  {
    if turns != [] {
      var m := |turns| - 1;
      var t := turns[m];
      ChangesAppended(turns[..m], k);
      AppendedToAppend(Changes(turns[..m]), TurnChanges(t), AGENTS[k]);
      TurnEffect(t, AGENTS[k]);
      if t.Ran? && t.agent != k && t.agent < |AGENTS| {
        AgentsDistinct();
        assert AGENTS[t.agent] != AGENTS[k];
      }
    }
  }

  /** Nothing in a run is appended to a file that is no agent's log. */
  lemma {:induction false} ChangesOnlyToLogs(turns: seq<Turn>, name: string)
    requires name !in AGENTS
    ensures AppendedTo(Changes(turns), name) == []
  {
    if turns != [] {
      var m := |turns| - 1;
      ChangesOnlyToLogs(turns[..m], name);
      AppendedToAppend(Changes(turns[..m]), TurnChanges(turns[m]), name);
      TurnEffect(turns[m], name);
    }
  }

  /** The account total of some changes does not depend on their order. */
  lemma {:induction false} AddedPermutation(cs: seq<Change>, ds: seq<Change>)
    requires multiset(cs) == multiset(ds)
    ensures Added(cs) == Added(ds)
    decreases |cs|
  {
    if cs != [] {
      var m := |cs| - 1;
      assert cs[m] in multiset(ds);
      var j :| 0 <= j < |ds| && ds[j] == cs[m];
      RemoveOne(ds, j);
      RemoveOne(cs, m);
      AddedPermutation(cs[..m] + cs[m + 1..], ds[..j] + ds[j + 1..]);
      AddedSplit(cs, m);
      AddedSplit(ds, j);
    }
  }

  /** Taking one change out removes exactly its own contribution. */
  lemma AddedSplit(cs: seq<Change>, j: nat)
    requires j < |cs|
    ensures Added(cs) == Added(cs[..j] + cs[j + 1..]) + Added([cs[j]])
  {
    SplitAt(cs, j);
    AddedAppend(cs[..j] + [cs[j]], cs[j + 1..]);
    AddedAppend(cs[..j], [cs[j]]);
    AddedAppend(cs[..j], cs[j + 1..]);
  }

  lemma SplitAt<T>(xs: seq<T>, j: nat)
    requires j < |xs|
    ensures xs == xs[..j] + [xs[j]] + xs[j + 1..]
  {
    assert xs[..j + 1] == xs[..j] + [xs[j]];
    assert xs == xs[..j + 1] + xs[j + 1..];
  }

  lemma RemoveOne<T>(xs: seq<T>, j: nat)
    requires j < |xs|
    ensures multiset(xs[..j] + xs[j + 1..]) == multiset(xs) - multiset{xs[j]}
  {
    SplitAt(xs, j);
  }

  /** Nothing is appended to a log that no change names. */
  lemma {:induction false} AppendedToNone(cs: seq<Change>, name: string)
    requires forall c :: c in cs && c.AppendToLog? ==> c.name != name
    ensures AppendedTo(cs, name) == []
  {
    if cs != [] {
      AppendedToNone(cs[..|cs| - 1], name);
    }
  }

  /** A run makes at most two single changes per turn, and appends only to
      agents' logs. */
  lemma {:induction false} ChangesShape(turns: seq<Turn>)
    ensures |Changes(turns)| <= 2 * |turns|
    ensures forall c :: c in Changes(turns) && c.AppendToLog? ==> c.name in AGENTS
  {
    if turns != [] {
      ChangesShape(turns[..|turns| - 1]);
    }
  }

  /** Every account change of a run is one of its turns' amounts or its
      negation, so it lies in the operation range when they all do. */
  lemma {:induction false} ChangesBounded(turns: seq<Turn>)
    requires forall j :: 0 <= j < |turns| && turns[j].Ran? ==> -(MAX_OPER as int) <= turns[j].amount <= MAX_OPER
    ensures forall c :: c in Changes(turns) && c.AddToAccount? ==> -(MAX_OPER as int) <= c.amount <= MAX_OPER
  {
    if turns != [] {
      ChangesBounded(turns[..|turns| - 1]);
    }
  }

  /** Changes whose account updates are each within the operation range move
      the account by at most that range per change. */
  lemma {:induction false} AddedBound(cs: seq<Change>)
    requires forall c :: c in cs && c.AddToAccount? ==> -(MAX_OPER as int) <= c.amount <= MAX_OPER
    ensures -(|cs| * MAX_OPER) <= Added(cs) <= |cs| * MAX_OPER
  {
    if cs != [] {
      var m := |cs| - 1;
      assert forall c :: c in cs[..m] ==> c in cs;
      AddedBound(cs[..m]);
    }
  }

  /** Running the agents' single updates and appends in any order, that is
      any permutation of the run's changes, in which every agent's log
      receives that agent's committed amounts in program order, leaves the
      books the serial run of whole iterations leaves (with the semaphore
      free). */
  lemma AnyUpdateOrder(n: nat, events: seq<Event>, b0: Books, cs: seq<Change>)
    requires n <= MAX_AGENTS && Schedule(n, events) && HasLogs(b0, n) && !b0.held
    requires multiset(cs) == multiset(Changes(Run(n, events, b0).turns))
    requires forall k :: 0 <= k < |AGENTS| ==> AppendedTo(cs, AGENTS[k]) == CommittedBy(k, Run(n, events, b0).turns)
    ensures ApplyAll(b0, cs) == Run(n, events, b0).books.(held := false)
  {
    var turns := Run(n, events, b0).turns;
    RunAsChanges(n, events, b0);
    ApplyAllAccount(b0, Changes(turns));
    AddedPermutation(cs, Changes(turns));
    ChangesShape(turns);
    forall name
      ensures AppendedTo(cs, name) == AppendedTo(Changes(turns), name)
    {
      if name in AGENTS {
        var k :| 0 <= k < |AGENTS| && AGENTS[k] == name;
        ChangesAppended(turns, k);
      } else {
        ChangesOnlyToLogs(turns, name);
        forall c | c in cs && c.AppendToLog?
          ensures c.name != name
        {
          assert c in multiset(Changes(turns));
        }
        AppendedToNone(cs, name);
      }
    }
    SameChangesSameBooks(b0, cs, Changes(turns));
  }

  /** Reading a log in sum_up: its sum, or 0 when the file cannot be opened. */
  method SumUp(log: seq<int>, canOpen: bool) returns (sum: int)
    ensures sum == if canOpen then Sum(log) else 0
  {
    if !canOpen {
      return 0;
    }
    sum := 0;
    var i := 0;
    while i < |log|
      invariant 0 <= i <= |log|
      invariant sum == Sum(log[..i])
    {
      assert log[..i + 1] == log[..i] + [log[i]];
      SumAppend(log[..i], log[i]);
      sum := sum + log[i];
      i := i + 1;
    }
    assert log[..i] == log;
  }

  class Bank {
    /** The balance held in the account file. */
    var account: int
    /** Whether the semaphore is currently held. */
    var held: bool
    /** Each agent's log. A log file that does not exist reads exactly like an
        empty one, so every agent's log is present from the start. */
    var logs: map<string, seq<int>>

    /** The state init leaves behind: the account holds the starting sum,
        the agents' old logs are gone, and the semaphore is free. */
    constructor ()
      ensures account == START_SUM && !held
      ensures forall k :: 0 <= k < |AGENTS| ==> AGENTS[k] in logs && logs[AGENTS[k]] == []
    {
      account := START_SUM;
      held := false;
      logs := map k | k in AGENTS :: [];
    }

    /** The object's state as a value. */
    function View(): Books
      reads this
    {
      Books(account, held, logs)
    }

    /** Read-modify-write of the account by `amount`. With `locked` the
        semaphore is acquired first and released after the write. Either
        fopen failing returns ERROR at once, leaving the account as it was
        and the semaphore still held. On success the stored balance grows by
        `amount`, but the value returned is the new balance plus `amount`
        once more, which is the new balance only when `amount` is 0. */
    method Update(amount: int, locked: bool, io: FileIo) returns (r: Reply)
      requires locked ==> !held
      modifies this`account, this`held
      ensures io.Ok() ==> account == old(account) + amount && held == old(held)
      ensures io.Ok() ==> r == Returned(old(account) + amount + amount)
      ensures r.Returned? ==> (r.value == account <==> amount == 0)
      ensures !io.Ok() ==> r == Failed && account == old(account) && held == (old(held) || locked)
    {
      if locked {
        held := true;
      }
      if !io.canRead {
        return Failed;
      }
      var stored := account;
      if !io.canWrite {
        return Failed;
      }
      var n := stored + amount;
      account := n;
      if locked {
        held := false;
      }
      r := Returned(n + amount);
    }

    /** One iteration of an agent's loop for an amount already drawn: update
        the account, append the amount to the agent's log, and if the append
        fails take the amount back with a second locked update and abort.
        The compensation writes nothing to the log. */
    method Transact(name: string, amount: int, io: StepIo) returns (o: StepOutcome)
      requires name in logs && !held
      modifies this
      ensures o == OutcomeOf(io)
      ensures o == Committed ==> account == old(account) + amount && !held
                                 && logs == old(logs)[name := old(logs[name]) + [amount]]
      ensures o == LedgerFailed ==> account == old(account) && held && logs == old(logs)
      ensures o == RolledBack ==> account == old(account) && !held && logs == old(logs)
      ensures o == RollbackFailed ==> account == old(account) + amount && held && logs == old(logs)
    {
      var u := Update(amount, true, io.update);
      if u.Failed? {
        return LedgerFailed;
      }
      if !io.canAppend {
        var back := Update(-amount, true, io.rollback);
        o := if back.Failed? then RollbackFailed else RolledBack;
        return;
      }
      logs := logs[name := logs[name] + [amount]];
      o := Committed;
    }

    /** The whole life of one agent run without interruption: OPERATIONS
        iterations, the i-th drawing its amount from `raws[i]`, stopping at the
        first iteration that does not commit. The log grows by the amounts of
        the committed iterations; the account by those, plus the amount of an
        iteration whose compensation failed. */
    method RunAgent(name: string, raws: seq<int>, ios: seq<StepIo>) returns (exit: AgentExit)
      requires |raws| == OPERATIONS && |ios| == OPERATIONS
      requires forall i :: 0 <= i < |raws| ==> raws[i] > 0
      requires name in logs && !held
      modifies this
      ensures exit.Aborted? ==> exit.at < OPERATIONS && exit.why == OutcomeOf(ios[exit.at]) && exit.why != Committed
      ensures forall i :: 0 <= i < Done(exit) ==> OutcomeOf(ios[i]) == Committed
      ensures logs == old(logs)[name := old(logs[name]) + Deltas(raws[..Done(exit)])]
      ensures account == old(account) + Sum(Deltas(raws[..Done(exit)]))
                         + (if exit.Aborted? && exit.why == RollbackFailed then GenRand(raws[exit.at], MAX_OPER) else 0)
      ensures held <==> exit.Aborted? && (exit.why == LedgerFailed || exit.why == RollbackFailed)
    {
      ghost var start := old(logs);
      AgentStart(start, name, raws);
      var i := 0;
      exit := Finished;
      while i < OPERATIONS
        invariant 0 <= i <= OPERATIONS && !held
        invariant CommitsBefore(ios, i)
        invariant name in logs && logs == start[name := start[name] + Deltas(raws[..i])]
        invariant account == old(account) + Sum(Deltas(raws[..i]))
      {
        var o := Iteration(name, raws, ios, i, start, old(account));
        if o != Committed {
          exit := Aborted(i, o);
          CommitsBeforeAll(ios, i);
          return;
        }
        i := i + 1;
      }
      CommitsBeforeAll(ios, i);
    }

    /** Iteration `i` of an agent's loop: draw the amount from `raws[i]` and
        run Transact with it. A commit extends the agent's log and the
        account by that amount; anything else leaves the log as it was. */
    method Iteration(name: string, raws: seq<int>, ios: seq<StepIo>, i: nat,
                     ghost start: map<string, seq<int>>, ghost base: int) returns (o: StepOutcome)
      requires i < |raws| && i < |ios|
      requires forall j :: 0 <= j < |raws| ==> raws[j] > 0
      requires name in start && !held
      requires name in logs && logs == start[name := start[name] + Deltas(raws[..i])]
      requires account == base + Sum(Deltas(raws[..i]))
      modifies this
      ensures o == OutcomeOf(ios[i])
      ensures o == Committed ==>
                && !held && name in logs
                && logs == start[name := start[name] + Deltas(raws[..i + 1])]
                && account == base + Sum(Deltas(raws[..i + 1]))
      ensures o != Committed ==>
                && logs == old(logs)
                && account == old(account) + (if o == RollbackFailed then GenRand(raws[i], MAX_OPER) else 0)
                && (held <==> o == LedgerFailed || o == RollbackFailed)
    {
      var amount := GenRand(raws[i], MAX_OPER);
      AgentStep(start, name, raws, i);
      o := Transact(name, amount, ios[i]);
    }

    /** A serial interleaving of iterations by the first `n` agents, one event
        at a time, each one call of Transact; it does exactly what Run
        describes. */
    method Interleave(n: nat, events: seq<Event>) returns (turns: seq<Turn>)
      requires n <= MAX_AGENTS && Schedule(n, events) && HasLogs(View(), n)
      modifies this
      ensures Progress(View(), turns) == Run(n, events, old(View()))
    {
      turns := [];
      var exited: set<nat> := {};
      var i := 0;
      while i < |events|
        invariant 0 <= i <= |events|
        invariant Progress(View(), turns) == Run(n, events[..i], old(View()))
        invariant forall k :: k in exited <==> Dead(k, turns)
      {
        assert events[..i + 1][..i] == events[..i];
        turns, exited := Advance(n, events[i], turns, exited);
        i := i + 1;
      }
      assert events[..i] == events;
    }

    /** One event of Interleave: nothing once the semaphore is held, a skip
        for an agent that has exited (recorded in `exited`), and otherwise one
        Transact with the amount drawn from the event. */
    method Advance(n: nat, e: Event, turns: seq<Turn>, exited: set<nat>) returns (turns': seq<Turn>, exited': set<nat>)
      requires n <= MAX_AGENTS && e.agent < n && e.raw > 0 && HasLogs(View(), n)
      requires forall k :: k in exited <==> Dead(k, turns)
      modifies this
      ensures Progress(View(), turns') == Step(n, Progress(old(View()), turns), e)
      ensures forall k :: k in exited' <==> Dead(k, turns')
    {
      turns', exited' := turns, exited;
      if held {
        return;
      }
      if e.agent in exited {
        turns' := turns + [Exited(e.agent)];
      } else {
        var amount := GenRand(e.raw, MAX_OPER);
        var o := Transact(AGENTS[e.agent], amount, e.io);
        turns' := turns + [Ran(e.agent, amount, o)];
        if o != Committed {
          exited' := exited + {e.agent};
        }
      }
      SnocPrefix(turns, turns'[|turns'| - 1]);
    }

    /** check_point for the first `n` agents: the expected balance is the
        starting sum plus the sum of every log (a log that cannot be opened
        counts 0), the actual balance is read by an update of 0 without the
        semaphore, and the audit passes exactly when the two agree. Neither the
        account nor the logs change. */
    method CheckPoint(n: nat, unreadable: set<string>, io: FileIo) returns (r: Audit)
      requires n <= MAX_AGENTS
      modifies this`account, this`held
      ensures account == old(account) && held == old(held)
      ensures !io.Ok() ==> r == CantRead
      ensures io.Ok() ==> !r.CantRead? && r.control == ControlSum(logs, AGENTS[..n], unreadable) && r.actual == account
      ensures io.Ok() ==> (r.Passed? <==> account == ControlSum(logs, AGENTS[..n], unreadable))
    {
      var control := 0;
      var i := 0;
      while i < n
        invariant 0 <= i <= n
        invariant account == old(account) && held == old(held)
        invariant control == LogsTotal(logs, AGENTS[..i], unreadable)
      {
        var name := AGENTS[i];
        var s := SumUp(if name in logs then logs[name] else [], name in logs && name !in unreadable);
        assert AGENTS[..i + 1][..i] == AGENTS[..i];
        control := control + s;
        i := i + 1;
      }
      control := START_SUM + control;
      var sum := Update(0, false, io);
      if sum.Failed? {
        return CantRead;
      }
      if sum.value != control {
        return Thieves(control, sum.value);
      }
      r := Passed(control, sum.value);
    }
  }

  /** The first `i` iterations' file outcomes all lead to a commit. */
  ghost predicate CommitsBefore(ios: seq<StepIo>, i: nat)
    requires i <= |ios|
  {
    i == 0 || (CommitsBefore(ios, i - 1) && OutcomeOf(ios[i - 1]) == Committed)
  }

  lemma {:induction false} CommitsBeforeAll(ios: seq<StepIo>, i: nat)
    requires i <= |ios| && CommitsBefore(ios, i)
    ensures forall j :: 0 <= j < i ==> OutcomeOf(ios[j]) == Committed
  {
    if i > 0 {
      CommitsBeforeAll(ios, i - 1);
    }
  }

  /** Before an agent's first iteration its log has grown by nothing. */
  lemma AgentStart(start: map<string, seq<int>>, name: string, raws: seq<int>)
    requires name in start
    requires forall i :: 0 <= i < |raws| ==> raws[i] > 0
    ensures start[name := start[name] + Deltas(raws[..0])] == start
  {
    assert raws[..0] == [];
    assert start[name] + [] == start[name];
  }

  /** One committed iteration extends an agent's amounts, their sum and its
      log by the amount drawn from the next raw value. */
  lemma AgentStep(start: map<string, seq<int>>, name: string, raws: seq<int>, i: nat)
    requires name in start && i < |raws|
    requires forall j :: 0 <= j < |raws| ==> raws[j] > 0
    ensures var amount := GenRand(raws[i], MAX_OPER);
            var before := start[name := start[name] + Deltas(raws[..i])];
            && Sum(Deltas(raws[..i + 1])) == Sum(Deltas(raws[..i])) + amount
            && before[name := before[name] + [amount]] == start[name := start[name] + Deltas(raws[..i + 1])]
  {
    var amount := GenRand(raws[i], MAX_OPER);
    assert raws[..i + 1][..i] == raws[..i];
    assert Deltas(raws[..i + 1]) == Deltas(raws[..i]) + [amount];
    SumAppend(Deltas(raws[..i]), amount);
    assert start[name] + Deltas(raws[..i]) + [amount] == start[name] + (Deltas(raws[..i]) + [amount]);
  }

  lemma SumAppendIf(xs: seq<int>, b: bool, x: int)
    ensures Sum(xs + (if b then [x] else [])) == Sum(xs) + (if b then x else 0)
  {
    if b {
      SumAppend(xs, x);
    } else {
      assert xs + [] == xs;
    }
  }
}
