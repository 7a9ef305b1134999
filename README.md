# Agents and the shared account — a Dafny model

The program starts up to eight agent processes, named `a` to `h`. Each one
performs a fixed number of random deposits and withdrawals on a shared
account file. A named binary semaphore serialises the updates, and every
agent appends each amount it applied to a personal log file. When all agents
have finished, a controller checks that the account equals the starting sum
plus everything the agents logged.

This project models the program's bookkeeping core:

- `config.dfy` (module `AgentConfig`): the compile-time constants of `agent.h`.
- `agent.dfy` (module `Agent`): the pure parts.
  - The clamp of the requested number of agents.
  - The mapping from a raw random draw to an operation amount.
  - The sums the controller forms from the logs.
- `ledger.dfy` (module `Ledger`): class `Bank` holds the account balance, the
  semaphore (as a `held` flag) and the map of logs. Its methods are:
  - `update`'s read-modify-write;
  - one agent iteration with its compensating update;
  - an agent's whole loop;
  - a serial interleaving of the agents' iterations;
  - the controller's `check_point` and `sum_up`.

  The pure functions `Step` and `Run` describe the interleaving as values.
  The conservation, account, log and shape lemmas are proved about them.
- `spawning.dfy` (module `Spawning`): `go_agent`'s bounded fork retry, and
  main's spawn loop, which keeps the started pids in a compact prefix of
  `process`.
- `supervisor.dfy` (module `Supervisor`): main from start to finish. It clamps
  the count, initialises the books, starts the agents, runs them serially,
  stops if any agent fails, and otherwise audits.

Concurrency is modelled as one arbitrary serial order of whole agent
iterations, given as a sequence of events. Each event names the agent, the
raw random draw, and whether each file operation succeeds. An iteration that
leaves the semaphore held ends the run, because every later `update` would
block.

Whole iterations are a coarser grain than the program's. The semaphore
covers only the read-modify-write inside `update` (agent.c:301-320). The log
append (agent.c:251) and the rollback (agent.c:253) come after it is
released, so another agent's update can fall between them. `Ledger` also
describes a run as the sequence of single changes its iterations make: one
account update or one log append each (`Change`, `RunAsChanges`). Account
updates add, so their order does not matter, and each log has one writer.
`Ledger.AnyUpdateOrder` shows that any permutation of the run's single
changes that gives each agent's log that agent's amounts in program order
reaches the same books as the serial run.

Where the code and its comments differ, the model follows the code:

- `update` is documented as returning the new sum (agent.c:291, 322). It
  stores `old + amount` but returns `old + amount + amount`. That is the new
  balance only when `amount` is 0, as in `check_point` (agent.c:169), the one
  caller that uses the value itself. The agents only compare it with ERROR
  (agent.c:247, 253). `Bank.Update` returns what the code returns, and
  reports failure as `Failed`, apart from the value.
  `Supervisor.UpdateNeverSentinel` shows that no value an agent's update
  returns can equal ERROR in the serial order of whole iterations, and
  `Supervisor.AnyOrderNeverSentinel` shows the same for every permutation
  of the single changes, so the two readings agree.
- The comment on `gen_rand` (agent.c:272) says a range of 0 initialises the
  generator. The code would compute `% 0` instead, so `GenRand` requires a
  positive range.
- `update` acquires the semaphore before opening the account file. When
  either `fopen` fails it returns without releasing it (agent.c:301-314), so
  the semaphore stays held. `Bank.Update` models this.

## Model

| member | source | states |
|---|---|---|
| AgentConfig.AgentsDistinct | agent.h:38-39 | there are MAX_AGENTS names and no two agents share a name, so no two share a log file |
| Agent.ClampAgents | agent.c:135-138 | the count is always in [1, MAX_AGENTS]; a request in range is kept, anything else becomes 1 |
| Agent.GenRand | agent.c:280-286 | for a positive draw and range the amount is nonzero and within ±range; its magnitude is (r/1117)%range+1; it is negative exactly when (r/1111)%2 is 1 |
| Agent.LogsTotalAppend | agent.c:164-165 | appending x to the readable log of an agent listed once raises the controller's log total by exactly x |
| Agent.LogsTotalUnreadable | agent.c:188-191 | a log that sum_up cannot open contributes 0 to the total whatever it holds |
| Agent.LogsTotalOther | agent.c:164-165 | changing the log of an agent outside the audited names leaves the log total unchanged |
| Agent.SumBound | agent.c:193-194 | a log whose entries are all within ±MAX_OPER sums to at most its length times MAX_OPER in absolute value |
| Ledger.SumUp | agent.c:183-199 | reading a log yields the sum of its entries, or 0 when the file cannot be opened |
| Ledger.Bank.constructor | agent.c:143-150 | after init the account holds START_SUM, every agent's log is empty, and the semaphore is free |
| Ledger.Bank.Update | agent.c:291-323 | on success the account becomes old+amount, the semaphore is released, and the result is old+2·amount, which equals the balance iff amount is 0; on either open failure the result is the failure value, the account is unchanged, and a semaphore taken stays held |
| Ledger.Bank.Transact | agent.c:243-256 | a commit raises the account by amount and appends amount to this agent's log only; a failed append with a successful rollback restores the account and leaves the log alone; a failed update or rollback leaves the semaphore held |
| Ledger.Bank.RunAgent | agent.c:240-263 | an agent finishes all OPERATIONS iterations or aborts at the first that does not commit; its log grows by exactly the committed amounts, and the account by those plus the amount of an iteration whose rollback failed |
| Ledger.Bank.Iteration | agent.c:243-256 | iteration i draws its amount from raw i; a commit extends the agent's log and the account by it; anything else leaves the log alone, moves the account only when the rollback failed, and leaves the semaphore held exactly on a failed update or rollback |
| Ledger.Bank.Interleave | agent.c:240-261 | a serial interleaving of whole iterations leaves the books and turns that Run describes |
| Ledger.Bank.Advance | agent.c:240-256 | one event: nothing once the semaphore is held, a skip for an agent that has exited, otherwise one iteration; the books and turns are Step's |
| Ledger.TransactConserves | agent.c:243-256 | one iteration keeps account − (START_SUM + logs) unchanged unless its rollback fails, which shifts it by exactly the amount |
| Ledger.RunConserves | agent.c:159-171 | in any serial interleaving without a failed rollback, the account equals START_SUM plus all logged amounts, the equality check_point tests |
| Ledger.RunAccount | agent.c:247-256 | the account ends at START_SUM plus every committed amount and every amount whose rollback failed |
| Ledger.RunLogs | agent.c:251-256 | each agent's log ends as its initial log followed by exactly its committed amounts, in order |
| Ledger.RunShape | agent.c:240-261 | turn j belongs to event j; an aborted agent takes no further turn; a turn's amount and outcome are those its draw and file outcomes dictate; the run stops early only with the semaphore held |
| Ledger.ApplyAllAccount | agent.c:316 | after a sequence of single changes the account has moved by exactly the total of their updates, and the semaphore is untouched |
| Ledger.ApplyAllLog | agent.c:334 | after a sequence of single changes each log is its old content followed by exactly the amounts appended to it, in order |
| Ledger.SameChangesSameBooks | agent.c:301-320 | two orders of single changes with the same account total and the same appends to every log, in order, leave the same books |
| Ledger.RunAsChanges | agent.c:247-256 | a serial run's books are its turns' single changes applied in turn order: update then append for a commit, update then compensating update for a rollback, the update alone when the rollback fails |
| Ledger.ChangesAdded | agent.c:247-256 | a run's single changes move the account by exactly the amounts applied (committed or with a failed rollback) |
| Ledger.ChangesAppended | agent.c:251 | a run's single changes append to agent k's log exactly agent k's committed amounts, in order |
| Ledger.ChangesOnlyToLogs | agent.c:327-337 | a run appends to no file other than an agent's log |
| Ledger.AnyUpdateOrder | agent.c:247-256 | any permutation of the run's single updates and appends that gives each agent's log that agent's committed amounts in program order leaves the books the serial run leaves |
| Ledger.AddedPermutation | agent.c:316-322 | the account total of a set of updates does not depend on the order in which they are applied |
| Ledger.ChangesShape | agent.c:247-256 | a run makes at most two single changes per iteration, and appends only to agents' logs |
| Ledger.ChangesBounded | agent.c:247-253 | when every drawn amount is within MAX_OPER, so is every account update of the run, the rollbacks included |
| Ledger.AddedBound | agent.c:316 | changes whose updates are each within MAX_OPER move the account by at most MAX_OPER per change |
| Ledger.Bank.CheckPoint | agent.c:157-179 | the expected value is START_SUM plus the sums of agents[0..n-1]'s logs, with an unreadable log counting 0; the audit is CantRead when the account cannot be read and Passed iff the account equals the expected value; nothing changes |
| Spawning.ForkWithRetry | agent.c:234-235 | fork is tried at most RETRY times and stops at the first success; the spawn fails (go_agent returns ERROR) only when every attempt failed |
| Spawning.SpawnAgents | agent.c:89-95 | p counts the started agents and process[0..p-1] holds their pids in start order; the i-th call is handed the name of index "agents started by the first i calls" (at most i), so a failed call's name goes to the next call; the child of every call that started sits in process at the index of the name it was handed |
| Spawning.StartEach | agent.c:89-95 | the loop itself: after it, p, process[0..p-1] and the handed name indices are as SpawnAgents states |
| Spawning.StartedSlots | agent.c:89-94 | the pid of a call that started is at position "agents started before it" of the started pids |
| Spawning.SentinelPidDropped | agent.c:89-95 | as written (go_agent returning the pid or ERROR in one int), of two started children the first, with pid 999999, is taken for a failed spawn: only the second is kept, and it is handed name index 0, the first child's name, where the corrected loop hands it index 1 |
| Spawning.AsWrittenAgrees | agent.c:89-94 | when no call started a child with pid 999999, the pids kept as written are exactly the started ones |
| Supervisor.RunAllCommit | agent.c:240-261 | when every file operation succeeds, every turn of the run commits, in event order, and the semaphore ends free |
| Supervisor.AmountsBounded | agent.c:280-286 | every amount drawn lies within ±MAX_OPER |
| Supervisor.VisibleAllReadable | agent.c:164-165 | when every started agent's log can be opened, the amounts the controller sees are all the amounts drawn |
| Supervisor.LogsTotalCommit | agent.c:164-165 | one commit raises the readable log total by its amount when the agent's log can be opened, and by nothing when it cannot |
| Supervisor.RunVisible | agent.c:164-165 | when every iteration commits, the openable logs of the started agents grow in total by exactly the amounts their agents drew |
| Supervisor.RunControl | agent.c:159-167 | after such a run from init's books the controller expects START_SUM plus the amounts drawn by agents whose log can be opened; all amounts when every log can |
| Supervisor.AppliedAllCommit | agent.c:247-248 | in such a run the amounts applied to the account are all the amounts drawn |
| Supervisor.AppliedBounded | agent.c:247-256 | no more amounts reach the account than turns are taken, each within ±MAX_OPER |
| Supervisor.UpdateNeverSentinel | agent.c:247-256 | in any run from init's books, whatever the file outcomes, the balance before each iteration is in [-300, 500], and what update returns for the iteration's update and for its rollback is in [-320, 520], never ERROR |
| Supervisor.AnyOrderNeverSentinel | agent.c:247-256 | in every permutation of a run's single changes from init's books, the balance each update reads is in [-700, 900], and what update returns for it, iteration and rollback alike, is in [-720, 920], never ERROR |
| Supervisor.BalanceNeverSentinel | agent.c:169-170 | with at most MAX_AGENTS agents of OPERATIONS operations each, the final balance of a run in which all commit, which check_point reads, is in [-300, 500] and never ERROR |
| Supervisor.RunVerdictTurns | agent.c:98-110 | the run completes with every turn committed iff every iteration's file operations succeed |
| Supervisor.RunVerdictBooks | agent.c:159-171 | when every iteration commits from init's books, the account holds START_SUM plus all amounts drawn and equals START_SUM plus the logs |
| Supervisor.RunAndAudit | agent.c:98-117 | after p agents started: an agent fails iff some iteration does not commit; otherwise the audit is CantRead when the account cannot be read, and else compares the balance, START_SUM plus every amount drawn (never ERROR), with START_SUM plus the amounts of agents whose log can be opened: Passed iff they agree (always when every log can be opened), Thieves otherwise |
| Supervisor.Supervise | agent.c:59-122 | main end to end, from the requested count, fork outcomes and file outcomes: the started children's pids in slot order, the child of each started call at the slot of the name it was handed, and the same verdicts as RunAndAudit for the agents that started |

## Left out

- `fork`, `wait`, `kill` and `SIGINT` (agent.c:98-110) are process control and are not modelled. A failed agent becomes the `AgentFailed` result. The kill loop starts at `process[p]`, which can index one past the started pids; this loop is not part of this model.
- `sem_open`, `sem_close` and `sem_unlink` (agent.c:351-376) are operating-system IPC. The semaphore is only the `held` flag inside `Bank.Update`.
- Ledger.Bank.Update: requires that a locking call finds the semaphore free. Waiting on a held semaphore blocks forever rather than failing, and the model does not represent blocking.
- Ledger.Bank.Interleave: interleaves whole iterations, not the single updates and log appends. The semaphore is released (agent.c:319-320) before the append (agent.c:251), and a rollback (agent.c:253) takes it again, so the program interleaves at a finer grain. Ledger.AnyUpdateOrder shows that every permutation of the single changes in which each log receives its agent's amounts in program order leaves the serial run's books; account updates add, and each log has one writer. Supervisor.AnyOrderNeverSentinel bounds the balance every update reads, and the value it returns, in each such permutation. The model does not capture the other agents' appends after a failed update has left the semaphore held: that run ends in AgentFailed either way, and its books are never audited. Truly parallel execution is not modelled.
- File formatting is not modelled (`fprintf`, `fscanf` and `atoi` on the account and logs). The account is an `int` and each log a `seq<int>`. Whether each `fopen` succeeds is an input: per iteration in `StepIo`, per log in the `unreadable` set and for the account in `accountIo`.
- Ledger.Bank.constructor: empties the logs of all eight agents, where init deletes only those of the requested agents (agent.c:143-145). The controller reads only logs of started agents, and each of those was deleted. A failed `unlink` other than ENOENT, and a failed account creation, end the program and are not modelled.
- `srand`, `rand`, the loop that skips a zero draw, and `sleep` are not modelled. Each raw draw is a positive input.
- `printf` and `perror` diagnostics, and exit statuses, are not modelled. Outcomes are datatypes (`Reply`, `StepOutcome`, `Audit`, `RunResult`), not numbers.
- Agent.Sum: an `int` is unbounded, so C's 32-bit overflow of a sum is not modelled. Supervisor.UpdateNeverSentinel (serial order of whole iterations) and Supervisor.AnyOrderNeverSentinel (every permutation of the single changes) show that every balance and every value update returns stays far from any limit.
- Command-line parsing with `atoi` (agent.c:69-72) is not modelled. The requested count is an input.

## Findings

| source | as written | input that shows it | evidently intended | confidence | as-written member | corrected member |
|---|---|---|---|---|---|---|
| agent.c:90 | go_agent returns (agent.c:266) the child's pid in the same int as the failure value ERROR (999999), and main treats that value as a failed spawn | a child whose pid is 999999, which is possible where pid_max exceeds 999999: the agent runs, but main does not count it and reuses its name for the next agent | report success and failure apart from the pid, so every started child is kept | not executed | Spawning.SentinelPidDropped | Spawning.SpawnAgents |
