/** The program's compile-time parameters, as the header declares them. */
module AgentConfig {

  /** Number of ledger operations each agent performs. */
  const OPERATIONS: nat := 5

  /** Largest absolute amount of one operation. */
  const MAX_OPER: nat := 10

  /** Balance the account file is initialised with. */
  const START_SUM: int := 100

  /** In-band failure value returned by update, go_agent and check_point.
      A balance or a pid can take this value too; the model therefore reports
      failures through datatypes, not through this number. */
  const ERROR: int := 999999

  const SUCCESS: int := 0

  /** Largest number of agents that may be started. */
  const MAX_AGENTS: nat := 8

  /** The agents' names; each name is also the name of that agent's log file. */
  const AGENTS: seq<string> := ["a", "b", "c", "d", "e", "f", "g", "h"]

  /** How many times fork is attempted for one agent. */
  const RETRY: nat := 20

  /** No two agents share a name, so no two agents share a log. */
  lemma AgentsDistinct()
    ensures |AGENTS| == MAX_AGENTS
    ensures forall i, j :: 0 <= i < j < |AGENTS| ==> AGENTS[i] != AGENTS[j]
  {
  }
}
