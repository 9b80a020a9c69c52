/**
 * The players of main.py (`class Unit`, with its subclasses `Player` and
 * `Bot`): a mark, a Q-table, the win/lose/draw statistics and the two state
 * keys the controller keeps up to date during a match.
 */
module Units {
  import opened Board
  import opened Keys
  import opened QLearning

  /** `Unit.PLAYER` (moves typed in by a person) or `Unit.BOT`. */
  datatype Kind = Player | Bot

  /** The `stats` dictionary `{'wins', 'loses', 'draws'}`. */
  datatype Stats = Stats(wins: nat, loses: nat, draws: nat)

  function Won(s: Stats): Stats { s.(wins := s.wins + 1) }
  function Lost(s: Stats): Stats { s.(loses := s.loses + 1) }
  function Drew(s: Stats): Stats { s.(draws := s.draws + 1) }

  /** A snapshot of one unit: everything of it that the controller reads or changes. */
  datatype Agent = Agent(kind: Kind, mark: Mark, stats: Stats, state: Key, prevState: Key,
                         table: Table, alpha: real, gamma: real)

  /** The unit after `restart`: both keys back to `(0, 0, mark)`. */
  function Restarted(a: Agent): Agent
  {
    a.(state := InitialKey(a.mark), prevState := InitialKey(a.mark))
  }

  /**
   * What every unit keeps on an n-by-n board: both keys are whole on-board
   * triples, both extend the starting key, `prev_state` is a prefix of
   * `state`, and every key of the Q-table is whole on-board triples.
   */
  predicate AgentOk(a: Agent, n: nat)
  {
    && KeyOk(a.state, n) && KeyOk(a.prevState, n)
    && InitialKey(a.mark) <= a.prevState <= a.state
    && forall k :: k in a.table ==> KeyOk(k, n)
  }

  /** A unit that was just restarted keeps the invariant, its table being unchanged. */
  lemma RestartedOk(a: Agent, n: nat)
    requires n >= 1 && forall k :: k in a.table ==> KeyOk(k, n)
    ensures AgentOk(Restarted(a), n)
    ensures Restarted(a).table == a.table && Restarted(a).stats == a.stats
  {
    InitialKeyOk(a.mark, n);
  }

  class Unit {
    const kind: Kind
    const mark: Mark
    const qTable: QTable
    var stats: Stats
    /** `self.state`: the moves of the current match, as a key. */
    var state: Key
    /** `self.prev_state`: the key before the last recorded move. */
    var prevState: Key

    ghost function View(): Agent
      reads this, qTable
    {
      Agent(kind, mark, stats, state, prevState, qTable.table, qTable.alpha, qTable.gamma)
    }

    /** `Unit.__init__`: an empty Q-table, zero statistics, both keys `(0, 0, mark)`. */
    constructor (kind: Kind, mark: Mark, alpha: real, gamma: real)
      ensures View() == Agent(kind, mark, Stats(0, 0, 0), InitialKey(mark), InitialKey(mark), map[], alpha, gamma)
      ensures fresh(qTable)
    {
      this.kind := kind;
      this.mark := mark;
      qTable := new QTable(alpha, gamma);
      stats := Stats(0, 0, 0);
      state := InitialKey(mark);
      prevState := InitialKey(mark);
    }

    /** `Unit.restart`. */
    method Restart()
      modifies this`state, this`prevState
      ensures View() == Restarted(old(View()))
    {
      state := InitialKey(mark);
      prevState := InitialKey(mark);
    }
  }

  /** A new unit satisfies the invariant on any non-empty board. */
  lemma NewAgentOk(kind: Kind, mark: Mark, alpha: real, gamma: real, n: nat)
    requires n >= 1
    ensures AgentOk(Agent(kind, mark, Stats(0, 0, 0), InitialKey(mark), InitialKey(mark), map[], alpha, gamma), n)
  {
    InitialKeyOk(mark, n);
  }
}
