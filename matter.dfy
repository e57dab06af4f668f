/**
 * The states-of-matter program: its states and actions, the two transition
 * types it defines for the DSL machine, the table it builds that machine from,
 * and the run of the Vanilla machine it performs.
 */
module Matter {
  import opened Wrappers
  import opened StateMachine
  import Vanilla

  datatype States = Gas | Solid | Liquid | Plasma

  datatype Action = Boil | Melt | Freeze | Condensate | Sublimate | Deposit | Ionize | Deionize

  /**
   * The hash of a case. Swift seeds its hashes per process; the program only
   * needs distinct cases to hash apart, which the case's position gives.
   */
  function StateHash(s: States): int {
    match s
    case Gas => 0
    case Solid => 1
    case Liquid => 2
    case Plasma => 3
  }

  function ActionHash(a: Action): int {
    match a
    case Boil => 0
    case Melt => 1
    case Freeze => 2
    case Condensate => 3
    case Sublimate => 4
    case Deposit => 5
    case Ionize => 6
    case Deionize => 7
  }

  /** Comparing cases by hash is comparing them. */
  lemma HashesInjective()
    ensures Injective(StateHash) && Injective(ActionHash)
  {
  }

  // ---------------------------------------------------------------------------
  // MatterTransition and AsyncMatterTransition

  /** `hash(into:)` of both transition types: event, incoming, outgoing; `combine` stands for the hasher. */
  function MatterHash(t: Transition<States, Action>, combine: (int, int, int) -> int): int {
    combine(ActionHash(t.event), StateHash(t.incoming), StateHash(t.outgoing))
  }

  /**
   * Two transitions of one type are `==` exactly when event, incoming and
   * outgoing agree (the closure plays no part), and `==` transitions hash alike.
   */
  lemma MatterEquality(a: Transition<States, Action>, b: Transition<States, Action>, combine: (int, int, int) -> int)
    requires a.Immediate? == b.Immediate?
    ensures a == b <==> a.event == b.event && a.incoming == b.incoming && a.outgoing == b.outgoing
    ensures a == b ==> MatterHash(a, combine) == MatterHash(b, combine)
  {
  }

  /** `MatterTransition.process()` yields the outgoing state, which dispatch then installs. */
  lemma MatterProcess(event: Action, from: States, to: States, current: States, race: Race<States>)
    ensures Process(Immediate(event, from, to)) == to
    ensures Fire(Immediate(event, from, to), current, race).0 == to
  {
    ImmediateFire(Immediate(event, from, to), current, race);
  }

  /**
   * `AsyncMatterTransition`. The wait time only decides, against the watchdog,
   * which signal comes first; the engine takes that order as a parameter.
   */
  class AsyncMatterTransition {
    const event: Action
    const incoming: States
    const outgoing: States
    var cancelled: bool

    constructor (event: Action, from: States, to: States)
      ensures this.event == event && incoming == from && outgoing == to && !cancelled
    {
      this.event := event;
      incoming := from;
      outgoing := to;
      cancelled := false;
    }

    /** This object as a registry value. */
    function Key(): Transition<States, Action> {
      Deferred(event, incoming, outgoing)
    }

    /** `==`: componentwise on event, incoming and outgoing. */
    predicate Equals(other: AsyncMatterTransition) {
      event == other.event && incoming == other.incoming && outgoing == other.outgoing
    }

    /** `cancel()`: the flag is set, and no method of the class clears it. */
    method Cancel()
      modifies this
      ensures cancelled
    {
      cancelled := true;
    }

    /**
     * `process(_:)` after its sleep: it hands `outgoing` to the completion once
     * when not cancelled by then, and calls it not at all otherwise.
     */
    method Process() returns (completion: Option<States>)
      ensures completion.Some? <==> !cancelled
      ensures completion.Some? ==> completion.value == outgoing
    {
      if cancelled {
        completion := None;
      } else {
        completion := Some(outgoing);
      }
    }
  }

  /**
   * How an `AsyncMatterTransition` can meet the watchdog: when the watchdog
   * fires first, `cancel()` lands during the sleep and the process never
   * calls back; when the process calls back first, it brings `outgoing`.
   */
  predicate MatterRace(t: Transition<States, Action>, race: Race<States>) {
    match race
    case TimerFirst(late) => late == None
    case CallbackFirst(arrival) => arrival.newState == t.outgoing
  }

  /**
   * One run of a fresh `AsyncMatterTransition` under `handleAsync`, as the
   * engine sees it: the order of the two signals comes from the object's own
   * `cancel()` and `process(_:)`, and fits `MatterRace`.
   */
  method RaceOf(a: AsyncMatterTransition, watchdogFirst: bool, machineAlive: bool) returns (race: Race<States>)
    requires !a.cancelled
    modifies a
    ensures MatterRace(a.Key(), race)
    ensures race.TimerFirst? <==> watchdogFirst
    ensures a.cancelled == watchdogFirst
    ensures race.CallbackFirst? ==> race.arrival.machineAlive == machineAlive
  {
    if watchdogFirst {
      var completion := WatchdogDuringSleep(a);
      assert completion == None;
      race := TimerFirst(None);
    } else {
      var completion := a.Process();
      race := CallbackFirst(Arrival(completion.value, machineAlive));
    }
  }

  /** Every deferred candidate for `event` from `current` meets the watchdog as an `AsyncMatterTransition` does. */
  ghost predicate MatterRaces(reg: Registry<States, Action>, event: Action, current: States, race: Race<States>) {
    forall t :: t in Candidates(reg, event, current, StateHash) && t.Deferred? ==> MatterRace(t, race)
  }

  /** `==` on `AsyncMatterTransition` objects is equality of their registry values. */
  lemma AsyncEqualsIsKeyEquality(a: AsyncMatterTransition, b: AsyncMatterTransition)
    ensures a.Equals(b) <==> a.Key() == b.Key()
  {
  }

  /**
   * The watchdog fires while `process` sleeps: `cancel()` lands first and the
   * process never calls back, so no late callback reaches the machine. The flag
   * stays set, so the same object never completes again.
   */
  method WatchdogDuringSleep(t: AsyncMatterTransition) returns (completion: Option<States>)
    modifies t
    ensures t.cancelled && completion == None
  {
    t.Cancel();
    completion := t.Process();
  }

  // ---------------------------------------------------------------------------
  // The DSL machine's table

  /** The transitions `machine2` is built from, in order. */
  function DslTable(): seq<Transition<States, Action>> {
    [ Immediate(Melt, Solid, Liquid),
      Immediate(Sublimate, Solid, Gas),
      Deferred(Deposit, Gas, Solid),
      Deferred(Condensate, Gas, Liquid),
      Deferred(Boil, Liquid, Gas),
      Immediate(Freeze, Liquid, Solid),
      Immediate(Ionize, Gas, Plasma),
      Immediate(Deionize, Plasma, Gas) ]
  }

  /** No two transitions of the table share an event. */
  lemma DslEventsDistinct(i: nat, j: nat)
    requires i < |DslTable()| && j < |DslTable()| && DslTable()[i].event == DslTable()[j].event
    ensures i == j
  {
  }

  /** Hence none share an event and a source. */
  lemma DslTableUnambiguous()
    ensures Unambiguous(DslTable(), StateHash)
  {
    var table := DslTable();
    forall i, j | 0 <= i < |table| && 0 <= j < |table| && table[i].event == table[j].event
      ensures table[i] == table[j]
    {
      DslEventsDistinct(i, j);
    }
  }

  /** Whatever the order of events, the machine built from the table ends in one state. */
  lemma DslRunsDeterministic(reg: Registry<States, Action>, current: States, events: seq<Action>,
                             races: seq<Race<States>>, final1: States, final2: States)
    requires Indexes(reg, DslTable())
    requires Runs(reg, StateHash, current, events, races, final1)
    requires Runs(reg, StateHash, current, events, races, final2)
    ensures final1 == final2
  {
    DslTableUnambiguous();
    RunsDeterministic(reg, DslTable(), StateHash, current, events, races, final1, final2);
  }

  /** In the table's registry the only transition for an event is the table's one. */
  lemma DslBucket(reg: Registry<States, Action>, i: nat)
    requires Indexes(reg, DslTable()) && i < |DslTable()|
    ensures Bucket(reg, DslTable()[i].event) == {DslTable()[i]}
  {
    var table := DslTable();
    var e := table[i].event;
    forall t | t in Bucket(reg, e)
      ensures t == table[i]
    {
      assert t in reg[e] && t in table;
      var j :| 0 <= j < |table| && table[j] == t;
      DslEventsDistinct(i, j);
    }
  }

  /** From `.liquid`, `freeze` is immediate: the state becomes `.solid`, delivered, then announced. */
  lemma DslFreezeFromLiquid(reg: Registry<States, Action>, race: Race<States>, next: States,
                            log: seq<Effect<States, Action>>)
    requires Indexes(reg, DslTable())
    requires Step(reg, StateHash, Liquid, Freeze, race, next, log)
    ensures next == Solid
    ensures log == [Completed(Success(Solid)), Transitioned(Immediate(Freeze, Liquid, Solid), Solid)]
  {
    DslBucket(reg, 5);
    assert Candidates(reg, Freeze, Liquid, StateHash) == {Immediate(Freeze, Liquid, Solid)};
  }

  /**
   * From `.liquid`, `boil` is deferred: it reaches `.gas` if the process calls
   * back first and the machine is there, and stays `.liquid` otherwise, with
   * `Cancelled` if the watchdog fires first.
   */
  lemma DslBoilFromLiquid(reg: Registry<States, Action>, race: Race<States>, next: States,
                          log: seq<Effect<States, Action>>)
    requires Indexes(reg, DslTable()) && MatterRace(Deferred(Boil, Liquid, Gas), race)
    requires Step(reg, StateHash, Liquid, Boil, race, next, log)
    ensures race.CallbackFirst? && race.arrival.machineAlive ==>
              next == Gas &&
              log == [QueueReleased, Completed(Success(Gas)), Transitioned(Deferred(Boil, Liquid, Gas), Gas)]
    ensures race.CallbackFirst? && !race.arrival.machineAlive ==>
              next == Liquid && log == [Completed(Failure(MachineUnavailable))]
    ensures race.TimerFirst? ==>
              next == Liquid &&
              log == [QueueReleased, CancelRequested(Deferred(Boil, Liquid, Gas)), Completed(Failure(Cancelled))]
  {
    DslBucket(reg, 4);
    assert Candidates(reg, Boil, Liquid, StateHash) == {Deferred(Boil, Liquid, Gas)};
  }

  /**
   * `machine2` only moves along its table: after one event the state is the
   * one before, or the target of the table's transition for that event out of
   * the state before.
   */
  lemma DslStepFollowsTable(reg: Registry<States, Action>, current: States, event: Action, race: Race<States>,
                            next: States, log: seq<Effect<States, Action>>)
    requires Indexes(reg, DslTable()) && MatterRaces(reg, event, current, race)
    requires Step(reg, StateHash, current, event, race, next, log)
    ensures next == current ||
            exists t :: t in DslTable() && t.event == event && t.incoming == current && next == t.outgoing
  {
    HashesInjective();
    forall t | t in Candidates(reg, event, current, StateHash) && t.Deferred? && race.CallbackFirst?
      ensures race.arrival.newState == t.outgoing
    {
      assert MatterRace(t, race);
    }
    StepFollowsList(reg, DslTable(), StateHash, current, event, race, next, log);
  }

  // ---------------------------------------------------------------------------
  // The Vanilla machine's run

  /** What each callback of `machine1` announces. */
  datatype Announcement =
    | Melting | Sublimating | Depositing | Condensating | Boiling | Freezing | Ionizing | Deionizing

  type Machine1 = Vanilla.StateMachine<States, Action, Announcement>

  /** `machine1`'s hasher. Swift seeds it per process; nothing below depends on which function it is. */
  function MachineHasher(eventHash: int, incomingHash: int, againHash: int): int {
    (eventHash * 4 + incomingHash) * 4 + againHash
  }

  /** The one transition `machine1` registers for each action. */
  function Machine1Transition(e: Action): Vanilla.Transition<States, Action, Announcement> {
    match e
    case Melt => Vanilla.Transition(Melt, Solid, Liquid, Some(Melting))
    case Sublimate => Vanilla.Transition(Sublimate, Solid, Gas, Some(Sublimating))
    case Deposit => Vanilla.Transition(Deposit, Gas, Solid, Some(Depositing))
    case Condensate => Vanilla.Transition(Condensate, Gas, Liquid, Some(Condensating))
    case Boil => Vanilla.Transition(Boil, Liquid, Gas, Some(Boiling))
    case Freeze => Vanilla.Transition(Freeze, Liquid, Solid, Some(Freezing))
    case Ionize => Vanilla.Transition(Ionize, Gas, Plasma, Some(Ionizing))
    case Deionize => Vanilla.Transition(Deionize, Plasma, Gas, Some(Deionizing))
  }

  /** `machine1`'s registry: the one transition of each action under that action, added in program order. */
  function Machine1Registry(): Vanilla.Registry<States, Action, Announcement> {
    map[][Melt := {Machine1Transition(Melt)}][Sublimate := {Machine1Transition(Sublimate)}]
         [Deposit := {Machine1Transition(Deposit)}][Condensate := {Machine1Transition(Condensate)}]
         [Boil := {Machine1Transition(Boil)}][Freeze := {Machine1Transition(Freeze)}]
         [Ionize := {Machine1Transition(Ionize)}][Deionize := {Machine1Transition(Deionize)}]
  }

  /** `machine1.addTransition(...)` for an action it has no transition for yet. */
  method Register(m: Machine1, e: Action)
    requires m.Valid() && e !in m.transitions
    modifies m
    ensures m.Valid() && m.transitions == old(m.transitions)[e := {Machine1Transition(e)}]
    ensures m.current == old(m.current) && m.ran == old(m.ran)
  {
    var t := Machine1Transition(e);
    m.AddTransition(t.incoming, t.outgoing, e, t.callback);
    assert m.transitions[e] == {t};
  }

  /** The first four `addTransition` calls: out of `.solid` and out of `.gas` into `.solid` and `.liquid`. */
  method RegisterSolidAndGas(m: Machine1)
    requires m.Valid() && m.transitions == map[]
    modifies m
    ensures m.Valid() && m.current == old(m.current) && m.ran == old(m.ran)
    ensures m.transitions == map[][Melt := {Machine1Transition(Melt)}][Sublimate := {Machine1Transition(Sublimate)}]
                                  [Deposit := {Machine1Transition(Deposit)}][Condensate := {Machine1Transition(Condensate)}]
  {
    Register(m, Melt);
    Register(m, Sublimate);
    Register(m, Deposit);
    Register(m, Condensate);
  }

  /** `machine1` after its eight `addTransition` calls. */
  method BuildMachine1() returns (m: Machine1)
    ensures fresh(m) && m.transitions == Machine1Registry()
    ensures m.current == Liquid && m.ran == [] && m.stateHash == StateHash && m.eventHash == ActionHash
  {
    m := new Vanilla.StateMachine<States, Action, Announcement>(Liquid, StateHash, ActionHash, MachineHasher);
    RegisterSolidAndGas(m);
    Register(m, Boil);
    Register(m, Freeze);
    Register(m, Ionize);
    Register(m, Deionize);
  }

  /** `machine1`'s registry is keyed by event. */
  lemma Machine1Valid(m: Machine1)
    requires m.transitions == Machine1Registry()
    ensures m.Valid()
  {
  }

  /** The state of `machine1` after `e` from `current`: the event's transition fires exactly when its source is `current`. */
  function Machine1Next(current: States, e: Action): States {
    if Machine1Transition(e).incoming == current then Machine1Transition(e).outgoing else current
  }

  /** The announcements `e` makes from `current`: the event's callback, when its transition fires. */
  function Machine1Announces(current: States, e: Action): seq<Announcement> {
    if Machine1Transition(e).incoming == current then [Machine1Transition(e).callback.value] else []
  }

  /** One `on(event:)` of `machine1`. */
  method Send(m: Machine1, e: Action)
    requires m.transitions == Machine1Registry()
    requires m.stateHash == StateHash && m.eventHash == ActionHash
    modifies m
    ensures m.transitions == old(m.transitions)
    ensures m.current == Machine1Next(old(m.current), e) && m.ran == old(m.ran) + Machine1Announces(old(m.current), e)
  {
    var t := Machine1Transition(e);
    var matching := Vanilla.Matching(m.transitions, e, m.current, StateHash, ActionHash);
    assert m.transitions[e] == {t};
    HashesInjective();
    Machine1Valid(m);
    if t.incoming == m.current {
      assert matching == {t};
    } else {
      assert matching == {};
    }
    m.On(e);
  }

  /**
   * `machine1`: built at `.liquid`, given its eight transitions, then sent
   * eleven events. `states` is the state after each event. The first `ionize`,
   * the second `freeze` and the first `boil` find no transition: the state
   * stays and no callback runs, so eight callbacks run for eleven events.
   */
  method VanillaDemo() returns (states: seq<States>, ran: seq<Announcement>)
    ensures states == [Liquid, Solid, Gas, Plasma, Plasma, Plasma, Gas, Liquid, Gas, Solid, Liquid]
    ensures ran == [Freezing, Sublimating, Ionizing, Deionizing, Condensating, Boiling, Depositing, Melting]
  {
    var m := BuildMachine1();
    states := [];
    Send(m, Ionize);     states := states + [m.current]; assert m.current == Liquid;
    Send(m, Freeze);     states := states + [m.current]; assert m.current == Solid;
    Send(m, Sublimate);  states := states + [m.current]; assert m.current == Gas;
    Send(m, Ionize);     states := states + [m.current]; assert m.current == Plasma;
    Send(m, Freeze);     states := states + [m.current]; assert m.current == Plasma;
    Send(m, Boil);       states := states + [m.current]; assert m.current == Plasma;
    Send(m, Deionize);   states := states + [m.current]; assert m.current == Gas;
    Send(m, Condensate); states := states + [m.current]; assert m.current == Liquid;
    Send(m, Boil);       states := states + [m.current]; assert m.current == Gas;
    Send(m, Deposit);    states := states + [m.current]; assert m.current == Solid;
    Send(m, Melt);       states := states + [m.current]; assert m.current == Liquid;
    ran := m.ran;
  }
}
